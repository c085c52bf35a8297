/** What survives `parseHL7toFHIR(generateHL7v2(form))`. Encoder and decoder
    agree on the positions of the record number (PID-3), the name (PID-5), the
    birth date (PID-7), the sex code (PID-8), the triage level (PV1-19), the
    reason (DG1-3) and the OBX fields; they disagree on the contact composite,
    which the encoder writes at index 11 of PID and the decoder reads at
    index 13, so the decoded patient never has a telecom entry. The field
    positions hold as long as no form value contains a `|` or a carriage
    return. */
module Hl7RoundTrip {
  import opened Wrappers
  import opened JsText
  import opened Fhir
  import opened Hl7

  predicate NoDelimiters(s: string)
  {
    FieldSep !in s && SegmentSep !in s
  }

  /** No form value and not the clock text carries a field or segment separator. */
  predicate WireSafe(data: FormData, inputs: EncoderInputs)
  {
    && NoDelimiters(data.fullName) && NoDelimiters(data.email) && NoDelimiters(data.phone)
    && NoDelimiters(data.dob) && NoDelimiters(data.symptoms) && NoDelimiters(data.triageLevel)
    && NoDelimiters(data.heartRate) && NoDelimiters(data.temp) && NoDelimiters(data.patientId)
    && NoDelimiters(inputs.isoNow)
  }

  /** How many OBX segments the encoder writes. */
  function ObxCount(data: FormData): nat
  {
    (if data.heartRate != "" then 1 else 0) + (if data.temp != "" then 1 else 0)
  }

  function ObxFieldLists(data: FormData): (r: seq<seq<string>>)
    ensures |r| == ObxCount(data)
  {
    (if data.heartRate != "" then [HeartRateObxFields(data.heartRate)] else [])
    + (if data.temp != "" then [TempObxFields(data.temp)] else [])
  }

  /** The field lists of the encoder's segments, in message order. */
  function EncodedFields(data: FormData, inputs: EncoderInputs): (r: seq<seq<string>>)
    ensures |r| == 4 + ObxCount(data)
  {
    [MshFields(Hl7Timestamp(inputs.isoNow), "MSG" + NatToString(inputs.msgRand)),
     EncodedPid(data, inputs),
     EncodedPv1(data, inputs)]
    + ObxFieldLists(data)
    + [Dg1Fields(data.symptoms)]
  }

  function EncodedPid(data: FormData, inputs: EncoderInputs): seq<string>
  {
    PidFields(IdValue(data, inputs), FamilyName(data.fullName), GivenName(data.fullName),
              RemoveChars(data.dob, {'-'}), SexCode(inputs), data.email, data.phone)
  }

  function EncodedPv1(data: FormData, inputs: EncoderInputs): seq<string>
  {
    Pv1Fields(data.triageLevel, Hl7Timestamp(inputs.isoNow))
  }

  /** The segments the decoder selects are the encoder's PID, PV1, DG1 and OBX field lists. */
  ghost predicate Selects(segs: seq<seq<string>>, data: FormData, inputs: EncoderInputs)
  {
    && FindSegment(segs, "PID") == Some(EncodedPid(data, inputs))
    && FindSegment(segs, "PV1") == Some(EncodedPv1(data, inputs))
    && FindSegment(segs, "DG1") == Some(Dg1Fields(data.symptoms))
    && SegmentsTagged(segs, "OBX") == ObxFieldLists(data)
  }

  // ---------------------------------------------------------------- helpers on split and join

  lemma JoinStartsWith(parts: seq<string>, sep: string)
    requires |parts| >= 1
    ensures parts[0] <= Join(parts, sep)
  {
  }

  lemma DropEmptyCons(x: string, rest: seq<string>)
    ensures DropEmpty([x] + rest) == (if x == "" then [] else [x]) + DropEmpty(rest)
  {
    assert ([x] + rest)[1..] == rest;
  }

  /** Splitting at the first separator of `a + sep + rest` gives `a` and the pieces of `rest`. */
  lemma SplitAfterFirst(a: string, rest: string, sep: char)
    requires sep !in a
    ensures Split(a + [sep] + rest, sep) == [a] + Split(rest, sep)
  {
    var parts := [a] + Split(rest, sep);
    JoinCons(a, Split(rest, sep), [sep]);
    SplitOfJoin(parts, sep);
  }

  lemma SplitNoSeparator(s: string, sep: char)
    requires sep !in s
    ensures Split(s, sep) == [s]
  {
    SplitOfJoin([s], sep);
  }

  lemma NameParts(fullName: string)
    requires NoDelimiters(fullName)
    ensures NoDelimiters(GivenName(fullName)) && NoDelimiters(FamilyName(fullName))
    ensures ComponentSep !in fullName ==>
      ComponentSep !in GivenName(fullName) && ComponentSep !in FamilyName(fullName)
  {
    var parts := Split(fullName, ' ');
    forall i, c | 0 <= i < |parts| && c in parts[i] ensures c in fullName {
      SplitPieceChars(fullName, ' ', i, c);
    }
    var rest := parts[1..];
    assert forall i :: 0 <= i < |rest| ==> rest[i] == parts[i + 1];
    NotInJoin(rest, " ", FieldSep);
    NotInJoin(rest, " ", SegmentSep);
    if ComponentSep !in fullName {
      NotInJoin(rest, " ", ComponentSep);
    }
  }

  lemma FindSegmentAt(segs: seq<seq<string>>, tag: string, i: nat)
    requires i < |segs| && HasTag(segs[i], tag)
    requires forall j :: 0 <= j < i ==> !HasTag(segs[j], tag)
    ensures FindSegment(segs, tag) == Some(segs[i])
  {
    var k := TagIndex(segs, tag);
    if k != i {
      assert false;
    }
  }

  lemma {:induction false} SegmentsTaggedAll(segs: seq<seq<string>>, tag: string)
    requires forall i :: 0 <= i < |segs| ==> HasTag(segs[i], tag)
    ensures SegmentsTagged(segs, tag) == segs
    decreases |segs|
  {
    if |segs| > 0 {
      SegmentsTaggedAll(segs[1..], tag);
      assert segs == [segs[0]] + segs[1..];
    }
  }

  lemma {:induction false} SegmentsTaggedNone(segs: seq<seq<string>>, tag: string)
    requires forall i :: 0 <= i < |segs| ==> !HasTag(segs[i], tag)
    ensures SegmentsTagged(segs, tag) == []
    decreases |segs|
  {
    if |segs| > 0 {
      SegmentsTaggedNone(segs[1..], tag);
    }
  }

  lemma JoinNonEmpty(parts: seq<string>, sep: string)
    requires |parts| >= 1 && parts[0] != ""
    ensures Join(parts, sep) != ""
  {
    JoinStartsWith(parts, sep);
  }

  lemma DropEmptySix(a: string, b: string, c: string, x: string, y: string, d: string)
    requires a != "" && b != "" && c != "" && d != ""
    ensures DropEmpty([a, b, c, x, y, d]) ==
      [a, b, c] + (if x == "" then [] else [x]) + (if y == "" then [] else [y]) + [d]
  {
    DropEmptyCons(a, [b, c, x, y, d]);
    DropEmptyCons(b, [c, x, y, d]);
    DropEmptyCons(c, [x, y, d]);
    DropEmptyCons(x, [y, d]);
    DropEmptyCons(y, [d]);
    DropEmptyCons(d, []);
  }

  /** The encoder's `filter(Boolean)` over its six candidate lines, of which
      only the two OBX lines can be empty. */
  lemma DropOptional(j0: string, j1: string, j2: string, j3: string, j4: string, j5: string, hr: bool, tp: bool)
    requires j0 != "" && j1 != "" && j2 != "" && j3 != "" && j4 != "" && j5 != ""
    ensures var lines := DropEmpty([j0, j1, j2, if hr then j3 else "", if tp then j4 else "", j5]);
      var mid := (if hr then [j3] else []) + (if tp then [j4] else []);
      lines == [j0, j1, j2] + mid + [j5]
  {
    var x := if hr then j3 else "";
    var y := if tp then j4 else "";
    DropEmptySix(j0, j1, j2, x, y, j5);
  }

  /** A field list that has a tag and no separator in any field. */
  predicate Clean(fields: seq<string>)
  {
    |fields| >= 1 && fields[0] != "" && forall j :: 0 <= j < |fields| ==> NoDelimiters(fields[j])
  }

  /** A clean field list joins into a non-empty line without a segment
      separator that splits back into the list. */
  lemma LineSplits(fields: seq<string>)
    requires Clean(fields)
    ensures var line := Join(fields, [FieldSep]);
      line != "" && LinesSplitInto([line], [fields])
  {
    JoinNonEmpty(fields, [FieldSep]);
    NotInJoin(fields, [FieldSep], SegmentSep);
    SplitOfJoin(fields, FieldSep);
  }

  /** Splitting joined lines gives back the field lists the lines split into. */
  lemma SegmentsOfLines(lines: seq<string>, fs: seq<seq<string>>)
    requires |fs| == |lines| >= 1
    requires forall i :: 0 <= i < |lines| ==> SegmentSep !in lines[i] && Split(lines[i], FieldSep) == fs[i]
    ensures Segments(Join(lines, [SegmentSep])) == fs
  {
    SplitOfJoin(lines, SegmentSep);
  }

  /** Each line of `lines` splits into the matching field list of `fs`, and
      none holds a segment separator. */
  predicate LinesSplitInto(lines: seq<string>, fs: seq<seq<string>>)
  {
    |lines| == |fs| && forall i :: 0 <= i < |lines| ==> SegmentSep !in lines[i] && Split(lines[i], FieldSep) == fs[i]
  }

  /** MSH, PID, PV1, the optional OBX lines and DG1 split into their field lists. */
  lemma SegmentsOfFrame(j0: string, j1: string, j2: string, mid: seq<string>, j5: string,
                        f0: seq<string>, f1: seq<string>, f2: seq<string>, midFields: seq<seq<string>>,
                        f5: seq<string>)
    requires LinesSplitInto([j0, j1, j2], [f0, f1, f2]) && LinesSplitInto(mid, midFields)
    requires LinesSplitInto([j5], [f5])
    ensures Segments(Join([j0, j1, j2] + mid + [j5], [SegmentSep])) == [f0, f1, f2] + midFields + [f5]
  {
    var lines := [j0, j1, j2] + mid + [j5];
    var fs := [f0, f1, f2] + midFields + [f5];
    assert forall i :: 3 <= i < |lines| - 1 ==> lines[i] == mid[i - 3] && fs[i] == midFields[i - 3];
    SegmentsOfLines(lines, fs);
  }

  /** The two optional OBX lines: present exactly when their flag is set. */
  lemma OptionalLines(j3: string, j4: string, f3: seq<string>, f4: seq<string>, hr: bool, tp: bool)
    requires LinesSplitInto([j3], [f3]) && LinesSplitInto([j4], [f4])
    ensures LinesSplitInto((if hr then [j3] else []) + (if tp then [j4] else []),
                           (if hr then [f3] else []) + (if tp then [f4] else []))
  {
  }

  /** The encoder's shape over any six lines: the two optional ones are dropped
      when absent and the decoder's split recovers the field lists of the rest. */
  lemma SixSegments(j0: string, j1: string, j2: string, j3: string, j4: string, j5: string,
                    f0: seq<string>, f1: seq<string>, f2: seq<string>, f3: seq<string>, f4: seq<string>,
                    f5: seq<string>, hr: bool, tp: bool)
    requires j0 != "" && j1 != "" && j2 != "" && j3 != "" && j4 != "" && j5 != ""
    requires LinesSplitInto([j0], [f0]) && LinesSplitInto([j1], [f1]) && LinesSplitInto([j2], [f2])
    requires LinesSplitInto([j3], [f3]) && LinesSplitInto([j4], [f4]) && LinesSplitInto([j5], [f5])
    ensures var lines := DropEmpty([j0, j1, j2, if hr then j3 else "", if tp then j4 else "", j5]);
      var fs := [f0, f1, f2] + ((if hr then [f3] else []) + (if tp then [f4] else [])) + [f5];
      Segments(Join(lines, [SegmentSep])) == fs
  {
    DropOptional(j0, j1, j2, j3, j4, j5, hr, tp);
    var mid := (if hr then [j3] else []) + (if tp then [j4] else []);
    var midFields := (if hr then [f3] else []) + (if tp then [f4] else []);
    OptionalLines(j3, j4, f3, f4, hr, tp);
    FrontLines(j0, j1, j2, f0, f1, f2);
    SegmentsOfFrame(j0, j1, j2, mid, j5, f0, f1, f2, midFields, f5);
  }

  lemma FrontLines(j0: string, j1: string, j2: string, f0: seq<string>, f1: seq<string>, f2: seq<string>)
    requires LinesSplitInto([j0], [f0]) && LinesSplitInto([j1], [f1]) && LinesSplitInto([j2], [f2])
    ensures LinesSplitInto([j0, j1, j2], [f0, f1, f2])
  {
    var lines, fs := [j0, j1, j2], [f0, f1, f2];
    assert lines[0] == [j0][0] && fs[0] == [f0][0];
    assert lines[1] == [j1][0] && fs[1] == [f1][0];
    assert lines[2] == [j2][0] && fs[2] == [f2][0];
  }

  /** A clean field list's line splits back into it. */
  ghost predicate SplitsBack(fields: seq<string>)
  {
    var line := Join(fields, [FieldSep]);
    line != "" && LinesSplitInto([line], [fields])
  }

  lemma MshClean(now: string, msgId: string)
    requires NoDelimiters(now) && NoDelimiters(msgId)
    ensures SplitsBack(MshFields(now, msgId))
  {
    LineSplits(MshFields(now, msgId));
  }

  lemma PidClean(id: string, family: string, given: string, dob: string, sex: string, email: string, phone: string)
    requires NoDelimiters(id) && NoDelimiters(family) && NoDelimiters(given) && NoDelimiters(dob)
    requires NoDelimiters(sex) && NoDelimiters(email) && NoDelimiters(phone)
    ensures SplitsBack(PidFields(id, family, given, dob, sex, email, phone))
  {
    LineSplits(PidFields(id, family, given, dob, sex, email, phone));
  }

  lemma Pv1Clean(triage: string, now: string)
    requires NoDelimiters(triage) && NoDelimiters(now)
    ensures SplitsBack(Pv1Fields(triage, now))
  {
    var f := Pv1Fields(triage, now);
    forall j | 0 <= j < |f| ensures NoDelimiters(f[j]) {
      if j != 19 && j != 44 && j >= 4 {
        assert f[j] == "";
      }
    }
    LineSplits(f);
  }

  lemma ObxClean(setId: string, code: string, display: string, value: string, unit: string)
    requires NoDelimiters(setId) && NoDelimiters(code) && NoDelimiters(display)
    requires NoDelimiters(value) && NoDelimiters(unit)
    ensures SplitsBack(ObxFields(setId, code, display, value, unit))
  {
    LineSplits(ObxFields(setId, code, display, value, unit));
  }

  lemma HeartRateClean(value: string)
    requires NoDelimiters(value)
    ensures SplitsBack(HeartRateObxFields(value))
  {
    ObxClean("1", "8867-4", "Heart Rate", value, "bpm");
  }

  lemma TempClean(value: string)
    requires NoDelimiters(value)
    ensures SplitsBack(TempObxFields(value))
  {
    ObxClean("2", "8310-5", "Body Temp", value, "Cel");
  }

  lemma Dg1Clean(symptoms: string)
    requires NoDelimiters(symptoms)
    ensures SplitsBack(Dg1Fields(symptoms))
  {
    LineSplits(Dg1Fields(symptoms));
  }

  /** The decoder's view of an encoded message is exactly the encoder's field
      lists: the segment split and the field split undo the two joins. */
  lemma EncodedSegments(data: FormData, inputs: EncoderInputs)
    requires WireSafe(data, inputs)
    ensures Segments(GenerateHL7v2(data, inputs)) == EncodedFields(data, inputs)
  {
    var now := Hl7Timestamp(inputs.isoNow);
    var msgId := "MSG" + NatToString(inputs.msgRand);
    var id := IdValue(data, inputs);
    var dob := RemoveChars(data.dob, {'-'});
    assert NoDelimiters(now) && NoDelimiters(msgId) && NoDelimiters(id) && NoDelimiters(dob);
    NameParts(data.fullName);
    var f0 := MshFields(now, msgId);
    var f1 := PidFields(id, FamilyName(data.fullName), GivenName(data.fullName), dob, SexCode(inputs),
                        data.email, data.phone);
    var f2 := Pv1Fields(data.triageLevel, now);
    var f3 := HeartRateObxFields(data.heartRate);
    var f4 := TempObxFields(data.temp);
    var f5 := Dg1Fields(data.symptoms);
    assert SplitsBack(f0) by { MshClean(now, msgId); }
    assert SplitsBack(f1) by {
      PidClean(id, FamilyName(data.fullName), GivenName(data.fullName), dob, SexCode(inputs), data.email, data.phone);
    }
    assert SplitsBack(f2) by { Pv1Clean(data.triageLevel, now); }
    assert SplitsBack(f3) by { HeartRateClean(data.heartRate); }
    assert SplitsBack(f4) by { TempClean(data.temp); }
    assert SplitsBack(f5) by { Dg1Clean(data.symptoms); }
    var j0, j1, j2 := Join(f0, [FieldSep]), Join(f1, [FieldSep]), Join(f2, [FieldSep]);
    var j3, j4, j5 := Join(f3, [FieldSep]), Join(f4, [FieldSep]), Join(f5, [FieldSep]);
    SixSegments(j0, j1, j2, j3, j4, j5, f0, f1, f2, f3, f4, f5, data.heartRate != "", data.temp != "");
  }

  /** Whatever the form holds, the encoder writes the lines MSH, PID, PV1,
      then one OBX line per present vital sign (heart rate first), then DG1,
      and no blank line; each line starts with its tag and a field separator. */
  lemma LineLayout(data: FormData, inputs: EncoderInputs)
    ensures var lines := SegmentLines(data, inputs);
      && |lines| == 4 + ObxCount(data)
      && StartsWith(lines[0], "MSH|") && StartsWith(lines[1], "PID|") && StartsWith(lines[2], "PV1|")
      && (forall i :: 3 <= i < |lines| - 1 ==> StartsWith(lines[i], "OBX|"))
      && (data.heartRate != "" ==> StartsWith(lines[3], "OBX|1|"))
      && (data.temp != "" ==> StartsWith(lines[|lines| - 2], "OBX|2|"))
      && StartsWith(lines[|lines| - 1], "DG1|")
      && forall i :: 0 <= i < |lines| ==> lines[i] != ""
  {
    var now := Hl7Timestamp(inputs.isoNow);
    var f0 := MshFields(now, "MSG" + NatToString(inputs.msgRand));
    var f1 := PidFields(IdValue(data, inputs), FamilyName(data.fullName), GivenName(data.fullName),
                        RemoveChars(data.dob, {'-'}), SexCode(inputs), data.email, data.phone);
    var f2 := Pv1Fields(data.triageLevel, now);
    var f3 := HeartRateObxFields(data.heartRate);
    var f4 := TempObxFields(data.temp);
    var f5 := Dg1Fields(data.symptoms);
    var j0, j1, j2, j3, j4, j5 := Join(f0, [FieldSep]), Join(f1, [FieldSep]), Join(f2, [FieldSep]),
                                  Join(f3, [FieldSep]), Join(f4, [FieldSep]), Join(f5, [FieldSep]);
    MshHead(now, "MSG" + NatToString(inputs.msgRand));
    PidHead(IdValue(data, inputs), FamilyName(data.fullName), GivenName(data.fullName),
            RemoveChars(data.dob, {'-'}), SexCode(inputs), data.email, data.phone);
    Pv1Head(data.triageLevel, now);
    ObxHead("1", "8867-4", "Heart Rate", data.heartRate, "bpm");
    ObxHead("2", "8310-5", "Body Temp", data.temp, "Cel");
    Dg1Head(data.symptoms);
    LayoutOfLines(j0, j1, j2, j3, j4, j5, data.heartRate != "", data.temp != "");
  }

  lemma MshHead(now: string, msgId: string)
    ensures StartsWith(Join(MshFields(now, msgId), [FieldSep]), "MSH|")
  {
    LineHead(MshFields(now, msgId), "MSH|");
  }

  lemma PidHead(id: string, family: string, given: string, dob: string, sex: string, email: string, phone: string)
    ensures StartsWith(Join(PidFields(id, family, given, dob, sex, email, phone), [FieldSep]), "PID|")
  {
    LineHead(PidFields(id, family, given, dob, sex, email, phone), "PID|");
  }

  lemma Pv1Head(triage: string, now: string)
    ensures StartsWith(Join(Pv1Fields(triage, now), [FieldSep]), "PV1|")
  {
    LineHead(Pv1Fields(triage, now), "PV1|");
  }

  lemma ObxHead(setId: string, code: string, display: string, value: string, unit: string)
    requires |setId| == 1
    ensures StartsWith(Join(ObxFields(setId, code, display, value, unit), [FieldSep]), "OBX|" + setId + "|")
  {
    LineHead(ObxFields(setId, code, display, value, unit), "OBX|" + setId + "|");
  }

  lemma Dg1Head(symptoms: string)
    ensures StartsWith(Join(Dg1Fields(symptoms), [FieldSep]), "DG1|")
  {
    LineHead(Dg1Fields(symptoms), "DG1|");
  }

  /** `line.startsWith(p)`. */
  predicate StartsWith(line: string, p: string)
  {
    |p| <= |line| && line[..|p|] == p
  }

  /** A line begins with its first two fields and the separators after them,
      and so with every prefix of those. */
  lemma LineHead(fields: seq<string>, head: string)
    requires |fields| >= 3 && fields[0] != "" && head != ""
    requires StartsWith(fields[0] + [FieldSep] + fields[1] + [FieldSep], head)
    ensures var line := Join(fields, [FieldSep]);
      line != "" && StartsWith(line, head)
  {
    var tail := Join(fields[2..], [FieldSep]);
    assert fields[1..][0] == fields[1] && fields[1..][1..] == fields[2..];
    assert Join(fields[1..], [FieldSep]) == fields[1] + [FieldSep] + tail;
    var p := fields[0] + [FieldSep] + fields[1] + [FieldSep];
    assert Join(fields, [FieldSep]) == p + tail;
    HeadOfConcat(p, tail, head);
  }

  lemma HeadOfConcat(p: string, tail: string, head: string)
    requires StartsWith(p, head) && head != ""
    ensures StartsWith(p + tail, head) && p + tail != ""
  {
    assert (p + tail)[..|head|] == p[..|head|];
  }

  lemma LayoutOfLines(j0: string, j1: string, j2: string, j3: string, j4: string, j5: string, hr: bool, tp: bool)
    requires StartsWith(j0, "MSH|") && StartsWith(j1, "PID|") && StartsWith(j2, "PV1|")
    requires StartsWith(j3, "OBX|1|") && StartsWith(j4, "OBX|2|") && StartsWith(j5, "DG1|")
    ensures var lines := DropEmpty([j0, j1, j2, if hr then j3 else "", if tp then j4 else "", j5]);
      && |lines| == 4 + (if hr then 1 else 0) + (if tp then 1 else 0)
      && StartsWith(lines[0], "MSH|") && StartsWith(lines[1], "PID|") && StartsWith(lines[2], "PV1|")
      && (forall i :: 3 <= i < |lines| - 1 ==> StartsWith(lines[i], "OBX|"))
      && (hr ==> StartsWith(lines[3], "OBX|1|"))
      && (tp ==> StartsWith(lines[|lines| - 2], "OBX|2|"))
      && StartsWith(lines[|lines| - 1], "DG1|")
      && forall i :: 0 <= i < |lines| ==> lines[i] != ""
  {
    NonEmptyStart(j0, "MSH|");
    NonEmptyStart(j1, "PID|");
    NonEmptyStart(j2, "PV1|");
    NonEmptyStart(j3, "OBX|1|");
    NonEmptyStart(j4, "OBX|2|");
    NonEmptyStart(j5, "DG1|");
    DropOptional(j0, j1, j2, j3, j4, j5, hr, tp);
    ShorterStart(j3, "OBX|1|", "OBX|");
    ShorterStart(j4, "OBX|2|", "OBX|");
  }

  lemma NonEmptyStart(line: string, p: string)
    requires StartsWith(line, p) && p != ""
    ensures line != ""
  {
  }

  lemma ShorterStart(line: string, p: string, q: string)
    requires StartsWith(line, p) && StartsWith(p, q)
    ensures StartsWith(line, q)
  {
    assert line[..|q|] == line[..|p|][..|q|];
  }

  /** The encoder's field lists are tagged MSH, PID, PV1, OBX for each
      present vital sign, and DG1, in that order. */
  lemma EncodedLayout(data: FormData, inputs: EncoderInputs)
    ensures var fs := EncodedFields(data, inputs);
      && HasTag(fs[0], "MSH") && HasTag(fs[1], "PID") && HasTag(fs[2], "PV1")
      && (forall i :: 3 <= i < |fs| - 1 ==> HasTag(fs[i], "OBX"))
      && HasTag(fs[|fs| - 1], "DG1")
  {
    var fs := EncodedFields(data, inputs);
    var obx := ObxFieldLists(data);
    assert forall i :: 3 <= i < |fs| - 1 ==> fs[i] == obx[i - 3];
  }

  /** Under the same condition the decoder finds MSH, PID, PV1, one OBX per
      present vital sign, and DG1, in that order. */
  lemma MessageLayout(data: FormData, inputs: EncoderInputs)
    requires WireSafe(data, inputs)
    ensures var segs := Segments(GenerateHL7v2(data, inputs));
      && |segs| == 4 + ObxCount(data)
      && HasTag(segs[0], "MSH") && HasTag(segs[1], "PID") && HasTag(segs[2], "PV1")
      && (forall i :: 3 <= i < |segs| - 1 ==> HasTag(segs[i], "OBX"))
      && HasTag(segs[|segs| - 1], "DG1")
  {
    EncodedSegments(data, inputs);
    EncodedLayout(data, inputs);
  }

  lemma SelectedOfLayout(front: seq<seq<string>>, obx: seq<seq<string>>, dg1: seq<string>)
    requires |front| == 3 && HasTag(front[0], "MSH") && HasTag(front[1], "PID") && HasTag(front[2], "PV1")
    requires forall i :: 0 <= i < |obx| ==> HasTag(obx[i], "OBX")
    requires HasTag(dg1, "DG1")
    ensures var fs := front + obx + [dg1];
      && FindSegment(fs, "PID") == Some(front[1])
      && FindSegment(fs, "PV1") == Some(front[2])
      && FindSegment(fs, "DG1") == Some(dg1)
      && SegmentsTagged(fs, "OBX") == obx
  {
    var fs := front + obx + [dg1];
    assert fs[0] == front[0] && fs[1] == front[1] && fs[2] == front[2] && fs[|fs| - 1] == dg1;
    assert forall j :: 3 <= j < |fs| - 1 ==> fs[j] == obx[j - 3];
    FindSegmentAt(fs, "PID", 1);
    FindSegmentAt(fs, "PV1", 2);
    FindSegmentAt(fs, "DG1", |fs| - 1);
    SegmentsTaggedAppend(front + obx, [dg1], "OBX");
    SegmentsTaggedAppend(front, obx, "OBX");
    SegmentsTaggedNone(front, "OBX");
    SegmentsTaggedAll(obx, "OBX");
    SegmentsTaggedNone([dg1], "OBX");
  }

  /** The segments the decoder selects from the encoder's field lists. */
  lemma SelectedSegments(data: FormData, inputs: EncoderInputs)
    ensures Selects(EncodedFields(data, inputs), data, inputs)
  {
    var fs := EncodedFields(data, inputs);
    var obx := ObxFieldLists(data);
    assert forall i :: 0 <= i < |obx| ==> HasTag(obx[i], "OBX");
    SelectedOfLayout(fs[..3], obx, fs[|fs| - 1]);
    assert fs == fs[..3] + obx + [fs[|fs| - 1]];
  }

  /** What the decoder builds from the segments it selected. */
  lemma DecodeOfSelected(msg: string, dec: DecoderInputs, pid: seq<string>, pv1: seq<string>,
                         dg1: seq<string>, obxs: seq<seq<string>>)
    requires FindSegment(Segments(msg), "PID") == Some(pid) && |pid| > PidNameField
    requires FindSegment(Segments(msg), "PV1") == Some(pv1)
    requires FindSegment(Segments(msg), "DG1") == Some(dg1)
    requires SegmentsTagged(Segments(msg), "OBX") == obxs
    requires forall i :: 0 <= i < |obxs| ==> |obxs[i]| > ObxCodeField
    ensures var r := ParseHL7toFHIR(msg, dec);
      var rawId := Split(pid[PidIdField], ComponentSep)[0];
      var nameParts := Split(pid[PidNameField], ComponentSep);
      var reason := RemoveFirst(FieldAt(dg1, Dg1ReasonField), ComponentSep);
      var triage := FieldAt(pv1, Pv1TriageField);
      && r.Ok?
      && r.value.patient.id == CanonicalId(rawId)
      && r.value.patient.identifier == Some([Identifier("urn:mrn", rawId, None)])
      && r.value.patient.name == [HumanName(None, nameParts[0], [FieldAt(nameParts, 1)])]
      && r.value.patient.birthDate == BirthDate(FieldAt(pid, PidBirthDateField))
      && r.value.patient.gender == GenderOf(FieldAt(pid, PidSexField))
      && (FieldAt(pid, PidContactField) == "" ==> r.value.patient.telecom == Some([]))
      && r.value.patient.extension == Some([Extension(TriageUrl, Some(if triage != "" then triage else "P4"))])
      && r.value.encounter.reasonCode == Some([if reason != "" then reason else "Checkup"])
      && r.value.observations == ParseObservations(obxs, CanonicalId(rawId), dec, 0).value
  {
  }

  lemma PidFieldsAt(id: string, family: string, given: string, dob: string, sex: string, email: string, phone: string)
    ensures var p := PidFields(id, family, given, dob, sex, email, phone);
      && |p| == 12 && p[PidIdField] == id + "^^^MRN" && p[PidNameField] == family + "^" + given
      && p[PidBirthDateField] == dob && p[PidSexField] == sex
  {
  }

  lemma Pv1FieldsAt(triage: string, now: string)
    ensures var p := Pv1Fields(triage, now); |p| == 45 && p[Pv1TriageField] == triage
  {
  }

  lemma Dg1FieldsAt(symptoms: string)
    ensures var p := Dg1Fields(symptoms); |p| == 7 && RemoveFirst(p[Dg1ReasonField], ComponentSep) == symptoms
  {
    assert ("^" + symptoms)[1..] == symptoms;
  }

  /** A message whose segments are the encoder's field lists decodes, and
      the decoder reads back the encoder's PID, PV1, DG1 and OBX fields. */
  lemma DecodeEncoded(msg: string, data: FormData, enc: EncoderInputs, dec: DecoderInputs)
    requires Selects(Segments(msg), data, enc)
    ensures var r := ParseHL7toFHIR(msg, dec);
      var rawId := Split(IdValue(data, enc) + "^^^MRN", ComponentSep)[0];
      var nameParts := Split(FamilyName(data.fullName) + "^" + GivenName(data.fullName), ComponentSep);
      && r.Ok?
      && r.value.patient.id == CanonicalId(rawId)
      && r.value.patient.identifier == Some([Identifier("urn:mrn", rawId, None)])
      && r.value.patient.name == [HumanName(None, nameParts[0], [FieldAt(nameParts, 1)])]
      && r.value.patient.birthDate == BirthDate(RemoveChars(data.dob, {'-'}))
      && r.value.patient.gender == GenderOf(SexCode(enc))
      && r.value.patient.telecom == Some([])
      && r.value.patient.extension ==
           Some([Extension(TriageUrl, Some(if data.triageLevel != "" then data.triageLevel else "P4"))])
      && r.value.encounter.reasonCode == Some([if data.symptoms != "" then data.symptoms else "Checkup"])
      && r.value.observations == ParseObservations(ObxFieldLists(data), CanonicalId(rawId), dec, 0).value
  {
    PidFieldsAt(IdValue(data, enc), FamilyName(data.fullName), GivenName(data.fullName),
                RemoveChars(data.dob, {'-'}), SexCode(enc), data.email, data.phone);
    Pv1FieldsAt(data.triageLevel, Hl7Timestamp(enc.isoNow));
    Dg1FieldsAt(data.symptoms);
    var obx := ObxFieldLists(data);
    assert forall i :: 0 <= i < |obx| ==> |obx[i]| == 11;
    DecodeOfSelected(msg, dec, EncodedPid(data, enc), EncodedPv1(data, enc), Dg1Fields(data.symptoms), obx);
  }

  // ---------------------------------------------------------------- what the round trip keeps
  //
  // Each lemma below is stated for any message whose segments are the
  // encoder's field lists; EncodedSegments shows the encoder's own output is
  // such a message, and RoundTrip puts the two together.

  /** Form data free of `|` and carriage returns always decodes: the decoder
      finds the PID with its name field and every OBX with its code field. */
  lemma WireSafeDecodes(data: FormData, enc: EncoderInputs, dec: DecoderInputs)
    requires WireSafe(data, enc)
    ensures ParseHL7toFHIR(GenerateHL7v2(data, enc), dec).Ok?
  {
    EncodedSegments(data, enc);
    TriageDecoded(GenerateHL7v2(data, enc), data, enc, dec);
  }

  /** PV1-19: the triage level comes back, `P4` standing in only for an empty one. */
  lemma TriageDecoded(msg: string, data: FormData, enc: EncoderInputs, dec: DecoderInputs)
    requires Segments(msg) == EncodedFields(data, enc)
    ensures var r := ParseHL7toFHIR(msg, dec);
      r.Ok? && r.value.patient.extension ==
        Some([Extension(TriageUrl, Some(if data.triageLevel != "" then data.triageLevel else "P4"))])
  {
    SelectedSegments(data, enc);
    DecodeEncoded(msg, data, enc, dec);
  }

  /** DG1-3: the symptom text comes back whole (only the leading caret is
      removed, so carets inside survive), `Checkup` standing in for an empty one. */
  lemma ReasonDecoded(msg: string, data: FormData, enc: EncoderInputs, dec: DecoderInputs)
    requires Segments(msg) == EncodedFields(data, enc)
    ensures var r := ParseHL7toFHIR(msg, dec);
      r.Ok? && r.value.encounter.reasonCode == Some([if data.symptoms != "" then data.symptoms else "Checkup"])
  {
    SelectedSegments(data, enc);
    DecodeEncoded(msg, data, enc, dec);
  }

  /** PID-3: the record number comes back as the identifier, and the patient
      id is its canonical form; a synthetic number always gets the `p-` prefix. */
  lemma IdDecoded(msg: string, data: FormData, enc: EncoderInputs, dec: DecoderInputs)
    requires Segments(msg) == EncodedFields(data, enc)
    requires ComponentSep !in data.patientId
    ensures var r := ParseHL7toFHIR(msg, dec);
      && r.Ok?
      && r.value.patient.identifier == Some([Identifier("urn:mrn", IdValue(data, enc), None)])
      && r.value.patient.id == CanonicalId(IdValue(data, enc))
      && (data.patientId == "" ==> r.value.patient.id == "p-" + NatToString(enc.mrnRand))
      && ("p-" <= data.patientId ==> r.value.patient.id == data.patientId)
  {
    SelectedSegments(data, enc);
    DecodeEncoded(msg, data, enc, dec);
    var id := IdValue(data, enc);
    RecordNumberComponent(id);
    if data.patientId == "" {
      NumericIdPrefixed(NatToString(enc.mrnRand));
    }
  }

  lemma RecordNumberComponent(id: string)
    requires ComponentSep !in id
    ensures Split(id + "^^^MRN", ComponentSep)[0] == id
  {
    assert id + "^^^MRN" == id + [ComponentSep] + "^^MRN";
    SplitAfterFirst(id, "^^MRN", ComponentSep);
  }

  /** PID-5: family and given name come back as the encoder split them. */
  lemma NameDecoded(msg: string, data: FormData, enc: EncoderInputs, dec: DecoderInputs)
    requires Segments(msg) == EncodedFields(data, enc)
    requires FieldSep !in data.fullName && SegmentSep !in data.fullName && ComponentSep !in data.fullName
    ensures var r := ParseHL7toFHIR(msg, dec);
      r.Ok? && r.value.patient.name ==
        [HumanName(None, FamilyName(data.fullName), [GivenName(data.fullName)])]
  {
    SelectedSegments(data, enc);
    DecodeEncoded(msg, data, enc, dec);
    NameParts(data.fullName);
    NameComponents(FamilyName(data.fullName), GivenName(data.fullName));
  }

  lemma NameComponents(family: string, given: string)
    requires ComponentSep !in family && ComponentSep !in given
    ensures var parts := Split(family + "^" + given, ComponentSep);
      parts[0] == family && FieldAt(parts, 1) == given
  {
    assert family + "^" + given == family + [ComponentSep] + given;
    SplitAfterFirst(family, given, ComponentSep);
    SplitNoSeparator(given, ComponentSep);
  }

  /** The first word and the rest of a name with a space give back the name. */
  lemma NameSplitRecombines(fullName: string)
    requires ' ' in fullName
    ensures GivenName(fullName) + " " + FamilyName(fullName) == fullName
  {
    var parts := Split(fullName, ' ');
    if |parts| == 1 {
      assert false;
    }
    JoinCons(parts[0], parts[1..], " ");
    assert parts == [parts[0]] + parts[1..];
  }

  /** PID-7 and PID-8: the birth date is the hyphen-free date re-hyphenated,
      and the gender is male exactly when the coin chose `M`. */
  lemma BirthDateAndGenderDecoded(msg: string, data: FormData, enc: EncoderInputs, dec: DecoderInputs)
    requires Segments(msg) == EncodedFields(data, enc)
    ensures var r := ParseHL7toFHIR(msg, dec);
      && r.Ok?
      && r.value.patient.birthDate == BirthDate(RemoveChars(data.dob, {'-'}))
      && (r.value.patient.gender == Male <==> enc.maleCoin)
      && (r.value.patient.gender == Female <==> !enc.maleCoin)
  {
    SelectedSegments(data, enc);
    DecodeEncoded(msg, data, enc, dec);
  }

  /** A YYYY-MM-DD date survives the hyphen removal and re-hyphenation. */
  lemma IsoDateRoundTrip(dob: string)
    requires |dob| == 10 && dob[4] == '-' && dob[7] == '-'
    requires forall k :: 0 <= k < 10 && k != 4 && k != 7 ==> dob[k] != '-'
    ensures BirthDate(RemoveChars(dob, {'-'})) == dob
  {
    var y, m, d := dob[..4], dob[5..7], dob[8..];
    assert dob == y + "-" + m + "-" + d;
    HyphenFree(y);
    HyphenFree(m);
    HyphenFree(d);
    DateClean(y, m, d);
    var clean := RemoveChars(dob, {'-'});
    assert clean[..4] == y && clean[4..6] == m && clean[6..] == d;
  }

  lemma HyphenFree(s: string)
    requires forall k :: 0 <= k < |s| ==> s[k] != '-'
    ensures RemoveChars(s, {'-'}) == s
  {
  }

  lemma DateClean(y: string, m: string, d: string)
    requires RemoveChars(y, {'-'}) == y && RemoveChars(m, {'-'}) == m && RemoveChars(d, {'-'}) == d
    ensures RemoveChars(y + "-" + m + "-" + d, {'-'}) == y + m + d
  {
    DropSeparator(y + "-" + m, d, '-', {'-'});
    DropSeparator(y, m, '-', {'-'});
  }

  lemma DropSeparator(a: string, b: string, c: char, cs: set<char>)
    requires c in cs
    ensures RemoveChars(a + [c] + b, cs) == RemoveChars(a, cs) + RemoveChars(b, cs)
  {
    var sep: string := [c];
    assert sep[1..] == [];
    assert RemoveChars(sep, cs) == "";
    RemoveCharsAppend(a, sep, cs);
    RemoveCharsAppend(a + sep, b, cs);
  }

  /** A date with nothing but hyphens (or nothing at all) decodes to the default. */
  lemma EmptyDateDefault(dob: string)
    requires forall k :: 0 <= k < |dob| ==> dob[k] == '-'
    ensures BirthDate(RemoveChars(dob, {'-'})) == "1990-01-01"
  {
    assert RemoveChars(dob, {'-'}) == "";
  }

  /** The contact composite is lost: the decoder reads PID-13 but the
      encoder wrote it at index 11, so the telecom list is empty even when the
      form carries an email address. */
  lemma ContactDropped(msg: string, data: FormData, enc: EncoderInputs, dec: DecoderInputs)
    requires Segments(msg) == EncodedFields(data, enc)
    ensures var r := ParseHL7toFHIR(msg, dec);
      r.Ok? && r.value.patient.telecom == Some([])
  {
    SelectedSegments(data, enc);
    DecodeEncoded(msg, data, enc, dec);
  }

  /** One Observation per OBX, in encoder order: heart rate (LOINC 8867-4, bpm)
      first, body temperature (LOINC 8310-5, Cel) last, each carrying the form's
      value text. */
  lemma ObservationsDecoded(msg: string, data: FormData, enc: EncoderInputs, dec: DecoderInputs)
    requires Segments(msg) == EncodedFields(data, enc)
    ensures var r := ParseHL7toFHIR(msg, dec);
      && r.Ok?
      && |r.value.observations| == ObxCount(data)
      && (data.heartRate != "" ==>
            r.value.observations[0].code.coding == [Coding("LOINC", "8867-4", "Heart Rate")]
            && r.value.observations[0].valueQuantity ==
                 Some(Quantity(data.heartRate, "bpm", "http://unitsofmeasure.org", "bpm")))
      && (data.temp != "" ==>
            var last := r.value.observations[|r.value.observations| - 1];
            last.code.coding == [Coding("LOINC", "8310-5", "Body Temp")]
            && last.valueQuantity == Some(Quantity(data.temp, "Cel", "http://unitsofmeasure.org", "Cel")))
  {
    SelectedSegments(data, enc);
    DecodeEncoded(msg, data, enc, dec);
    var obx := ObxFieldLists(data);
    var rawId := Split(IdValue(data, enc) + "^^^MRN", ComponentSep)[0];
    ObxFieldListsAt(data);
    VitalObservations(obx, data.heartRate, data.temp, CanonicalId(rawId), dec);
  }

  /** What the decoder reads from the encoder's OBX field lists. */
  lemma ObxFieldListsAt(data: FormData)
    ensures var obx := ObxFieldLists(data);
      && (forall k :: 0 <= k < |obx| ==> |obx[k]| == 11)
      && (data.heartRate != "" ==> ObxCarries(obx[0], "8867-4", "Heart Rate", data.heartRate, "bpm"))
      && (data.temp != "" ==> ObxCarries(obx[|obx| - 1], "8310-5", "Body Temp", data.temp, "Cel"))
  {
    var obx := ObxFieldLists(data);
    if data.heartRate != "" {
      assert obx[0] == HeartRateObxFields(data.heartRate);
      HeartRateObx(data.heartRate);
    }
    if data.temp != "" {
      assert obx[|obx| - 1] == TempObxFields(data.temp);
      TempObx(data.temp);
    }
  }

  lemma HeartRateObx(value: string)
    ensures ObxCarries(HeartRateObxFields(value), "8867-4", "Heart Rate", value, "bpm")
  {
    CarriesCode(HeartRateObxFields(value), "8867-4", "Heart Rate");
  }

  lemma TempObx(value: string)
    ensures ObxCarries(TempObxFields(value), "8310-5", "Body Temp", value, "Cel")
  {
    CarriesCode(TempObxFields(value), "8310-5", "Body Temp");
  }

  lemma CarriesCode(obx: seq<string>, code: string, display: string)
    requires |obx| > ObxUnitField && obx[ObxCodeField] == code + "^" + display + "^LN"
    requires ComponentSep !in code && ComponentSep !in display
    ensures ObxCarries(obx, code, display, obx[ObxValueField], obx[ObxUnitField])
  {
    CodeComponents(code, display);
  }

  /** An OBX field list whose code field names `code` and `display`, and
      whose value and unit fields are `value` and `unit`. */
  ghost predicate ObxCarries(obx: seq<string>, code: string, display: string, value: string, unit: string)
  {
    && |obx| > ObxUnitField
    && var parts := Split(obx[ObxCodeField], ComponentSep);
    && parts[0] == code && FieldAt(parts, 1) == display
    && obx[ObxValueField] == value && obx[ObxUnitField] == unit
  }

  /** The Observations decoded from the encoder's OBX field lists. */
  lemma VitalObservations(obx: seq<seq<string>>, heartRate: string, temp: string, patientId: string,
                          dec: DecoderInputs)
    requires |obx| == (if heartRate != "" then 1 else 0) + (if temp != "" then 1 else 0)
    requires forall k :: 0 <= k < |obx| ==> |obx[k]| == 11
    requires heartRate != "" ==> ObxCarries(obx[0], "8867-4", "Heart Rate", heartRate, "bpm")
    requires temp != "" ==> ObxCarries(obx[|obx| - 1], "8310-5", "Body Temp", temp, "Cel")
    ensures var r := ParseObservations(obx, patientId, dec, 0);
      && r.Ok?
      && |r.value| == |obx|
      && (heartRate != "" ==>
            r.value[0].code.coding == [Coding("LOINC", "8867-4", "Heart Rate")]
            && r.value[0].valueQuantity == Some(Quantity(heartRate, "bpm", "http://unitsofmeasure.org", "bpm")))
      && (temp != "" ==>
            r.value[|r.value| - 1].code.coding == [Coding("LOINC", "8310-5", "Body Temp")]
            && r.value[|r.value| - 1].valueQuantity ==
                 Some(Quantity(temp, "Cel", "http://unitsofmeasure.org", "Cel")))
  {
    if heartRate != "" {
      ObservationAt(obx, patientId, dec, 0, "8867-4", "Heart Rate", heartRate, "bpm");
    }
    if temp != "" {
      ObservationAt(obx, patientId, dec, |obx| - 1, "8310-5", "Body Temp", temp, "Cel");
    }
  }

  lemma ObservationAt(obxs: seq<seq<string>>, patientId: string, dec: DecoderInputs, i: nat,
                      code: string, display: string, value: string, unit: string)
    requires i < |obxs| && forall k :: 0 <= k < |obxs| ==> |obxs[k]| > ObxCodeField
    requires var parts := Split(obxs[i][ObxCodeField], ComponentSep); parts[0] == code && FieldAt(parts, 1) == display
    requires FieldAt(obxs[i], ObxValueField) == value && FieldAt(obxs[i], ObxUnitField) == unit
    ensures var r := ParseObservations(obxs, patientId, dec, 0);
      && r.Ok? && |r.value| == |obxs|
      && r.value[i].code.coding == [Coding("LOINC", code, display)]
      && r.value[i].valueQuantity == Some(Quantity(value, unit, "http://unitsofmeasure.org", unit))
  {
  }

  lemma CodeComponents(code: string, display: string)
    requires ComponentSep !in code && ComponentSep !in display
    ensures var parts := Split(code + "^" + display + "^LN", ComponentSep);
      parts[0] == code && FieldAt(parts, 1) == display
  {
    assert code + "^" + display + "^LN" == code + [ComponentSep] + (display + [ComponentSep] + "LN");
    SplitAfterFirst(code, display + [ComponentSep] + "LN", ComponentSep);
    SplitAfterFirst(display, "LN", ComponentSep);
  }

  /** generateHL7v2 followed by parseHL7toFHIR: the decoding succeeds and
      keeps the triage level, the reason, the record number, the name, the
      birth date, the sex code and the vital signs, and loses the contact. */
  lemma RoundTrip(data: FormData, enc: EncoderInputs, dec: DecoderInputs)
    requires WireSafe(data, enc)
    requires ComponentSep !in data.patientId && ComponentSep !in data.fullName
    ensures var r := ParseHL7toFHIR(GenerateHL7v2(data, enc), dec);
      && r.Ok?
      && r.value.patient.extension ==
           Some([Extension(TriageUrl, Some(if data.triageLevel != "" then data.triageLevel else "P4"))])
      && r.value.encounter.reasonCode == Some([if data.symptoms != "" then data.symptoms else "Checkup"])
      && r.value.patient.identifier == Some([Identifier("urn:mrn", IdValue(data, enc), None)])
      && r.value.patient.id == CanonicalId(IdValue(data, enc))
      && r.value.patient.name == [HumanName(None, FamilyName(data.fullName), [GivenName(data.fullName)])]
      && r.value.patient.birthDate == BirthDate(RemoveChars(data.dob, {'-'}))
      && (r.value.patient.gender == Male <==> enc.maleCoin)
      && r.value.patient.telecom == Some([])
      && |r.value.observations| == ObxCount(data)
  {
    var msg := GenerateHL7v2(data, enc);
    EncodedSegments(data, enc);
    TriageDecoded(msg, data, enc, dec);
    ReasonDecoded(msg, data, enc, dec);
    IdDecoded(msg, data, enc, dec);
    NameDecoded(msg, data, enc, dec);
    BirthDateAndGenderDecoded(msg, data, enc, dec);
    ContactDropped(msg, data, enc, dec);
    ObservationsDecoded(msg, data, enc, dec);
  }

  /** A message with no PID segment is refused and yields no patient. */
  lemma NoPidRefused(msg: string, dec: DecoderInputs)
    requires forall i :: 0 <= i < |Segments(msg)| ==> !HasTag(Segments(msg)[i], "PID")
    ensures ParseHL7toFHIR(msg, dec) == Err(MissingPid)
  {
  }
}
