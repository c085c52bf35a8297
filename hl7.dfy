/** utils/hl7Generator.ts: a form record is written as a pipe- and
    caret-delimited message in the shape of an HL7 v2.5 ADT^A01 (segments MSH,
    PID, PV1, up to two OBX and DG1, one per line, lines ended by a carriage
    return), and such a message is read back into a FHIR Patient, Encounter and
    Observations. The clock and random draws of the source are inputs here. */
module Hl7 {
  import opened Wrappers
  import opened JsText
  import opened Fhir

  /** The form record the encoder consumes. The optional members of the
      source (`heartRate`, `temp`, `patientId`) are `""` when absent: every use
      of them in the source tests truthiness, for which the two agree. */
  datatype FormData = FormData(
    timestamp: string,
    fullName: string,
    email: string,
    phone: string,
    dob: string,
    symptoms: string,
    triageLevel: string,
    heartRate: string,
    temp: string,
    patientId: string)

  /** What one encoding draws from the environment: the ISO clock string
      (`new Date().toISOString()`), `Math.floor(Math.random() * 100000)` for the
      message id, `Math.floor(Math.random() * 10000)` for a synthetic record
      number, and the coin `Math.random() > 0.5` that picks the sex code. */
  datatype EncoderInputs = EncoderInputs(isoNow: string, msgRand: nat, mrnRand: nat, maleCoin: bool)

  /** What one decoding draws: the ISO clock string, `Date.now()` in
      milliseconds, and `Math.floor(Math.random() * 1000)` for the encounter id. */
  datatype DecoderInputs = DecoderInputs(isoNow: string, millis: nat, encounterRand: nat)

  datatype Decoded = Decoded(patient: Patient, encounter: Encounter, observations: seq<Observation>)

  const SegmentSep: char := '\r'
  const FieldSep: char := '|'
  const ComponentSep: char := '^'

  // The field positions the decoder reads (index 0 is the segment tag).
  const PidIdField: nat := 3
  const PidNameField: nat := 5
  const PidBirthDateField: nat := 7
  const PidSexField: nat := 8
  const PidContactField: nat := 13
  const Pv1TriageField: nat := 19
  const Dg1ReasonField: nat := 3
  const ObxCodeField: nat := 3
  const ObxValueField: nat := 5
  const ObxUnitField: nat := 6

  const TriageUrl := "http://aetherhealth.io/triage"
  const MissingPid := "Missing PID segment"
  /** The TypeError a JavaScript engine raises for `undefined.split(...)`. */
  const UndefinedSplit := "Cannot read properties of undefined (reading 'split')"

  // ================================================================ encoder

  /** `toISOString().replace(/[-:T\.]/g, '').slice(0, 14)`: YYYYMMDDHHMMSS. */
  function Hl7Timestamp(iso: string): (r: string)
    ensures |r| <= 14
    ensures forall k :: 0 <= k < |r| ==> r[k] in iso && r[k] !in IsoPunctuation
    ensures var kept := RemoveChars(iso, IsoPunctuation);
      r <= kept && |r| == (if |kept| < 14 then |kept| else 14)
  {
    var digits := RemoveChars(iso, IsoPunctuation);
    var r := Slice(digits, 0, 14);
    assert forall k :: 0 <= k < |r| ==> r[k] == digits[k];
    r
  }

  /** The characters the timestamp drops. */
  const IsoPunctuation: set<char> := {'-', ':', 'T', '.'}

  /** Digits are kept. */
  lemma DigitsKept(a: string)
    requires IsDigits(a)
    ensures RemoveChars(a, IsoPunctuation) == a
  {
    assert forall k :: 0 <= k < |a| ==> a[k] !in IsoPunctuation;
  }

  /** Dropping a leading run of digits and one dropped separator. */
  lemma DropAfterRun(a: string, c: char, b: string)
    requires IsDigits(a)
    requires c in IsoPunctuation
    ensures RemoveChars(a + ([c] + b), IsoPunctuation) == a + RemoveChars(b, IsoPunctuation)
  {
    var cs := IsoPunctuation;
    DigitsKept(a);
    assert ([c] + b)[1..] == b;
    assert RemoveChars([c] + b, cs) == RemoveChars(b, cs);
    assert a + [c] + b == a + ([c] + b);
    RemoveCharsAppend(a, [c] + b, cs);
  }

  /** The milliseconds and the zone letter are kept. */
  lemma IsoTailKept(t: string)
    requires |t| == 4 && IsDigits(t[..3]) && t[3] == 'Z'
    ensures RemoveChars(t, IsoPunctuation) == t
  {
    assert forall k :: 0 <= k < |t| ==> t[k] !in IsoPunctuation by {
      forall k | 0 <= k < |t| ensures t[k] !in IsoPunctuation {
        if k < 3 {
          assert t[k] == t[..3][k];
        }
      }
    }
  }

  /** The text of `toISOString()`: YYYY-MM-DDTHH:MM:SS.sssZ. */
  predicate IsIsoInstant(iso: string)
  {
    && |iso| == 24
    && IsDigits(iso[..4]) && iso[4] == '-' && IsDigits(iso[5..7]) && iso[7] == '-'
    && IsDigits(iso[8..10]) && iso[10] == 'T' && IsDigits(iso[11..13]) && iso[13] == ':'
    && IsDigits(iso[14..16]) && iso[16] == ':' && IsDigits(iso[17..19]) && iso[19] == '.'
    && IsDigits(iso[20..23]) && iso[23] == 'Z'
  }

  /** On a `toISOString()` value the timestamp is the fourteen digits
      YYYYMMDDHHMMSS. */
  lemma IsoTimestamp(iso: string)
    requires IsIsoInstant(iso)
    ensures Hl7Timestamp(iso) == iso[..4] + iso[5..7] + iso[8..10] + iso[11..13] + iso[14..16] + iso[17..19]
  {
    var tail := iso[20..];
    assert tail[..3] == iso[20..23];
    IsoTailKept(tail);
    IsoParts(iso);
    IsoKept(iso[..4], iso[5..7], iso[8..10], iso[11..13], iso[14..16], iso[17..19], tail, iso);
    var head := iso[..4] + iso[5..7] + iso[8..10] + iso[11..13] + iso[14..16] + iso[17..19];
    SeqAssoc6(iso[..4], iso[5..7], iso[8..10], iso[11..13], iso[14..16], iso[17..19], tail);
    assert RemoveChars(iso, IsoPunctuation) == head + tail;
    assert |head| == 14;
    assert (head + tail)[..14] == head;
  }

  /** An instant is its digit runs with the punctuation between them. */
  lemma IsoParts(iso: string)
    requires |iso| == 24
    ensures iso == iso[..4] + ([iso[4]] + (iso[5..7] + ([iso[7]] + (iso[8..10] + ([iso[10]] + (iso[11..13] +
                   ([iso[13]] + (iso[14..16] + ([iso[16]] + (iso[17..19] + ([iso[19]] + iso[20..])))))))))))
  {
  }

  /** Removing the punctuation of a composed instant keeps its runs. */
  lemma IsoKept(y: string, mo: string, d: string, h: string, mi: string, s: string, tail: string, iso: string)
    requires IsDigits(y) && IsDigits(mo) && IsDigits(d) && IsDigits(h) && IsDigits(mi) && IsDigits(s)
    requires RemoveChars(tail, IsoPunctuation) == tail
    requires iso == y + (['-'] + (mo + (['-'] + (d + (['T'] + (h + ([':'] + (mi +
                    ([':'] + (s + (['.'] + tail)))))))))))
    ensures RemoveChars(iso, IsoPunctuation) == y + (mo + (d + (h + (mi + (s + tail)))))
  {
    var t5 := s + (['.'] + tail);
    var t4 := mi + ([':'] + t5);
    var t3 := h + ([':'] + t4);
    var t2 := d + (['T'] + t3);
    var t1 := mo + (['-'] + t2);
    var cs := IsoPunctuation;
    DropAfterRun(s, '.', tail);
    var r5 := s + tail;
    assert RemoveChars(t5, cs) == r5;
    DropAfterRun(mi, ':', t5);
    var r4 := mi + r5;
    assert RemoveChars(t4, cs) == r4;
    DropAfterRun(h, ':', t4);
    var r3 := h + r4;
    assert RemoveChars(t3, cs) == r3;
    DropAfterRun(d, 'T', t3);
    var r2 := d + r3;
    assert RemoveChars(t2, cs) == r2;
    DropAfterRun(mo, '-', t2);
    var r1 := mo + r2;
    assert RemoveChars(t1, cs) == r1;
    DropAfterRun(y, '-', t1);
  }

  lemma SeqAssoc6(a: string, b: string, c: string, d: string, e: string, f: string, g: string)
    ensures a + (b + (c + (d + (e + (f + g))))) == a + b + c + d + e + f + g
  {
  }

  /** The first space-separated word of the full name. */
  function GivenName(fullName: string): string
  {
    Split(fullName, ' ')[0]
  }

  /** The words after the first, joined back with single spaces. */
  function FamilyName(fullName: string): string
  {
    Join(Split(fullName, ' ')[1..], " ")
  }

  /** The supplied patient id, or the synthetic record number when none is given. */
  function IdValue(data: FormData, inputs: EncoderInputs): string
  {
    if data.patientId != "" then data.patientId else NatToString(inputs.mrnRand)
  }

  function SexCode(inputs: EncoderInputs): string
  {
    if inputs.maleCoin then "M" else "F"
  }

  function Blanks(n: nat): (r: seq<string>)
    ensures |r| == n && forall i :: 0 <= i < n ==> r[i] == ""
  {
    seq(n, _ => "")
  }

  // The fields of each segment line, in the order the source's templates write them.

  function MshFields(now: string, msgId: string): seq<string>
  {
    ["MSH", "^~\\&", "GOOGLE_FORMS", "AETHER", "FHIR_PORTAL", "HOSPITAL", now, "", "ADT^A01", msgId, "P", "2.5"]
  }

  /** The contact composite `^^^email^^CP^^phone` is the twelfth field (index 11). */
  function PidFields(idValue: string, family: string, given: string, dobClean: string, sex: string,
                     email: string, phone: string): seq<string>
  {
    ["PID", "1", "", idValue + "^^^MRN", "", family + "^" + given, "", dobClean, sex, "", "",
     "^^^" + email + "^^CP^^" + phone]
  }

  /** The triage level sits at index 19 and the encoding time at index 44. */
  function Pv1Fields(triage: string, now: string): seq<string>
  {
    ["PV1", "1", "E", "TRIAGE^^^"] + Blanks(15) + [triage] + Blanks(24) + [now]
  }

  /** An OBX segment with a LOINC coded element `code^display^LN`. */
  function ObxFields(setId: string, code: string, display: string, value: string, unit: string): seq<string>
  {
    ["OBX", setId, "NM", code + "^" + display + "^LN", "", value, unit, "", "", "", "F"]
  }

  /** OBX|1|NM|8867-4^Heart Rate^LN||<value>|bpm|||||F */
  function HeartRateObxFields(value: string): seq<string>
  {
    ObxFields("1", "8867-4", "Heart Rate", value, "bpm")
  }

  /** OBX|2|NM|8310-5^Body Temp^LN||<value>|Cel|||||F */
  function TempObxFields(value: string): seq<string>
  {
    ObxFields("2", "8310-5", "Body Temp", value, "Cel")
  }

  function Dg1Fields(symptoms: string): seq<string>
  {
    ["DG1", "1", "", "^" + symptoms, "", "", "A"]
  }

  /** `lines.filter(Boolean)`: the non-empty lines, in order. */
  function DropEmpty(lines: seq<string>): (r: seq<string>)
    ensures forall i :: 0 <= i < |r| ==> r[i] != ""
    ensures (forall i :: 0 <= i < |lines| ==> lines[i] != "") ==> r == lines
  {
    if |lines| == 0 then []
    else (if lines[0] == "" then [] else [lines[0]]) + DropEmpty(lines[1..])
  }

  /** The filter keeps every non-empty line and nothing else. */
  lemma {:induction false} DropEmptyKeeps(lines: seq<string>)
    ensures forall x :: x in DropEmpty(lines) <==> x in lines && x != ""
    decreases |lines|
  {
    if |lines| > 0 {
      DropEmptyKeeps(lines[1..]);
      assert lines == [lines[0]] + lines[1..];
    }
  }

  /** The filter keeps the order: dropping the empty lines of two lists and
      concatenating is dropping the empty lines of their concatenation. */
  lemma {:induction false} DropEmptyAppend(a: seq<string>, b: seq<string>)
    ensures DropEmpty(a + b) == DropEmpty(a) + DropEmpty(b)
    decreases |a|
  {
    if |a| == 0 {
      assert a + b == b;
    } else {
      assert (a + b)[1..] == a[1..] + b;
      DropEmptyAppend(a[1..], b);
    }
  }

  /** The six candidate lines MSH, PID, PV1, OBX1, OBX2, DG1 with the absent
      vital-sign lines dropped. */
  function SegmentLines(data: FormData, inputs: EncoderInputs): seq<string>
  {
    var now := Hl7Timestamp(inputs.isoNow);
    var msgId := "MSG" + NatToString(inputs.msgRand);
    var msh := Join(MshFields(now, msgId), [FieldSep]);
    var pid := Join(PidFields(IdValue(data, inputs), FamilyName(data.fullName), GivenName(data.fullName),
                              RemoveChars(data.dob, {'-'}), SexCode(inputs), data.email, data.phone), [FieldSep]);
    var pv1 := Join(Pv1Fields(data.triageLevel, now), [FieldSep]);
    var obx1 := if data.heartRate != "" then Join(HeartRateObxFields(data.heartRate), [FieldSep]) else "";
    var obx2 := if data.temp != "" then Join(TempObxFields(data.temp), [FieldSep]) else "";
    var dg1 := Join(Dg1Fields(data.symptoms), [FieldSep]);
    DropEmpty([msh, pid, pv1, obx1, obx2, dg1])
  }

  /** generateHL7v2: the segment lines joined by carriage returns. */
  function GenerateHL7v2(data: FormData, inputs: EncoderInputs): string
  {
    Join(SegmentLines(data, inputs), [SegmentSep])
  }

  // ================================================================ decoder

  /** `msg.split('\r').map(s => s.split('|'))`. */
  function Segments(msg: string): seq<seq<string>>
  {
    var lines := Split(msg, SegmentSep);
    seq(|lines|, i requires 0 <= i < |lines| => Split(lines[i], FieldSep))
  }

  /** `s[0] === tag`; an empty field list has no tag. */
  predicate HasTag(s: seq<string>, tag: string)
  {
    |s| > 0 && s[0] == tag
  }

  /** The index of the first segment with the tag, or -1. */
  function TagIndex(segs: seq<seq<string>>, tag: string): (r: int)
    ensures -1 <= r < |segs|
    ensures r >= 0 ==> HasTag(segs[r], tag) && forall j :: 0 <= j < r ==> !HasTag(segs[j], tag)
    ensures r == -1 ==> forall j :: 0 <= j < |segs| ==> !HasTag(segs[j], tag)
  {
    if |segs| == 0 then -1
    else if HasTag(segs[0], tag) then 0
    else
      var k := TagIndex(segs[1..], tag);
      if k < 0 then -1 else k + 1
  }

  /** `segments.find(s => s[0] === tag)`. */
  function FindSegment(segs: seq<seq<string>>, tag: string): Option<seq<string>>
  {
    var i := TagIndex(segs, tag);
    if i < 0 then None else Some(segs[i])
  }

  /** `segments.filter(s => s[0] === tag)`. */
  function SegmentsTagged(segs: seq<seq<string>>, tag: string): (r: seq<seq<string>>)
    ensures |r| <= |segs|
    ensures forall i :: 0 <= i < |r| ==> HasTag(r[i], tag) && r[i] in segs
    ensures forall i :: 0 <= i < |segs| && HasTag(segs[i], tag) ==> segs[i] in r
  {
    if |segs| == 0 then []
    else (if HasTag(segs[0], tag) then [segs[0]] else []) + SegmentsTagged(segs[1..], tag)
  }

  lemma {:induction false} SegmentsTaggedAppend(a: seq<seq<string>>, b: seq<seq<string>>, tag: string)
    ensures SegmentsTagged(a + b, tag) == SegmentsTagged(a, tag) + SegmentsTagged(b, tag)
    decreases |a|
  {
    if |a| == 0 {
      assert a + b == b;
    } else {
      assert (a + b)[1..] == a[1..] + b;
      SegmentsTaggedAppend(a[1..], b, tag);
    }
  }

  /** Element `i` of a split result, with JavaScript's `undefined` read as `""`. */
  function FieldAt(fields: seq<string>, i: nat): string
  {
    if i < |fields| then fields[i] else ""
  }

  /** The patient id made from the record number: kept as it is when it already
      carries the `p-` prefix or does not convert to a number, otherwise
      prefixed with `p-`. */
  function CanonicalId(rawId: string): (r: string)
    ensures r == rawId || r == "p-" + rawId
    ensures "p-" <= r || !IsNumeric(r)
    ensures "p-" <= rawId ==> r == rawId
    ensures r == rawId <==> "p-" <= rawId || !IsNumeric(rawId)
  {
    if "p-" <= rawId || !IsNumeric(rawId) then rawId else "p-" + rawId
  }

  /** Canonicalising twice changes nothing: no id is ever double-prefixed. */
  lemma CanonicalIdIdempotent(rawId: string)
    ensures CanonicalId(CanonicalId(rawId)) == CanonicalId(rawId)
  {
  }

  /** A purely numeric record number gets the prefix. */
  lemma NumericIdPrefixed(rawId: string)
    requires |rawId| > 0 && IsDigits(rawId)
    ensures CanonicalId(rawId) == "p-" + rawId
  {
    DigitsAreNumeric(rawId);
    assert rawId[0] != 'p';
  }

  /** PID-7 rewritten as YYYY-MM-DD from characters 0-4, 4-6 and 6-8; an empty
      field gives the fixed default date. A non-empty field of another length
      is sliced all the same, with no fallback. */
  function BirthDate(field: string): (r: string)
    ensures field == "" ==> r == "1990-01-01"
    ensures |field| == 8 ==> r == field[..4] + "-" + field[4..6] + "-" + field[6..]
    ensures field != "" ==>
      var n := if |field| < 8 then |field| else 8;
      && |r| == n + 2
      && r == Slice(field, 0, 4) + "-" + Slice(field, 4, 6) + "-" + Slice(field, 6, 8)
  {
    if field != "" then Slice(field, 0, 4) + "-" + Slice(field, 4, 6) + "-" + Slice(field, 6, 8)
    else "1990-01-01"
  }

  /** A field of at most four characters keeps its text and gets both
      hyphens at the end: "1990" becomes "1990--". */
  lemma ShortBirthDate(field: string)
    requires 0 < |field| <= 4
    ensures BirthDate(field) == field + "--"
  {
  }

  /** PID-8: `'M'` is male, everything else female. */
  function GenderOf(sexField: string): (g: Gender)
    ensures g == Male || g == Female
    ensures g == Male <==> sexField == "M"
  {
    if sexField == "M" then Male else Female
  }

  /** One Observation per OBX segment, numbered from `index`; the first OBX
      without a field 3 makes the whole decoding throw. */
  function ParseObservations(obxs: seq<seq<string>>, patientId: string, inputs: DecoderInputs, index: nat)
    : (r: Result<seq<Observation>, string>)
    ensures r.Ok? <==> forall i :: 0 <= i < |obxs| ==> |obxs[i]| > ObxCodeField
    ensures r.Err? ==> r.error == UndefinedSplit
    ensures r.Ok? ==> |r.value| == |obxs|
    ensures r.Ok? ==> forall i :: 0 <= i < |r.value| ==>
      && r.value[i].subject == PatientReference(patientId)
      && r.value[i].code.coding == [Coding("LOINC", Split(obxs[i][ObxCodeField], ComponentSep)[0],
                                           FieldAt(Split(obxs[i][ObxCodeField], ComponentSep), 1))]
      && r.value[i].valueQuantity == Some(Quantity(FieldAt(obxs[i], ObxValueField), FieldAt(obxs[i], ObxUnitField),
                                                   "http://unitsofmeasure.org", FieldAt(obxs[i], ObxUnitField)))
    decreases |obxs|
  {
    if |obxs| == 0 then Ok([])
    else
      var obx := obxs[0];
      if |obx| <= ObxCodeField then Err(UndefinedSplit)
      else
        var codeParts := Split(obx[ObxCodeField], ComponentSep);
        var o := Observation(
          "obs-" + NatToString(inputs.millis) + "-" + NatToString(index),
          None,
          Final,
          CodeableConcept([Coding("LOINC", codeParts[0], FieldAt(codeParts, 1))], Some(FieldAt(codeParts, 1))),
          PatientReference(patientId),
          inputs.isoNow,
          Some(Quantity(FieldAt(obx, ObxValueField), FieldAt(obx, ObxUnitField), "http://unitsofmeasure.org",
                        FieldAt(obx, ObxUnitField))),
          None);
        match ParseObservations(obxs[1..], patientId, inputs, index + 1)
        case Err(e) => Err(e)
        case Ok(rest) =>
          assert forall i :: 1 <= i < |obxs| ==> obxs[1..][i - 1] == obxs[i];
          Ok([o] + rest)
  }

  /** The Patient of a PID segment with a field 5; the triage level comes
      from PV1-19 when there is one, else P4. */
  function DecodePatient(p: seq<string>, pv1: Option<seq<string>>, inputs: DecoderInputs): (r: Patient)
    requires |p| > PidNameField
    ensures r.id == CanonicalId(Split(p[PidIdField], ComponentSep)[0])
  {
    var nameParts := Split(p[PidNameField], ComponentSep);
    var contactParts := if FieldAt(p, PidContactField) != "" then Split(p[PidContactField], ComponentSep) else [];
    var telecom := if FieldAt(contactParts, 3) != "" then [Telecom(Email, contactParts[3], None)] else [];
    var rawId := Split(p[PidIdField], ComponentSep)[0];
    var triage := if pv1.Some? && FieldAt(pv1.value, Pv1TriageField) != "" then pv1.value[Pv1TriageField] else "P4";
    Patient(
      CanonicalId(rawId),
      Some(Meta(inputs.isoNow, "1")),
      true,
      [HumanName(None, nameParts[0], [FieldAt(nameParts, 1)])],
      Some(telecom),
      GenderOf(FieldAt(p, PidSexField)),
      BirthDate(FieldAt(p, PidBirthDateField)),
      None,
      Some([Identifier("urn:mrn", rawId, None)]),
      Some([Extension(TriageUrl, Some(triage))]))
  }

  /** The Encounter of a message: an arrived emergency visit of the patient,
      whose reason is DG1-3 without its first `^` (Checkup when empty). */
  function DecodeEncounter(dg1: Option<seq<string>>, patientId: string, inputs: DecoderInputs): (r: Encounter)
    ensures r.subject == PatientReference(patientId)
  {
    var reason := if dg1.Some? then RemoveFirst(FieldAt(dg1.value, Dg1ReasonField), ComponentSep) else "";
    Encounter(
      "e-" + NatToString(inputs.millis) + "-" + NatToString(inputs.encounterRand),
      None,
      Arrived,
      Coding("actCode", "EMER", "Emergency"),
      PatientReference(patientId),
      Some(Period(inputs.isoNow, None)),
      Some([if reason != "" then reason else "Checkup"]))
  }

  /** parseHL7toFHIR: fails with "Missing PID segment" when no segment is
      tagged PID, and with the TypeError of `undefined.split` when PID has no
      field 5 or an OBX has no field 3; otherwise it yields one Patient, one
      Encounter and one Observation per OBX, all referring to the patient. */
  function ParseHL7toFHIR(msg: string, inputs: DecoderInputs): (r: Result<Decoded, string>)
    ensures FindSegment(Segments(msg), "PID").None? ==> r == Err(MissingPid)
    ensures r.Err? ==> r.error == MissingPid || r.error == UndefinedSplit
    ensures r.Ok? <==>
      && FindSegment(Segments(msg), "PID").Some?
      && |FindSegment(Segments(msg), "PID").value| > PidNameField
      && forall i :: 0 <= i < |SegmentsTagged(Segments(msg), "OBX")| ==>
           |SegmentsTagged(Segments(msg), "OBX")[i]| > ObxCodeField
    ensures r.Ok? ==>
      && r.value.encounter.subject == PatientReference(r.value.patient.id)
      && |r.value.observations| == |SegmentsTagged(Segments(msg), "OBX")|
      && forall i :: 0 <= i < |r.value.observations| ==>
           r.value.observations[i].subject == PatientReference(r.value.patient.id)
  {
    var segs := Segments(msg);
    var pid := FindSegment(segs, "PID");
    var obxList := SegmentsTagged(segs, "OBX");
    if pid.None? then Err(MissingPid)
    else if |pid.value| <= PidNameField then Err(UndefinedSplit)
    else
      var patient := DecodePatient(pid.value, FindSegment(segs, "PV1"), inputs);
      var patientId := patient.id;
      var encounter := DecodeEncounter(FindSegment(segs, "DG1"), patientId, inputs);
      match ParseObservations(obxList, patientId, inputs, 0)
      case Err(e) => Err(e)
      case Ok(obs) => Ok(Decoded(patient, encounter, obs))
  }
}
