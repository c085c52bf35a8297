/** services/store.ts: four ordered collections (patients, encounters,
    observations, ingestion logs). Patients are upserted by id with a shallow
    merge and a version bump; the other three collections only grow at the
    end. Browser storage is replaced by the fields of a `Store` object, and
    the clock string of an update is a parameter. */
module RecordStore {
  import opened Wrappers
  import opened JsText
  import opened Fhir

  // ================================================================ patients

  /** `patients.findIndex(p => p.id === id)`: the first index with that id, or -1. */
  function IndexOfId(ps: seq<Patient>, id: string): (i: int)
    ensures -1 <= i < |ps|
    ensures i >= 0 ==> ps[i].id == id && forall j :: 0 <= j < i ==> ps[j].id != id
    ensures i == -1 <==> forall j :: 0 <= j < |ps| ==> ps[j].id != id
  {
    if |ps| == 0 then -1
    else if ps[0].id == id then 0
    else
      var k := IndexOfId(ps[1..], id);
      if k < 0 then -1 else k + 1
  }

  /** getPatientById: `patients.find(p => p.id === id)`. */
  function FindPatient(ps: seq<Patient>, id: string): (r: Option<Patient>)
    ensures r.None? <==> forall j :: 0 <= j < |ps| ==> ps[j].id != id
    ensures r.Some? ==> exists i :: 0 <= i < |ps| && r.value == ps[i] && r.value.id == id
                                   && forall j :: 0 <= j < i ==> ps[j].id != id
  {
    var i := IndexOfId(ps, id);
    if i < 0 then None else Some(ps[i])
  }

  predicate UniqueIds(ps: seq<Patient>)
  {
    forall i, j :: 0 <= i < j < |ps| ==> ps[i].id != ps[j].id
  }

  function Ids(ps: seq<Patient>): set<string>
  {
    set i | 0 <= i < |ps| :: ps[i].id
  }

  /** `existing.meta?.versionId || '1'`. */
  function VersionBase(meta: Option<Meta>): string
  {
    if meta.Some? && meta.value.versionId != "" then meta.value.versionId else "1"
  }

  /** `String(Number(v) + 1)`. `Number` trims whitespace; an empty remainder
      reads as 0 and a run of decimal digits as its value. A string that is
      no numeric literal at all reads as NaN, and NaN + 1 prints as "NaN".
      The other numeric forms (a fraction, an exponent, a hexadecimal, octal
      or binary literal, a sign) are not evaluated and also give "NaN" here;
      from a digit version the store only ever computes digit versions
      (NextVersionOfDigits). */
  function NextVersion(v: string): (r: string)
    ensures IsDigits(Trim(v)) ==> r == NatToString(DigitsValue(Trim(v)) + 1)
    ensures !IsNumeric(v) ==> r == "NaN"
  {
    var t := Trim(v);
    if IsDigits(t) then DigitsTrimNumeric(v); NatToString(DigitsValue(t) + 1)
    else "NaN"
  }

  /** Whitespace around a run of digits still converts to a number. */
  lemma DigitsTrimNumeric(v: string)
    requires IsDigits(Trim(v))
    ensures IsNumeric(v)
  {
    var t := Trim(v);
    if t != "" {
      DigitsAreNumeric(t);
      TrimUnpadded(t);
    }
  }

  /** A version written as digits is followed by the next number. */
  lemma NextVersionOfDigits(s: string)
    requires s != "" && IsDigits(s)
    ensures IsDigits(NextVersion(s)) && DigitsValue(NextVersion(s)) == DigitsValue(s) + 1
  {
    assert !IsJsSpace(s[0]) && !IsJsSpace(s[|s| - 1]);
    TrimUnpadded(s);
    NatToStringValue(DigitsValue(s) + 1);
  }

  /** A version written as a number's decimal rendering is followed by the next number. */
  lemma NextVersionOfNumber(n: nat)
    ensures NextVersion(NatToString(n)) == NatToString(n + 1)
  {
    var s := NatToString(n);
    assert !IsJsSpace(s[0]) && !IsJsSpace(s[|s| - 1]);
    TrimUnpadded(s);
    NatToStringValue(n);
  }

  /** The update branch of addPatient: `{...existing, ...incoming, meta}`.
      The members `incoming` carries win; an optional member it lacks is kept
      from `existing`; `meta` is refreshed with the update time and the next
      version number. */
  function MergePatient(existing: Patient, incoming: Patient, now: string): (r: Patient)
    ensures r.id == incoming.id && r.active == incoming.active && r.name == incoming.name
    ensures r.gender == incoming.gender && r.birthDate == incoming.birthDate
    ensures r.telecom == (if incoming.telecom.Some? then incoming.telecom else existing.telecom)
    ensures r.address == (if incoming.address.Some? then incoming.address else existing.address)
    ensures r.identifier == (if incoming.identifier.Some? then incoming.identifier else existing.identifier)
    ensures r.extension == (if incoming.extension.Some? then incoming.extension else existing.extension)
    ensures r.meta == Some(Meta(now, NextVersion(VersionBase(existing.meta))))
  {
    Patient(
      incoming.id,
      Some(Meta(now, NextVersion(VersionBase(existing.meta)))),
      incoming.active,
      incoming.name,
      if incoming.telecom.Some? then incoming.telecom else existing.telecom,
      incoming.gender,
      incoming.birthDate,
      if incoming.address.Some? then incoming.address else existing.address,
      if incoming.identifier.Some? then incoming.identifier else existing.identifier,
      if incoming.extension.Some? then incoming.extension else existing.extension)
  }

  /** addPatient on the patient list: an unknown id is appended as given; a
      known id is merged into the first entry with that id, in place. */
  function UpsertPatient(ps: seq<Patient>, p: Patient, now: string): (r: seq<Patient>)
    ensures IndexOfId(ps, p.id) == -1 ==> r == ps + [p]
    ensures IndexOfId(ps, p.id) >= 0 ==>
      var i := IndexOfId(ps, p.id);
      && |r| == |ps|
      && r[i] == MergePatient(ps[i], p, now)
      && forall j :: 0 <= j < |ps| && j != i ==> r[j] == ps[j]
  {
    var i := IndexOfId(ps, p.id);
    if i >= 0 then ps[i := MergePatient(ps[i], p, now)] else ps + [p]
  }

  /** After an upsert the list holds exactly the ids it held, plus the new one. */
  lemma UpsertIds(ps: seq<Patient>, p: Patient, now: string)
    ensures Ids(UpsertPatient(ps, p, now)) == Ids(ps) + {p.id}
  {
    var r := UpsertPatient(ps, p, now);
    var i := IndexOfId(ps, p.id);
    if i >= 0 {
      forall x | x in Ids(ps) + {p.id} ensures x in Ids(r) {
        if x != p.id {
          var j :| 0 <= j < |ps| && ps[j].id == x;
          assert r[j] == ps[j];
        } else {
          assert r[i].id == x;
        }
      }
      forall x | x in Ids(r) ensures x in Ids(ps) + {p.id} {
        var j :| 0 <= j < |r| && r[j].id == x;
        if j != i {
          assert ps[j].id == x;
        }
      }
    } else {
      assert r[|ps|].id == p.id;
      forall x | x in Ids(r) ensures x in Ids(ps) + {p.id} {
        var j :| 0 <= j < |r| && r[j].id == x;
        if j < |ps| {
          assert ps[j].id == x;
        }
      }
      forall x | x in Ids(ps) ensures x in Ids(r) {
        var j :| 0 <= j < |ps| && ps[j].id == x;
        assert r[j] == ps[j];
      }
    }
  }

  /** Ids that are unique before an upsert are unique after it. */
  lemma UpsertKeepsUnique(ps: seq<Patient>, p: Patient, now: string)
    requires UniqueIds(ps)
    ensures UniqueIds(UpsertPatient(ps, p, now))
  {
    var r := UpsertPatient(ps, p, now);
    var i := IndexOfId(ps, p.id);
    forall a, b | 0 <= a < b < |r| ensures r[a].id != r[b].id {
      if i < 0 && b == |ps| {
        assert r[a] == ps[a];
      } else if a == i {
        assert r[b] == ps[b];
      } else if b == i {
        assert r[a] == ps[a];
      } else {
        assert r[a] == ps[a] && r[b] == ps[b];
      }
    }
  }

  /** Reading back an upserted id gives the incoming record's data: as stored
      when the id was new, merged with a refreshed meta when it was known. */
  lemma UpsertThenFind(ps: seq<Patient>, p: Patient, now: string)
    ensures var found := FindPatient(UpsertPatient(ps, p, now), p.id);
      && found.Some?
      && found.value.id == p.id && found.value.name == p.name && found.value.gender == p.gender
      && found.value.birthDate == p.birthDate && found.value.active == p.active
      && (IndexOfId(ps, p.id) == -1 ==> found.value == p)
      && (IndexOfId(ps, p.id) >= 0 ==>
            found.value == MergePatient(ps[IndexOfId(ps, p.id)], p, now))
  {
    var r := UpsertPatient(ps, p, now);
    var i := IndexOfId(ps, p.id);
    if i >= 0 {
      assert IndexOfId(r, p.id) == i by {
        assert forall j :: 0 <= j < i ==> r[j] == ps[j];
      }
    } else {
      assert IndexOfId(r, p.id) == |ps| by {
        assert forall j :: 0 <= j < |ps| ==> r[j] == ps[j];
        assert r[|ps|] == p;
      }
    }
  }

  /** An upsert changes nothing about any other id. */
  lemma UpsertOthersUnchanged(ps: seq<Patient>, p: Patient, now: string, id: string)
    requires id != p.id
    ensures FindPatient(UpsertPatient(ps, p, now), id) == FindPatient(ps, id)
  {
    var r := UpsertPatient(ps, p, now);
    var i := IndexOfId(ps, p.id);
    var k := IndexOfId(ps, id);
    assert forall j :: 0 <= j < |ps| ==> r[j].id == ps[j].id;
    if k >= 0 {
      assert IndexOfId(r, id) == k;
      assert r[k] == ps[k];
    } else {
      assert i < 0 ==> r[|ps|].id == p.id;
      assert IndexOfId(r, id) == -1;
    }
  }

  /** Upserting a known patient twice raises a numeric version by exactly two. */
  lemma UpsertTwiceVersion(ps: seq<Patient>, p: Patient, t1: string, t2: string, n: nat)
    requires IndexOfId(ps, p.id) >= 0
    requires VersionBase(ps[IndexOfId(ps, p.id)].meta) == NatToString(n)
    ensures var r := UpsertPatient(UpsertPatient(ps, p, t1), p, t2);
      r[IndexOfId(ps, p.id)].meta == Some(Meta(t2, NatToString(n + 2)))
  {
    var i := IndexOfId(ps, p.id);
    var r1 := UpsertPatient(ps, p, t1);
    NextVersionOfNumber(n);
    assert r1[i].meta == Some(Meta(t1, NatToString(n + 1)));
    assert IndexOfId(r1, p.id) == i by {
      assert forall j :: 0 <= j < i ==> r1[j] == ps[j];
    }
    NextVersionOfNumber(n + 1);
  }

  /** A version that is a plain number only ever goes up. */
  lemma VersionIncreases(ps: seq<Patient>, p: Patient, now: string)
    requires IndexOfId(ps, p.id) >= 0
    requires IsDigits(VersionBase(ps[IndexOfId(ps, p.id)].meta))
    ensures var before := VersionBase(ps[IndexOfId(ps, p.id)].meta);
      var after := UpsertPatient(ps, p, now)[IndexOfId(ps, p.id)].meta.value.versionId;
      IsDigits(after) && DigitsValue(after) == DigitsValue(before) + 1
  {
    NextVersionOfDigits(VersionBase(ps[IndexOfId(ps, p.id)].meta));
  }

  // ================================================================ queries

  /** getEncountersByPatient: the encounters whose subject reference
      contains `id` as a substring, in stored order. */
  function EncountersOf(es: seq<Encounter>, id: string): (r: seq<Encounter>)
    ensures |r| <= |es|
    ensures forall e :: e in r <==> e in es && Contains(e.subject, id)
  {
    if |es| == 0 then []
    else
      var rest := EncountersOf(es[1..], id);
      assert forall e :: e in es <==> e == es[0] || e in es[1..];
      (if Contains(es[0].subject, id) then [es[0]] else []) + rest
  }

  lemma {:induction false} EncountersOfAppend(es: seq<Encounter>, more: seq<Encounter>, id: string)
    ensures EncountersOf(es + more, id) == EncountersOf(es, id) + EncountersOf(more, id)
    decreases |es|
  {
    if |es| == 0 {
      assert es + more == more;
    } else {
      assert (es + more)[1..] == es[1..] + more;
      EncountersOfAppend(es[1..], more, id);
    }
  }

  /** getObservationsByPatient: the observations whose subject reference
      contains `id` as a substring, in stored order. */
  function ObservationsOf(os: seq<Observation>, id: string): (r: seq<Observation>)
    ensures |r| <= |os|
    ensures forall o :: o in r <==> o in os && Contains(o.subject, id)
  {
    if |os| == 0 then []
    else
      var rest := ObservationsOf(os[1..], id);
      assert forall o :: o in os <==> o == os[0] || o in os[1..];
      (if Contains(os[0].subject, id) then [os[0]] else []) + rest
  }

  lemma {:induction false} ObservationsOfAppend(os: seq<Observation>, more: seq<Observation>, id: string)
    ensures ObservationsOf(os + more, id) == ObservationsOf(os, id) + ObservationsOf(more, id)
    decreases |os|
  {
    if |os| == 0 {
      assert os + more == more;
    } else {
      assert (os + more)[1..] == os[1..] + more;
      ObservationsOfAppend(os[1..], more, id);
    }
  }

  /** A record that refers to `Patient/<id>` is always found for `id`. */
  lemma {:induction false} ReferenceContainsId(id: string)
    ensures Contains(PatientReference(id), id)
  {
    var s := PatientReference(id);
    ContainsIff(s, id);
    assert s[8..] == id;
  }

  /** The match is by substring, not by identity: the records of patient
      `p-11` are also returned for patient `p-1`. */
  lemma OverMatch(e: Encounter)
    requires e.subject == PatientReference("p-11")
    ensures e in EncountersOf([e], "p-1")
  {
    var s := PatientReference("p-11");
    ContainsIff(s, "p-1");
    assert "p-1" <= s[8..];
  }

  /** getIngestionLogs: newest first. */
  predicate NewestFirst(logs: seq<IngestionLog>)
  {
    forall i, j :: 0 <= i < j < |logs| ==> logs[i].timestamp >= logs[j].timestamp
  }

  /** Places `x` before the first entry that is not newer than it. */
  function InsertByTime(x: IngestionLog, sorted: seq<IngestionLog>): (r: seq<IngestionLog>)
    requires NewestFirst(sorted)
    ensures multiset(r) == multiset(sorted) + multiset{x}
    ensures NewestFirst(r)
  {
    if |sorted| == 0 then [x]
    else if sorted[0].timestamp <= x.timestamp then [x] + sorted
    else
      var rest := InsertByTime(x, sorted[1..]);
      NotNewerThan(rest, sorted[1..], x, sorted[0].timestamp);
      assert sorted == [sorted[0]] + sorted[1..];
      [sorted[0]] + rest
  }

  /** A permutation of entries none newer than `t` has no entry newer than `t`. */
  lemma NotNewerThan(r: seq<IngestionLog>, s: seq<IngestionLog>, x: IngestionLog, t: int)
    requires multiset(r) == multiset(s) + multiset{x}
    requires x.timestamp <= t && forall k :: 0 <= k < |s| ==> s[k].timestamp <= t
    ensures forall k :: 0 <= k < |r| ==> r[k].timestamp <= t
  {
    forall k | 0 <= k < |r| ensures r[k].timestamp <= t {
      assert r[k] in multiset(r);
      if r[k] != x {
        assert r[k] in multiset(s);
        var j :| 0 <= j < |s| && s[j] == r[k];
      }
    }
  }

  /** The stored logs ordered by timestamp, newest first: a permutation of
      the logs that is sorted. */
  function SortNewestFirst(logs: seq<IngestionLog>): (r: seq<IngestionLog>)
    ensures multiset(r) == multiset(logs)
    ensures NewestFirst(r)
  {
    if |logs| == 0 then []
    else
      assert logs == [logs[0]] + logs[1..];
      InsertByTime(logs[0], SortNewestFirst(logs[1..]))
  }

  // ================================================================ triage colours

  /** getTriageColor: the badge classes for a triage level (absent = `undefined`). */
  function TriageColor(level: Option<string>): (r: string)
    ensures level == Some("P1") ==> r == "bg-red-100 text-red-700 border-red-200"
    ensures level == Some("P2") ==> r == "bg-orange-100 text-orange-700 border-orange-200"
    ensures level == Some("P3") ==> r == "bg-yellow-100 text-yellow-700 border-yellow-200"
    ensures level == Some("P4") ==> r == "bg-blue-100 text-blue-700 border-blue-200"
    ensures level !in {Some("P1"), Some("P2"), Some("P3"), Some("P4")} ==>
      r == "bg-gray-100 text-gray-600 border-gray-200"
  {
    match level
    case Some("P1") => "bg-red-100 text-red-700 border-red-200"
    case Some("P2") => "bg-orange-100 text-orange-700 border-orange-200"
    case Some("P3") => "bg-yellow-100 text-yellow-700 border-yellow-200"
    case Some("P4") => "bg-blue-100 text-blue-700 border-blue-200"
    case _ => "bg-gray-100 text-gray-600 border-gray-200"
  }

  /** The four levels get four different colours, none of them the default. */
  lemma TriageColorsDistinct(a: string, b: string)
    requires a in {"P1", "P2", "P3", "P4"} && b in {"P1", "P2", "P3", "P4"} && a != b
    ensures TriageColor(Some(a)) != TriageColor(Some(b))
    ensures TriageColor(Some(a)) != TriageColor(None)
  {
  }

  // ================================================================ the store

  datatype StoreState = StoreState(
    patients: seq<Patient>,
    encounters: seq<Encounter>,
    observations: seq<Observation>,
    logs: seq<IngestionLog>)

  /** The four collections, updated in place by the write operations. */
  class Store {
    var patients: seq<Patient>
    var encounters: seq<Encounter>
    var observations: seq<Observation>
    var logs: seq<IngestionLog>

    function State(): StoreState
      reads this
    {
      StoreState(patients, encounters, observations, logs)
    }

    constructor (initial: StoreState)
      ensures State() == initial
    {
      patients := initial.patients;
      encounters := initial.encounters;
      observations := initial.observations;
      logs := initial.logs;
    }

    /** addPatient: `findIndex`, then an in-place merge or a `push`. */
    method AddPatient(patient: Patient, now: string)
      modifies this
      ensures patients == UpsertPatient(old(patients), patient, now)
      ensures UniqueIds(old(patients)) ==> UniqueIds(patients)
      ensures Ids(patients) == Ids(old(patients)) + {patient.id}
      ensures encounters == old(encounters) && observations == old(observations) && logs == old(logs)
    {
      UpsertIds(patients, patient, now);
      if UniqueIds(patients) {
        UpsertKeepsUnique(patients, patient, now);
      }
      var i := IndexOfId(patients, patient.id);
      if i >= 0 {
        patients := patients[i := MergePatient(patients[i], patient, now)];
      } else {
        patients := patients + [patient];
      }
    }

    /** addEncounter: appended at the end, no deduplication. */
    method AddEncounter(encounter: Encounter)
      modifies this
      ensures encounters == old(encounters) + [encounter]
      ensures patients == old(patients) && observations == old(observations) && logs == old(logs)
    {
      encounters := encounters + [encounter];
    }

    /** addObservation: appended at the end, no deduplication. */
    method AddObservation(observation: Observation)
      modifies this
      ensures observations == old(observations) + [observation]
      ensures patients == old(patients) && encounters == old(encounters) && logs == old(logs)
    {
      observations := observations + [observation];
    }

    /** addLog: appended at the end, no deduplication. */
    method AddLog(log: IngestionLog)
      modifies this
      ensures logs == old(logs) + [log]
      ensures patients == old(patients) && encounters == old(encounters) && observations == old(observations)
    {
      logs := logs + [log];
    }

    function GetPatientById(id: string): Option<Patient>
      reads this
    {
      FindPatient(patients, id)
    }

    function GetEncountersByPatient(id: string): seq<Encounter>
      reads this
    {
      EncountersOf(encounters, id)
    }

    function GetObservationsByPatient(id: string): seq<Observation>
      reads this
    {
      ObservationsOf(observations, id)
    }

    function GetIngestionLogs(): seq<IngestionLog>
      reads this
    {
      SortNewestFirst(logs)
    }
  }
}
