/** components/IngestionLog.tsx, the Google Sheets sync (lines 25-151): the
    published sheet arrives as CSV text; its header line is matched against
    keyword lists to find the form's columns; each non-blank data row becomes
    a form record that is encoded as HL7 v2, decoded to FHIR and written to
    the store, with one log entry per row and one for a failed batch. The
    fetch itself, the clock and the random draws are inputs here. */
module Ingestion {
  import opened Wrappers
  import opened JsText
  import opened Fhir
  import opened Hl7
  import opened RecordStore
  import Hl7RoundTrip

  // ================================================================ column detection

  /** `keywords.some(k => header.toLowerCase().includes(k))`. */
  predicate Mentions(header: string, keywords: seq<string>)
  {
    exists k :: 0 <= k < |keywords| && Contains(ToLower(header), keywords[k])
  }

  /** findCol: the index of the first header that mentions a keyword, or -1. */
  function FindCol(headers: seq<string>, keywords: seq<string>): (r: int)
    ensures -1 <= r < |headers|
    ensures r >= 0 ==> Mentions(headers[r], keywords)
    ensures r >= 0 ==> forall j :: 0 <= j < r ==> !Mentions(headers[j], keywords)
    ensures r == -1 <==> forall j :: 0 <= j < |headers| ==> !Mentions(headers[j], keywords)
  {
    if |headers| == 0 then -1
    else if Mentions(headers[0], keywords) then 0
    else
      var k := FindCol(headers[1..], keywords);
      assert forall j :: 1 <= j < |headers| ==> headers[1..][j - 1] == headers[j];
      if k < 0 then -1 else k + 1
  }

  /** The form fields the sync looks for. */
  datatype Column = Timestamp | Email | Name | Id | Dob | Phone | Symptoms | Triage | HeartRate | Temp

  /** The lower-case keywords that identify each column. */
  function Keywords(c: Column): seq<string>
  {
    match c
    case Timestamp => ["timestamp", "date", "time"]
    case Email => ["email", "address", "mail"]
    case Name => ["name", "patient", "full", "subject"]
    case Id => ["id", "mrn", "identifier", "record", "number"]
    case Dob => ["dob", "birth", "born"]
    case Phone => ["phone", "contact", "mobile", "cell"]
    case Symptoms => ["symptom", "reason", "complaint", "issue", "diagnosis", "problem"]
    case Triage => ["triage", "level", "priority", "p1", "p2", "status"]
    case HeartRate => ["heart", "rate", "pulse", "bpm", "hr"]
    case Temp => ["temp", "fever", "celsius", "fahrenheit"]
  }

  /** colMap: a column index (or -1) per form field. */
  datatype ColumnMap = ColumnMap(
    timestamp: int, email: int, name: int, id: int, dob: int,
    phone: int, symptoms: int, triage: int, heartRate: int, temp: int)

  function ColumnOf(m: ColumnMap, c: Column): int
  {
    match c
    case Timestamp => m.timestamp
    case Email => m.email
    case Name => m.name
    case Id => m.id
    case Dob => m.dob
    case Phone => m.phone
    case Symptoms => m.symptoms
    case Triage => m.triage
    case HeartRate => m.heartRate
    case Temp => m.temp
  }

  /** Every field is looked up on its own over the same headers. */
  function DetectColumns(headers: seq<string>): ColumnMap
  {
    ColumnMap(
      FindCol(headers, Keywords(Timestamp)), FindCol(headers, Keywords(Column.Email)),
      FindCol(headers, Keywords(Name)), FindCol(headers, Keywords(Id)),
      FindCol(headers, Keywords(Dob)), FindCol(headers, Keywords(Column.Phone)),
      FindCol(headers, Keywords(Symptoms)), FindCol(headers, Keywords(Triage)),
      FindCol(headers, Keywords(HeartRate)), FindCol(headers, Keywords(Temp)))
  }

  /** The column found for a field is the first header that mentions one of
      that field's keywords, whatever the other fields found. */
  lemma DetectedColumn(headers: seq<string>, c: Column)
    ensures var i := ColumnOf(DetectColumns(headers), c);
      && -1 <= i < |headers|
      && (i >= 0 ==> Mentions(headers[i], Keywords(c)))
      && (forall j :: 0 <= j < i ==> !Mentions(headers[j], Keywords(c)))
      && (i == -1 <==> forall j :: 0 <= j < |headers| ==> !Mentions(headers[j], Keywords(c)))
  {
    match c
    case Timestamp =>
    case Email =>
    case Name =>
    case Id =>
    case Dob =>
    case Phone =>
    case Symptoms =>
    case Triage =>
    case HeartRate =>
    case Temp =>
  }

  /** One header can resolve several fields: "Patient ID" is both the name
      column (it mentions "patient") and the id column (it mentions "id"). */
  lemma SharedHeader()
    ensures var m := DetectColumns(["Patient ID"]);
      m.name == 0 && m.id == 0
  {
    var low := ToLower("Patient ID");
    assert low == "patient id";
    ContainsAt(low, "patient", 0);
    assert Keywords(Name)[1] == "patient";
    assert Mentions("Patient ID", Keywords(Name));
    assert "id" <= low[8..];
    ContainsAt(low, "id", 8);
    assert Keywords(Id)[0] == "id";
    assert Mentions("Patient ID", Keywords(Id));
  }

  /** A first header "Timestamp" is the timestamp column, whatever follows. */
  lemma TimestampHeader(rest: seq<string>)
    ensures DetectColumns(["Timestamp"] + rest).timestamp == 0
  {
    var headers := ["Timestamp"] + rest;
    var low := ToLower("Timestamp");
    assert low == "timestamp";
    ContainsAt(low, "timestamp", 0);
    assert Keywords(Timestamp)[0] == "timestamp";
    assert headers[0] == "Timestamp";
    assert Mentions(headers[0], Keywords(Timestamp));
  }

  // ================================================================ cells

  /** `s.replace(/^"|"$/g, '')`: one leading and one trailing double quote removed. */
  function StripOuterQuotes(s: string): string
  {
    var t := if |s| > 0 && s[0] == '"' then s[1..] else s;
    if |t| > 0 && t[|t| - 1] == '"' then t[..|t| - 1] else t
  }

  /** A quoted value loses exactly its quote pair. */
  lemma StripQuoted(v: string)
    ensures StripOuterQuotes("\"" + v + "\"") == v
  {
    var s := "\"" + v + "\"";
    assert s[1..] == v + "\"";
    assert (v + "\"")[..|v|] == v;
  }

  /** A value with no quote at either end is kept as it is. */
  lemma StripUnquoted(v: string)
    requires v == "" || (v[0] != '"' && v[|v| - 1] != '"')
    ensures StripOuterQuotes(v) == v
  {
  }

  /** Header and row cells: the outer quotes removed, then trimmed. */
  function CleanCell(s: string): string
  {
    Trim(StripOuterQuotes(s))
  }

  function CleanCells(parts: seq<string>): seq<string>
  {
    seq(|parts|, i requires 0 <= i < |parts| => CleanCell(parts[i]))
  }

  /** The header line: split on every comma, quoted or not, then cleaned. */
  function HeaderCells(line: string): seq<string>
  {
    CleanCells(Split(line, ','))
  }

  /** Header splitting ignores quotes: a header line made of comma-free pieces
      yields exactly one header per piece, even when the commas sit inside
      a quoted header. */
  lemma HeadersIgnoreQuotes(pieces: seq<string>)
    requires |pieces| >= 1 && forall i :: 0 <= i < |pieces| ==> ',' !in pieces[i]
    ensures HeaderCells(Join(pieces, ",")) == CleanCells(pieces)
  {
    SplitOfJoin(pieces, ',');
  }

  // ================================================================ the row split

  /** The number of double quotes in `s`. */
  function QuoteCount(s: string): nat
  {
    if |s| == 0 then 0 else (if s[0] == '"' then 1 else 0) + QuoteCount(s[1..])
  }

  /** `s` holds an even number of double quotes: each quote flips the parity. */
  predicate EvenQuotes(s: string)
  {
    if |s| == 0 then true else (s[0] == '"') != EvenQuotes(s[1..])
  }

  /** The parity agrees with the count. */
  lemma {:induction false} EvenQuotesCount(s: string)
    ensures EvenQuotes(s) <==> QuoteCount(s) % 2 == 0
  {
    if |s| > 0 {
      EvenQuotesCount(s[1..]);
    }
  }

  /** The row-split pattern `,(?=(?:(?:[^"]*"){2})*[^"]*$)` matches the comma
      at `i` exactly when an even number of double quotes follow it. */
  predicate IsBreak(s: string, i: nat)
    requires i < |s|
  {
    s[i] == ',' && EvenQuotes(s[i + 1..])
  }

  /** The index of the first comma the row split cuts at, or -1. */
  function FirstBreak(s: string): (i: int)
    ensures -1 <= i < |s|
  {
    if |s| == 0 then -1
    else if IsBreak(s, 0) then 0
    else
      var k := FirstBreak(s[1..]);
      if k < 0 then -1 else k + 1
  }

  /** FirstBreak finds the first break, and -1 means there is none. */
  lemma {:induction false} FirstBreakFirst(s: string)
    ensures var i := FirstBreak(s);
      && (i >= 0 ==> IsBreak(s, i) && forall j :: 0 <= j < i ==> !IsBreak(s, j))
      && (i == -1 <==> forall j :: 0 <= j < |s| ==> !IsBreak(s, j))
  {
    if |s| > 0 && !IsBreak(s, 0) {
      FirstBreakFirst(s[1..]);
      BreaksShift(s);
    }
  }

  /** Dropping the first character moves every break one place left. */
  lemma BreaksShift(s: string)
    requires |s| > 0
    ensures forall j :: 1 <= j < |s| ==> (IsBreak(s[1..], j - 1) <==> IsBreak(s, j))
  {
    forall j | 1 <= j < |s| ensures IsBreak(s[1..], j - 1) <==> IsBreak(s, j) {
      assert s[1..][j..] == s[j + 1..];
    }
  }

  /** What follows cell `k` of a split row: nothing for the last cell, else
      the comma and the remaining cells. */
  function After(cells: seq<string>, k: nat): string
    requires k < |cells|
  {
    if k + 1 < |cells| then "," + Join(cells[k + 1..], ",") else ""
  }

  /** `row.split(/,(?=(?:(?:[^"]*"){2})*[^"]*$)/)`: the row cut at every
      break, left to right. */
  function SplitRow(s: string): (r: seq<string>)
    ensures |r| >= 1
    decreases |s|
  {
    var i := FirstBreak(s);
    if i < 0 then [s] else [s[..i]] + SplitRow(s[i + 1..])
  }

  /** The row is cut at exactly the commas that have an even number of
      quotes after them: the cells join back to the row, every cut comma is
      such a comma, and every comma left inside a cell has an odd number of
      quotes after it. */
  lemma {:induction false} SplitRowCuts(s: string)
    ensures var r := SplitRow(s);
      && Join(r, ",") == s
      && (forall k :: 0 <= k < |r| - 1 ==> EvenQuotes(After(r, k)))
      && (forall k, j :: 0 <= k < |r| && 0 <= j < |r[k]| && r[k][j] == ',' ==>
            !EvenQuotes(r[k][j + 1..] + After(r, k)))
    decreases |s|
  {
    var i := FirstBreak(s);
    FirstBreakFirst(s);
    if i < 0 {
      WholeRow(s);
    } else {
      SplitRowCuts(s[i + 1..]);
      SplitRowStep(s, i, SplitRow(s[i + 1..]), SplitRow(s));
    }
  }

  lemma WholeRow(s: string)
    requires forall j :: 0 <= j < |s| ==> !IsBreak(s, j)
    ensures forall k, j :: 0 <= k < |[s]| && 0 <= j < |[s][k]| && [s][k][j] == ',' ==>
      !EvenQuotes([s][k][j + 1..] + After([s], k))
  {
    forall j | 0 <= j < |s| && s[j] == ',' ensures !EvenQuotes(s[j + 1..] + After([s], 0)) {
      assert s[j + 1..] + After([s], 0) == s[j + 1..];
      assert !IsBreak(s, j);
    }
  }

  lemma SplitRowStep(s: string, i: nat, rest: seq<string>, r: seq<string>)
    requires i < |s| && IsBreak(s, i) && forall j :: 0 <= j < i ==> !IsBreak(s, j)
    requires |rest| >= 1 && Join(rest, ",") == s[i + 1..]
    requires forall k :: 0 <= k < |rest| - 1 ==> EvenQuotes(After(rest, k))
    requires forall k, j :: 0 <= k < |rest| && 0 <= j < |rest[k]| && rest[k][j] == ',' ==>
      !EvenQuotes(rest[k][j + 1..] + After(rest, k))
    requires r == [s[..i]] + rest
    ensures Join(r, ",") == s
    ensures forall k :: 0 <= k < |r| - 1 ==> EvenQuotes(After(r, k))
    ensures forall k, j :: 0 <= k < |r| && 0 <= j < |r[k]| && r[k][j] == ',' ==>
      !EvenQuotes(r[k][j + 1..] + After(r, k))
  {
    assert r[1..] == rest;
    JoinCons(s[..i], rest, ",");
    assert s == s[..i] + "," + s[i + 1..];
    forall k | 1 <= k < |r| ensures r[k] == rest[k - 1] && r[k + 1..] == rest[k..] {
    }
    forall k | 1 <= k < |r| ensures After(r, k) == After(rest, k - 1) {
    }
    assert After(r, 0) == "," + s[i + 1..];
    forall j | 0 <= j < i && s[j] == ',' ensures !EvenQuotes(r[0][j + 1..] + After(r, 0)) {
      assert !IsBreak(s, j);
      assert s[j + 1..] == s[..i][j + 1..] + "," + s[i + 1..];
      assert r[0][j + 1..] + After(r, 0) == s[j + 1..];
    }
  }

  /** The cells of a data row: split, then each cleaned. */
  function RowCells(row: string): seq<string>
  {
    CleanCells(SplitRow(row))
  }

  /** getVal: the cell at `idx`, or "" when the column was not found or the
      row has no such cell. */
  function GetVal(cells: seq<string>, idx: int): string
  {
    if 0 <= idx < |cells| then cells[idx] else ""
  }

  /** JavaScript's `a || b` on strings. */
  function OrElse(a: string, b: string): string
  {
    if a != "" then a else b
  }

  /** The form defaults for a missing name, birth date, symptoms and triage level. */
  const DefaultName := "Unknown Patient"
  const DefaultDob := "2000-01-01"
  const DefaultSymptoms := "General Update"
  const DefaultTriage := "P4"

  /** formData: the row's cells by column, with the form's defaults. */
  function ExtractForm(cells: seq<string>, m: ColumnMap, isoNow: string): FormData
  {
    FormData(
      OrElse(GetVal(cells, m.timestamp), isoNow),
      OrElse(GetVal(cells, m.name), DefaultName),
      GetVal(cells, m.email),
      GetVal(cells, m.phone),
      OrElse(GetVal(cells, m.dob), DefaultDob),
      OrElse(GetVal(cells, m.symptoms), DefaultSymptoms),
      OrElse(GetVal(cells, m.triage), DefaultTriage),
      GetVal(cells, m.heartRate),
      GetVal(cells, m.temp),
      GetVal(cells, m.id))
  }

  /** The defaults: name, birth date, symptoms and triage level are never
      empty; each is the row's cell when that cell is non-empty and the
      default otherwise; the remaining fields are the cell or "". */
  lemma FormDefaults(cells: seq<string>, m: ColumnMap, isoNow: string)
    ensures var d := ExtractForm(cells, m, isoNow);
      && d.fullName != "" && d.dob != "" && d.symptoms != "" && d.triageLevel != ""
      && (isoNow != "" ==> d.timestamp != "")
      && d.fullName == (if GetVal(cells, m.name) != "" then cells[m.name] else DefaultName)
      && d.dob == (if GetVal(cells, m.dob) != "" then cells[m.dob] else DefaultDob)
      && d.symptoms == (if GetVal(cells, m.symptoms) != "" then cells[m.symptoms] else DefaultSymptoms)
      && d.triageLevel == (if GetVal(cells, m.triage) != "" then cells[m.triage] else DefaultTriage)
      && d.timestamp == (if GetVal(cells, m.timestamp) != "" then cells[m.timestamp] else isoNow)
      && d.patientId == GetVal(cells, m.id) && d.email == GetVal(cells, m.email)
      && d.phone == GetVal(cells, m.phone) && d.heartRate == GetVal(cells, m.heartRate)
      && d.temp == GetVal(cells, m.temp)
  {
  }

  // ================================================================ the sync

  /** What `fetch` gave: the body text, a response that was not ok, or a
      thrown error with its message. */
  datatype Fetched = Body(text: string) | NotOk | NetworkError(message: string)

  /** The clock and random draws of one data row: the encoder's and the
      decoder's, the ISO time the store stamps on an update, and the
      `Date.now()` and `Math.random()` text of the log entry. */
  datatype RowClock = RowClock(enc: EncoderInputs, dec: DecoderInputs, storeIso: string,
                               logMillis: nat, logRand: string)

  const InvalidUrl := "Error: Invalid Google Sheet URL."
  const NotPublished := "Failed to fetch. Ensure Sheet is 'Published to Web' as CSV (File > Share > Publish to Web)."
  const EmptySheet := "Sheet appears empty. Please add at least one response."
  const MissingColumns := "Could not find 'Name' or 'ID' column. Detected headers: "
  const SheetsUrlMark := "google.com/spreadsheets"
  const ErrorPrefix := "Error: "
  const SyncedPrefix := "Success: Synced "
  const SyncedSuffix := " records from Sheet."
  const FailedSnippetPrefix := "Failed to fetch CSV: "

  /** Everything before the loop: the fetch outcome, the line split, the
      header cleanup, the column map and the name-or-id check. On success,
      the column map and the data rows. */
  function Prepare(fetched: Fetched): (r: Result<(ColumnMap, seq<string>), string>)
  {
    match fetched
    case NotOk => Err(NotPublished)
    case NetworkError(message) => Err(message)
    case Body(text) =>
      var rows := Split(text, '\n');
      if |rows| < 2 then Err(EmptySheet)
      else
        var headers := HeaderCells(rows[0]);
        var m := DetectColumns(headers);
        if m.name == -1 && m.id == -1 then Err(MissingColumns + Join(headers, ", "))
        else Ok((m, rows[1..]))
  }

  /** The batch is refused for its headers exactly when neither a name nor
      an id column is found, and the error lists the cleaned headers. */
  lemma SchemaCheck(text: string)
    requires |Split(text, '\n')| >= 2
    ensures var headers := HeaderCells(Split(text, '\n')[0]);
      var m := DetectColumns(headers);
      && (Prepare(Body(text)).Err? <==> m.name == -1 && m.id == -1)
      && (Prepare(Body(text)).Err? ==> Prepare(Body(text)).error == MissingColumns + Join(headers, ", "))
      && (Prepare(Body(text)).Ok? ==> Prepare(Body(text)).value == (m, Split(text, '\n')[1..]))
  {
  }

  /** A text with no line break is an empty sheet. */
  lemma NoRowsRefused(text: string)
    requires '\n' !in text
    ensures Prepare(Body(text)) == Err(EmptySheet)
  {
    var rows := Split(text, '\n');
    if |rows| >= 2 {
      JoinHasSeparator(rows, '\n');
      assert false;
    }
  }

  /** Log ids: `log-<millis>-<random>` and `log-err-<millis>`. */
  const LogIdPrefix := "log-"
  const LogIdSep := "-"
  const ErrLogIdPrefix := "log-err-"

  function SuccessLog(msg: string, patientId: string, clock: RowClock): IngestionLog
  {
    IngestionLog(LogIdPrefix + NatToString(clock.logMillis) + LogIdSep + clock.logRand, clock.logMillis,
                 GoogleForms, Success, msg, Some(PatientReference(patientId)))
  }

  function FailureLog(message: string, millis: nat): IngestionLog
  {
    IngestionLog(ErrLogIdPrefix + NatToString(millis), millis, GoogleForms, Failed,
                 FailedSnippetPrefix + message, None)
  }

  /** A row the loop skips: `row.trim()` is empty exactly when every
      character of the row is whitespace (see `Trim`). */
  predicate Blank(row: string)
  {
    AllSpace(row)
  }

  /** The message encoder and decoder the sync runs each row through. */
  datatype Codec = Codec(encode: (FormData, EncoderInputs) -> string,
                         decode: (string, DecoderInputs) -> Result<Decoded, string>)

  /** The component's codec: generateHL7v2 and parseHL7toFHIR. */
  function Hl7Codec(): Codec
  {
    Codec(GenerateHL7v2, ParseHL7toFHIR)
  }

  /** One processed row: the message it encodes to and what that decodes to. */
  function DecodeRow(codec: Codec, row: string, m: ColumnMap, clock: RowClock): (string, Result<Decoded, string>)
  {
    var msg := codec.encode(ExtractForm(RowCells(row), m, clock.enc.isoNow), clock.enc);
    (msg, codec.decode(msg, clock.dec))
  }

  /** What the loop does with one row, seen from the loop: the message and
      its decoding, for a row and its clock. */
  type RowProcessor = (string, RowClock) -> (string, Result<Decoded, string>)

  /** The component's row processing under a codec and a column map. */
  function RowProcess(codec: Codec, m: ColumnMap): (p: RowProcessor)
    ensures forall row, clock :: p(row, clock) == DecodeRow(codec, row, m, clock)
  {
    (row, clock) => DecodeRow(codec, row, m, clock)
  }

  /** Steps 3 and 4 of a row: the upsert, the encounter, the observations in
      order, and the Success log that points at the patient. */
  function ApplyRow(st: StoreState, msg: string, d: Decoded, clock: RowClock): StoreState
  {
    StoreState(
      UpsertPatient(st.patients, d.patient, clock.storeIso),
      st.encounters + [d.encounter],
      st.observations + d.observations,
      st.logs + [SuccessLog(msg, d.patient.id, clock)])
  }

  /** Where the loop stands: the store, the count, and the error that ended it, if any. */
  datatype Progress = Progress(state: StoreState, count: nat, failure: Option<string>)

  /** The loop over the data rows from row `i` on: blank rows are skipped; a
      row whose message does not decode ends the batch with its error, before
      any store write for that row; every other row is applied and counted. */
  function RunRows(process: RowProcessor, st: StoreState, rows: seq<string>, clocks: nat -> RowClock, i: nat, count: nat)
    : Progress
    decreases |rows| - i
  {
    if i >= |rows| then Progress(st, count, None)
    else if Blank(rows[i]) then RunRows(process, st, rows, clocks, i + 1, count)
    else
      var (msg, decoded) := process(rows[i], clocks(i));
      match decoded
      case Err(e) => Progress(st, count, Some(e))
      case Ok(d) => RunRows(process, ApplyRow(st, msg, d, clocks(i)), rows, clocks, i + 1, count + 1)
  }

  /** One step of the loop on a non-blank row. */
  lemma RunRowsStep(process: RowProcessor, st: StoreState, rows: seq<string>, clocks: nat -> RowClock,
                    i: nat, count: nat)
    requires i < |rows| && !Blank(rows[i])
    ensures var step := process(rows[i], clocks(i));
      RunRows(process, st, rows, clocks, i, count) ==
        if step.1.Ok? then RunRows(process, ApplyRow(st, step.0, step.1.value, clocks(i)), rows, clocks, i + 1, count + 1)
        else Progress(st, count, Some(step.1.error))
  {
  }

  /** handleSyncGoogleSheet: the new store and the status message. */
  function Sync(codec: Codec, st: StoreState, url: string, fetched: Fetched, clocks: nat -> RowClock, errMillis: nat)
    : (StoreState, string)
  {
    if !Contains(url, SheetsUrlMark) then (st, InvalidUrl)
    else SyncPrepared(codec, st, Prepare(fetched), clocks, errMillis)
  }

  /** The sync after the URL check, from the outcome of the fetch and the
      schema check: the `catch` logs a refused sheet or the first failing
      row; otherwise the rows are stored and counted. */
  function SyncPrepared(codec: Codec, st: StoreState, prep: Result<(ColumnMap, seq<string>), string>,
                        clocks: nat -> RowClock, errMillis: nat): (StoreState, string)
  {
    match prep
    case Err(e) => (st.(logs := st.logs + [FailureLog(e, errMillis)]), ErrorPrefix + e)
    case Ok((m, rows)) =>
      var p := RunRows(RowProcess(codec, m), st, rows, clocks, 0, 0);
      match p.failure
      case Some(e) => (p.state.(logs := p.state.logs + [FailureLog(e, errMillis)]), ErrorPrefix + e)
      case None => (p.state, SyncedPrefix + NatToString(p.count) + SyncedSuffix)
  }

  /** The number of non-blank rows from `i` on. */
  function NonBlankFrom(rows: seq<string>, i: nat): nat
    decreases |rows| - i
  {
    if i >= |rows| then 0 else (if Blank(rows[i]) then 0 else 1) + NonBlankFrom(rows, i + 1)
  }

  /** A batch that runs to the end counts exactly its non-blank rows. */
  lemma {:induction false} RunCounts(process: RowProcessor, st: StoreState, rows: seq<string>,
                                     clocks: nat -> RowClock, i: nat, count: nat)
    ensures var p := RunRows(process, st, rows, clocks, i, count);
      && p.count >= count
      && (p.failure.None? ==> p.count == count + NonBlankFrom(rows, i))
    decreases |rows| - i
  {
    if i < |rows| {
      if Blank(rows[i]) {
        RunCounts(process, st, rows, clocks, i + 1, count);
      } else {
        var step := process(rows[i], clocks(i));
        if step.1.Ok? {
          var st' := ApplyRow(st, step.0, step.1.value, clocks(i));
          assert RunRows(process, st, rows, clocks, i, count) == RunRows(process, st', rows, clocks, i + 1, count + 1);
          RunCounts(process, st', rows, clocks, i + 1, count + 1);
        } else {
          assert RunRows(process, st, rows, clocks, i, count) == Progress(st, count, Some(step.1.error));
        }
      }
    }
  }

  /** `b` extends `a`: the logs and encounters gained `n` entries at the end,
      the observations some, and nothing stored in `a` changed. */
  predicate GrewBy(a: StoreState, b: StoreState, n: nat)
  {
    && a.logs <= b.logs && |b.logs| == |a.logs| + n
    && a.encounters <= b.encounters && |b.encounters| == |a.encounters| + n
    && a.observations <= b.observations
  }

  lemma GrewByTrans(a: StoreState, b: StoreState, c: StoreState, n1: nat, n2: nat)
    requires GrewBy(a, b, n1) && GrewBy(b, c, n2)
    ensures GrewBy(a, c, n1 + n2)
    ensures n1 == 1 ==> GrewBy(a, c, n2 + 1)
  {
  }

  lemma ApplyRowGrows(st: StoreState, msg: string, d: Decoded, clock: RowClock)
    ensures GrewBy(st, ApplyRow(st, msg, d, clock), 1)
  {
  }

  /** What was stored before a batch stays, as a prefix, and every counted
      row adds one encounter and one log entry. */
  lemma {:induction false} RunGrows(process: RowProcessor, st: StoreState, rows: seq<string>,
                                    clocks: nat -> RowClock, i: nat, count: nat)
    ensures var p := RunRows(process, st, rows, clocks, i, count);
      p.count >= count && GrewBy(st, p.state, p.count - count)
    decreases |rows| - i, 1
  {
    if i < |rows| {
      if Blank(rows[i]) {
        RunGrows(process, st, rows, clocks, i + 1, count);
      } else {
        RunGrowsRow(process, st, rows, clocks, i, count);
      }
    }
  }

  /** RunGrows for a batch that starts at a non-blank row. */
  lemma {:induction false} RunGrowsRow(process: RowProcessor, st: StoreState, rows: seq<string>,
                                       clocks: nat -> RowClock, i: nat, count: nat)
    requires i < |rows| && !Blank(rows[i])
    ensures var p := RunRows(process, st, rows, clocks, i, count);
      p.count >= count && GrewBy(st, p.state, p.count - count)
    decreases |rows| - i, 0
  {
    RunRowsStep(process, st, rows, clocks, i, count);
    var step := process(rows[i], clocks(i));
    if step.1.Ok? {
      var st' := ApplyRow(st, step.0, step.1.value, clocks(i));
      ApplyRowGrows(st, step.0, step.1.value, clocks(i));
      RunGrows(process, st', rows, clocks, i + 1, count + 1);
      var p := RunRows(process, st', rows, clocks, i + 1, count + 1);
      GrewByTrans(st, st', p.state, 1, p.count - (count + 1));
    }
  }

  /** No patient id is lost over a batch. */
  lemma {:induction false} RunKeepsIds(process: RowProcessor, st: StoreState, rows: seq<string>,
                                       clocks: nat -> RowClock, i: nat, count: nat)
    ensures Ids(st.patients) <= Ids(RunRows(process, st, rows, clocks, i, count).state.patients)
    decreases |rows| - i
  {
    if i < |rows| {
      if Blank(rows[i]) {
        RunKeepsIds(process, st, rows, clocks, i + 1, count);
      } else {
        var (msg, decoded) := process(rows[i], clocks(i));
        if decoded.Ok? {
          var st' := ApplyRow(st, msg, decoded.value, clocks(i));
          UpsertIds(st.patients, decoded.value.patient, clocks(i).storeIso);
          RunKeepsIds(process, st', rows, clocks, i + 1, count + 1);
        }
      }
    }
  }

  /** Every Success log entry of the store points at a stored patient. */
  ghost predicate LogsResolve(st: StoreState)
  {
    forall k :: 0 <= k < |st.logs| && st.logs[k].status == Success ==> Resolves(st.logs[k], st.patients)
  }

  /** Applying a row keeps every Success entry resolvable, the new one included. */
  lemma ApplyRowResolves(st: StoreState, msg: string, d: Decoded, clock: RowClock)
    requires LogsResolve(st)
    ensures LogsResolve(ApplyRow(st, msg, d, clock))
  {
    var st' := ApplyRow(st, msg, d, clock);
    UpsertIds(st.patients, d.patient, clock.storeIso);
    forall k | 0 <= k < |st'.logs| && st'.logs[k].status == Success
      ensures Resolves(st'.logs[k], st'.patients)
    {
      if k < |st.logs| {
        ResolvesGrow(st.logs[k], st.patients, st'.patients);
      } else {
        assert st'.logs[k].patientReference == Some(PatientReference(d.patient.id));
        assert d.patient.id in Ids(st'.patients);
      }
    }
  }

  /** Every Success entry points at a patient the store holds at the end of
      the batch (that the rows add only Success entries is RunAddsOnlySuccess). */
  lemma {:induction false} RunLogsResolve(process: RowProcessor, st: StoreState, rows: seq<string>,
                                          clocks: nat -> RowClock, i: nat, count: nat)
    requires LogsResolve(st)
    ensures LogsResolve(RunRows(process, st, rows, clocks, i, count).state)
    decreases |rows| - i
  {
    if i < |rows| {
      if Blank(rows[i]) {
        RunLogsResolve(process, st, rows, clocks, i + 1, count);
      } else {
        var (msg, decoded) := process(rows[i], clocks(i));
        if decoded.Ok? {
          ApplyRowResolves(st, msg, decoded.value, clocks(i));
          RunLogsResolve(process, ApplyRow(st, msg, decoded.value, clocks(i)), rows, clocks, i + 1, count + 1);
        }
      }
    }
  }

  /** A log entry points at a stored patient. */
  ghost predicate Resolves(log: IngestionLog, ps: seq<Patient>)
  {
    exists id :: id in Ids(ps) && log.patientReference == Some(PatientReference(id))
  }

  lemma ResolvesGrow(log: IngestionLog, ps: seq<Patient>, qs: seq<Patient>)
    requires Resolves(log, ps) && Ids(ps) <= Ids(qs)
    ensures Resolves(log, qs)
  {
  }

  /** Blank rows do nothing: a batch of blank rows leaves the store as it was
      and counts nothing. */
  lemma {:induction false} BlankRowsIgnored(process: RowProcessor, st: StoreState, rows: seq<string>, clocks: nat -> RowClock,
                                            i: nat, count: nat)
    requires forall k :: i <= k < |rows| ==> Blank(rows[k])
    ensures RunRows(process, st, rows, clocks, i, count) == Progress(st, count, None)
    decreases |rows| - i
  {
    if i < |rows| {
      BlankRowsIgnored(process, st, rows, clocks, i + 1, count);
    }
  }

  /** A batch that fails ends with a Failed log after what the rows before
      the failure wrote, and reports the error (SyncFailsOnce shows it is the
      only Failed entry the sync adds). */
  lemma FailureLoggedOnce(codec: Codec, st: StoreState, url: string, fetched: Fetched, clocks: nat -> RowClock, errMillis: nat)
    requires Contains(url, SheetsUrlMark)
    ensures var (st', status) := Sync(codec, st, url, fetched, clocks, errMillis);
      var prep := Prepare(fetched);
      && (prep.Err? ==> st' == st.(logs := st.logs + [FailureLog(prep.error, errMillis)])
                        && status == ErrorPrefix + prep.error)
      && (prep.Ok? ==>
            var p := RunRows(RowProcess(codec, prep.value.0), st, prep.value.1, clocks, 0, 0);
            (p.failure.Some? ==> st'.logs == p.state.logs + [FailureLog(p.failure.value, errMillis)]
                                 && st'.logs[|st'.logs| - 1].status == Failed
                                 && status == ErrorPrefix + p.failure.value))
  {
    var (st', status) := Sync(codec, st, url, fetched, clocks, errMillis);
    match Prepare(fetched)
    case Err(e) =>
      assert st' == st.(logs := st.logs + [FailureLog(e, errMillis)]);
    case Ok((m, rows)) =>
      var p := RunRows(RowProcess(codec, m), st, rows, clocks, 0, 0);
      match p.failure
      case Some(e) =>
        assert st'.logs == p.state.logs + [FailureLog(e, errMillis)];
      case None =>
  }

  /** Patient ids stay unique through a whole sync. */
  lemma {:induction false} RunKeepsUnique(process: RowProcessor, st: StoreState, rows: seq<string>, clocks: nat -> RowClock,
                                          i: nat, count: nat)
    requires UniqueIds(st.patients)
    ensures UniqueIds(RunRows(process, st, rows, clocks, i, count).state.patients)
    decreases |rows| - i
  {
    if i < |rows| {
      if Blank(rows[i]) {
        RunKeepsUnique(process, st, rows, clocks, i + 1, count);
      } else {
        var (msg, decoded) := process(rows[i], clocks(i));
        if decoded.Ok? {
          UpsertKeepsUnique(st.patients, decoded.value.patient, clocks(i).storeIso);
          RunKeepsUnique(process, ApplyRow(st, msg, decoded.value, clocks(i)), rows, clocks, i + 1, count + 1);
        }
      }
    }
  }

  // ================================================================ log statuses

  /** The logs of `b` extend those of `a` with Success entries only. */
  predicate AddsOnlySuccess(a: StoreState, b: StoreState)
  {
    a.logs <= b.logs && forall k :: |a.logs| <= k < |b.logs| ==> b.logs[k].status == Success
  }

  /** The rows of a batch write Success entries and nothing else to the log;
      the Failed entry of a failing batch is written after the loop. */
  lemma {:induction false} RunAddsOnlySuccess(process: RowProcessor, st: StoreState, rows: seq<string>,
                                             clocks: nat -> RowClock, i: nat, count: nat)
    ensures AddsOnlySuccess(st, RunRows(process, st, rows, clocks, i, count).state)
    decreases |rows| - i
  {
    if i < |rows| {
      if Blank(rows[i]) {
        RunAddsOnlySuccess(process, st, rows, clocks, i + 1, count);
      } else {
        var (msg, decoded) := process(rows[i], clocks(i));
        if decoded.Ok? {
          var st' := ApplyRow(st, msg, decoded.value, clocks(i));
          RunAddsOnlySuccess(process, st', rows, clocks, i + 1, count + 1);
          var p := RunRows(process, st', rows, clocks, i + 1, count + 1);
          assert st'.logs == st.logs + [SuccessLog(msg, decoded.value.patient.id, clocks(i))];
          forall k | |st.logs| <= k < |p.state.logs|
            ensures p.state.logs[k].status == Success
          {
            if k == |st.logs| {
              assert p.state.logs[k] == st'.logs[k];
            }
          }
        }
      }
    }
  }

  /** The number of Failed entries in a log. */
  function FailedCount(logs: seq<IngestionLog>): nat
  {
    if |logs| == 0 then 0
    else FailedCount(logs[..|logs| - 1]) + (if logs[|logs| - 1].status == Failed then 1 else 0)
  }

  /** Appending Success entries adds no Failed entry. */
  lemma {:induction false} SuccessesAddNoFailure(a: seq<IngestionLog>, b: seq<IngestionLog>)
    requires a <= b && forall k :: |a| <= k < |b| ==> b[k].status == Success
    ensures FailedCount(b) == FailedCount(a)
    decreases |b|
  {
    if |b| > |a| {
      var b' := b[..|b| - 1];
      assert a <= b';
      SuccessesAddNoFailure(a, b');
    } else {
      assert a == b;
    }
  }

  /** How a sync past the URL check leaves the log: the earlier log is kept
      as a prefix; a failed sync adds exactly one Failed entry, the last one,
      and a successful sync adds none; every other new entry is a Success. */
  predicate LogsAfterSync(before: seq<IngestionLog>, after: seq<IngestionLog>, failed: bool)
  {
    && before <= after
    && (failed ==>
          && |after| > |before|
          && FailedCount(after) == FailedCount(before) + 1
          && after[|after| - 1].status == Failed
          && forall k :: |before| <= k < |after| - 1 ==> after[k].status == Success)
    && (!failed ==>
          && FailedCount(after) == FailedCount(before)
          && forall k :: |before| <= k < |after| ==> after[k].status == Success)
  }

  /** A sync refused for its URL changes nothing; past the URL check, the
      log grows as LogsAfterSync says, failed meaning an error status. */
  lemma SyncFailsOnce(codec: Codec, st: StoreState, url: string, fetched: Fetched, clocks: nat -> RowClock,
                      errMillis: nat)
    ensures var (st', status) := Sync(codec, st, url, fetched, clocks, errMillis);
      && (!Contains(url, SheetsUrlMark) ==> st' == st && status == InvalidUrl)
      && (Contains(url, SheetsUrlMark) ==> LogsAfterSync(st.logs, st'.logs, ErrorPrefix <= status))
  {
    if Contains(url, SheetsUrlMark) {
      var prep := Prepare(fetched);
      assert Sync(codec, st, url, fetched, clocks, errMillis) == SyncPrepared(codec, st, prep, clocks, errMillis);
      PreparedFailsOnce(codec, st, prep, clocks, errMillis);
    }
  }

  /** SyncFailsOnce past the URL check, for any outcome of the preparation. */
  lemma PreparedFailsOnce(codec: Codec, st: StoreState, prep: Result<(ColumnMap, seq<string>), string>,
                          clocks: nat -> RowClock, errMillis: nat)
    ensures var (st', status) := SyncPrepared(codec, st, prep, clocks, errMillis);
      LogsAfterSync(st.logs, st'.logs, ErrorPrefix <= status)
  {
    var (st', status) := SyncPrepared(codec, st, prep, clocks, errMillis);
    match prep
    case Err(e) =>
      assert st'.logs == st.logs + [FailureLog(e, errMillis)];
      assert st'.logs[..|st'.logs| - 1] == st.logs;
    case Ok((m, rows)) =>
      var p := RunRows(RowProcess(codec, m), st, rows, clocks, 0, 0);
      RunAddsOnlySuccess(RowProcess(codec, m), st, rows, clocks, 0, 0);
      SuccessesAddNoFailure(st.logs, p.state.logs);
      match p.failure
      case Some(e) =>
        assert st'.logs == p.state.logs + [FailureLog(e, errMillis)];
        assert st'.logs[..|st'.logs| - 1] == p.state.logs;
      case None =>
        assert status == SyncedPrefix + NatToString(p.count) + SyncedSuffix;
        assert status[0] != ErrorPrefix[0];
  }

  // ================================================================ references

  /** A record's subject resolves when it is `Patient/<id>` of a stored patient. */
  ghost predicate SubjectResolves(subject: string, ps: seq<Patient>)
  {
    exists id :: id in Ids(ps) && subject == PatientReference(id)
  }

  /** Every stored encounter and observation points at a stored patient. */
  ghost predicate RecordsResolve(st: StoreState)
  {
    && (forall k :: 0 <= k < |st.encounters| ==> SubjectResolves(st.encounters[k].subject, st.patients))
    && (forall k :: 0 <= k < |st.observations| ==> SubjectResolves(st.observations[k].subject, st.patients))
  }

  /** A decoded row whose encounter and observations point at its own patient. */
  predicate SelfReferencing(d: Decoded)
  {
    && d.encounter.subject == PatientReference(d.patient.id)
    && forall i :: 0 <= i < |d.observations| ==> d.observations[i].subject == PatientReference(d.patient.id)
  }

  /** A row processor whose every successful decoding is self-referencing. */
  ghost predicate PointsAtOwnPatient(process: RowProcessor)
  {
    forall row, clock :: process(row, clock).1.Ok? ==> SelfReferencing(process(row, clock).1.value)
  }

  /** The component's processing decodes every row into records that point
      at the row's own patient. */
  lemma Hl7RowsPointAtOwnPatient(m: ColumnMap)
    ensures PointsAtOwnPatient(RowProcess(Hl7Codec(), m))
  {
    forall row, clock | RowProcess(Hl7Codec(), m)(row, clock).1.Ok?
      ensures SelfReferencing(RowProcess(Hl7Codec(), m)(row, clock).1.value)
    {
      var msg := GenerateHL7v2(ExtractForm(RowCells(row), m, clock.enc.isoNow), clock.enc);
      assert RowProcess(Hl7Codec(), m)(row, clock) == (msg, ParseHL7toFHIR(msg, clock.dec));
    }
  }

  /** A subject that resolves keeps resolving as patients are added. */
  lemma SubjectResolvesGrow(subject: string, ps: seq<Patient>, qs: seq<Patient>)
    requires SubjectResolves(subject, ps) && Ids(ps) <= Ids(qs)
    ensures SubjectResolves(subject, qs)
  {
  }

  /** Applying a self-referencing row keeps every record resolvable, the new
      encounter and observations included: they point at the patient the row
      has just upserted. */
  lemma ApplyRowRecordsResolve(st: StoreState, msg: string, d: Decoded, clock: RowClock)
    requires RecordsResolve(st) && SelfReferencing(d)
    ensures RecordsResolve(ApplyRow(st, msg, d, clock))
  {
    var st' := ApplyRow(st, msg, d, clock);
    UpsertIds(st.patients, d.patient, clock.storeIso);
    assert d.patient.id in Ids(st'.patients);
    forall k | 0 <= k < |st'.encounters|
      ensures SubjectResolves(st'.encounters[k].subject, st'.patients)
    {
      if k < |st.encounters| {
        SubjectResolvesGrow(st.encounters[k].subject, st.patients, st'.patients);
      }
    }
    forall k | 0 <= k < |st'.observations|
      ensures SubjectResolves(st'.observations[k].subject, st'.patients)
    {
      if k < |st.observations| {
        SubjectResolvesGrow(st.observations[k].subject, st.patients, st'.patients);
      } else {
        assert st'.observations[k] == d.observations[k - |st.observations|];
      }
    }
  }

  /** Every encounter and observation a batch stores points at a patient that
      was stored before or upserted earlier in the batch. */
  lemma {:induction false} RunRecordsResolve(process: RowProcessor, st: StoreState, rows: seq<string>,
                                            clocks: nat -> RowClock, i: nat, count: nat)
    requires PointsAtOwnPatient(process) && RecordsResolve(st)
    ensures RecordsResolve(RunRows(process, st, rows, clocks, i, count).state)
    decreases |rows| - i
  {
    if i < |rows| {
      if Blank(rows[i]) {
        RunRecordsResolve(process, st, rows, clocks, i + 1, count);
      } else {
        var (msg, decoded) := process(rows[i], clocks(i));
        if decoded.Ok? {
          assert SelfReferencing(decoded.value);
          ApplyRowRecordsResolve(st, msg, decoded.value, clocks(i));
          RunRecordsResolve(process, ApplyRow(st, msg, decoded.value, clocks(i)), rows, clocks, i + 1, count + 1);
        }
      }
    }
  }

  /** A codec whose decodings point at their own patient, whatever the columns. */
  ghost predicate SelfReferencingCodec(codec: Codec)
  {
    forall m :: PointsAtOwnPatient(RowProcess(codec, m))
  }

  /** generateHL7v2 and parseHL7toFHIR form such a codec. */
  lemma Hl7CodecSelfReferencing()
    ensures SelfReferencingCodec(Hl7Codec())
  {
    forall m {
      Hl7RowsPointAtOwnPatient(m);
    }
  }

  /** A whole sync keeps every encounter, observation and Success log
      pointing at a stored patient. */
  lemma SyncResolves(codec: Codec, st: StoreState, url: string, fetched: Fetched, clocks: nat -> RowClock,
                     errMillis: nat)
    requires SelfReferencingCodec(codec)
    requires RecordsResolve(st) && LogsResolve(st)
    ensures var st' := Sync(codec, st, url, fetched, clocks, errMillis).0;
      RecordsResolve(st') && LogsResolve(st')
  {
    if Contains(url, SheetsUrlMark) {
      match Prepare(fetched)
      case Err(e) =>
        FailureLogResolves(st, e, errMillis);
      case Ok((m, rows)) =>
        var process := RowProcess(codec, m);
        assert PointsAtOwnPatient(process);
        RunRecordsResolve(process, st, rows, clocks, 0, 0);
        RunLogsResolve(process, st, rows, clocks, 0, 0);
        var p := RunRows(process, st, rows, clocks, 0, 0);
        if p.failure.Some? {
          FailureLogResolves(p.state, p.failure.value, errMillis);
        }
    }
  }

  /** The Failed entry of the `catch` changes no record and resolves nothing. */
  lemma FailureLogResolves(st: StoreState, e: string, errMillis: nat)
    requires RecordsResolve(st) && LogsResolve(st)
    ensures var st' := st.(logs := st.logs + [FailureLog(e, errMillis)]);
      RecordsResolve(st') && LogsResolve(st')
  {
    var st' := st.(logs := st.logs + [FailureLog(e, errMillis)]);
    assert forall k :: 0 <= k < |st.logs| ==> st'.logs[k] == st.logs[k];
  }

  /** The same for the component's own codec. */
  lemma Hl7SyncResolves(st: StoreState, url: string, fetched: Fetched, clocks: nat -> RowClock, errMillis: nat)
    requires RecordsResolve(st) && LogsResolve(st)
    ensures var st' := Sync(Hl7Codec(), st, url, fetched, clocks, errMillis).0;
      RecordsResolve(st') && LogsResolve(st')
  {
    Hl7CodecSelfReferencing();
    SyncResolves(Hl7Codec(), st, url, fetched, clocks, errMillis);
  }

  // ================================================================ well-formed batches

  /** A character missing from a text is missing from each of its slices. */
  lemma SliceChars(s: string, i: nat, j: nat, c: char)
    requires i <= j <= |s| && c !in s
    ensures c !in s[i..j]
  {
  }

  /** Removing the outer quotes adds no character. */
  lemma StripChars(s: string, c: char)
    requires c !in s
    ensures c !in StripOuterQuotes(s)
  {
    var t := if |s| > 0 && s[0] == '"' then s[1..] else s;
    if |s| > 0 && s[0] == '"' {
      SliceChars(s, 1, |s|, c);
    }
    if |t| > 0 && t[|t| - 1] == '"' {
      SliceChars(t, 0, |t| - 1, c);
    }
  }

  /** Trimming adds no character. */
  lemma TrimChars(s: string, c: char)
    requires c !in s
    ensures c !in Trim(s)
  {
    var a := LeadingSpaces(s);
    var r := Trim(s);
    TrimShape(s, a, r);
    SliceChars(s, a, a + |r|, c);
  }

  /** Cleaning a cell adds no character. */
  lemma CleanCellChars(s: string, c: char)
    requires c !in s
    ensures c !in CleanCell(s)
  {
    StripChars(s, c);
    TrimChars(StripOuterQuotes(s), c);
  }

  /** A character missing from a row is missing from each of its cells. */
  lemma RowCellsChars(row: string, c: char, k: nat)
    requires c !in row && k < |RowCells(row)|
    ensures c !in RowCells(row)[k]
  {
    var parts := SplitRow(row);
    SplitRowCuts(row);
    if c in parts[k] {
      InJoin(parts, ",", k, c);
    }
    CleanCellChars(parts[k], c);
  }

  /** The form field read from column `idx`, or its default. */
  lemma FieldChars(cells: seq<string>, idx: int, default: string, c: char)
    requires forall k :: 0 <= k < |cells| ==> c !in cells[k]
    requires c !in default
    ensures c !in OrElse(GetVal(cells, idx), default)
  {
  }

  /** The form of a row whose cells are free of `|` and carriage returns is
      safe to encode. */
  lemma WireSafeForm(cells: seq<string>, m: ColumnMap, enc: EncoderInputs)
    requires forall k :: 0 <= k < |cells| ==> Hl7RoundTrip.NoDelimiters(cells[k])
    requires Hl7RoundTrip.NoDelimiters(enc.isoNow)
    ensures Hl7RoundTrip.WireSafe(ExtractForm(cells, m, enc.isoNow), enc)
  {
    var data := ExtractForm(cells, m, enc.isoNow);
    forall c | c == FieldSep || c == SegmentSep
      ensures c !in data.fullName && c !in data.email && c !in data.phone && c !in data.dob
      ensures c !in data.symptoms && c !in data.triageLevel && c !in data.heartRate
      ensures c !in data.temp && c !in data.patientId
    {
      FieldChars(cells, m.name, DefaultName, c);
      FieldChars(cells, m.email, "", c);
      FieldChars(cells, m.phone, "", c);
      FieldChars(cells, m.dob, DefaultDob, c);
      FieldChars(cells, m.symptoms, DefaultSymptoms, c);
      FieldChars(cells, m.triage, DefaultTriage, c);
      FieldChars(cells, m.heartRate, "", c);
      FieldChars(cells, m.temp, "", c);
      FieldChars(cells, m.id, "", c);
    }
  }

  /** A row with no `|` and no carriage return, encoded with a clock of the
      same kind, always decodes. */
  lemma WireSafeRowDecodes(row: string, m: ColumnMap, clock: RowClock)
    requires Hl7RoundTrip.NoDelimiters(row) && Hl7RoundTrip.NoDelimiters(clock.enc.isoNow)
    ensures DecodeRow(Hl7Codec(), row, m, clock).1.Ok?
  {
    var cells := RowCells(row);
    forall k | 0 <= k < |cells| ensures Hl7RoundTrip.NoDelimiters(cells[k]) {
      RowCellsChars(row, FieldSep, k);
      RowCellsChars(row, SegmentSep, k);
    }
    WireSafeForm(cells, m, clock.enc);
    Hl7RoundTrip.WireSafeDecodes(ExtractForm(cells, m, clock.enc.isoNow), clock.enc, clock.dec);
  }

  /** A batch of such rows never fails. */
  lemma {:induction false} WireSafeRunSucceeds(m: ColumnMap, st: StoreState, rows: seq<string>,
                                              clocks: nat -> RowClock, i: nat, count: nat)
    requires forall k :: 0 <= k < |rows| ==> Hl7RoundTrip.NoDelimiters(rows[k])
    requires forall k: nat :: Hl7RoundTrip.NoDelimiters(clocks(k).enc.isoNow)
    ensures RunRows(RowProcess(Hl7Codec(), m), st, rows, clocks, i, count).failure.None?
    decreases |rows| - i
  {
    var process := RowProcess(Hl7Codec(), m);
    if i < |rows| {
      if Blank(rows[i]) {
        WireSafeRunSucceeds(m, st, rows, clocks, i + 1, count);
      } else {
        WireSafeRowDecodes(rows[i], m, clocks(i));
        var step := process(rows[i], clocks(i));
        assert step.1.Ok?;
        RunRowsStep(process, st, rows, clocks, i, count);
        WireSafeRunSucceeds(m, ApplyRow(st, step.0, step.1.value, clocks(i)), rows, clocks, i + 1, count + 1);
      }
    }
  }

  /** With the component's codec, a batch of rows free of `|` and carriage
      returns stores every non-blank row: the count is the number of
      non-blank rows, and each of them adds one encounter and one Success log. */
  lemma WireSafeBatch(m: ColumnMap, st: StoreState, rows: seq<string>, clocks: nat -> RowClock)
    requires forall k :: 0 <= k < |rows| ==> Hl7RoundTrip.NoDelimiters(rows[k])
    requires forall k: nat :: Hl7RoundTrip.NoDelimiters(clocks(k).enc.isoNow)
    ensures var p := RunRows(RowProcess(Hl7Codec(), m), st, rows, clocks, 0, 0);
      && p.failure.None?
      && p.count == NonBlankFrom(rows, 0)
      && |p.state.logs| == |st.logs| + p.count
      && |p.state.encounters| == |st.encounters| + p.count
      && forall k :: |st.logs| <= k < |p.state.logs| ==> p.state.logs[k].status == Success
  {
    var process := RowProcess(Hl7Codec(), m);
    WireSafeRunSucceeds(m, st, rows, clocks, 0, 0);
    RunCounts(process, st, rows, clocks, 0, 0);
    RunGrows(process, st, rows, clocks, 0, 0);
    RunAddsOnlySuccess(process, st, rows, clocks, 0, 0);
  }

  /** The `for` loop of addObservation over a row's observations, in order. */
  method AddObservations(store: Store, obs: seq<Observation>)
    modifies store
    ensures store.observations == old(store.observations) + obs
    ensures store.patients == old(store.patients) && store.encounters == old(store.encounters)
    ensures store.logs == old(store.logs)
  {
    var k := 0;
    while k < |obs|
      invariant 0 <= k <= |obs|
      invariant store.observations == old(store.observations) + obs[..k]
      invariant store.patients == old(store.patients) && store.encounters == old(store.encounters)
      invariant store.logs == old(store.logs)
    {
      store.AddObservation(obs[k]);
      assert obs[..k + 1] == obs[..k] + [obs[k]];
      k := k + 1;
    }
    assert obs[..k] == obs;
  }

  /** Steps 3 and 4 of the loop body on the store object: addPatient,
      addEncounter, the observations, and addLog. */
  method IngestRow(store: Store, msg: string, d: Decoded, clock: RowClock)
    modifies store
    ensures store.State() == ApplyRow(old(store.State()), msg, d, clock)
  {
    store.AddPatient(d.patient, clock.storeIso);
    store.AddEncounter(d.encounter);
    AddObservations(store, d.observations);
    store.AddLog(SuccessLog(msg, d.patient.id, clock));
  }

  /** The `for` loop over the data rows, with `continue` on a blank row,
      `count++` after each stored row, and the first decode error ending
      the loop. */
  method SyncRows(store: Store, codec: Codec, rows: seq<string>, m: ColumnMap, clocks: nat -> RowClock)
    returns (count: nat, failure: Option<string>)
    modifies store
    ensures Progress(store.State(), count, failure) == RunRows(RowProcess(codec, m), old(store.State()), rows, clocks, 0, 0)
  {
    ghost var start := store.State();
    count := 0;
    failure := None;
    var i := 0;
    while i < |rows| && failure.None?
      invariant 0 <= i <= |rows|
      invariant failure.None? ==>
        RunRows(RowProcess(codec, m), store.State(), rows, clocks, i, count) == RunRows(RowProcess(codec, m), start, rows, clocks, 0, 0)
      invariant failure.Some? ==>
        Progress(store.State(), count, failure) == RunRows(RowProcess(codec, m), start, rows, clocks, 0, 0)
      decreases |rows| - i, if failure.None? then 1 else 0
    {
      var row := rows[i];
      TrimSpec(row);
      if Trim(row) == "" {
        i := i + 1;
        continue;
      }
      var clock := clocks(i);
      var msg := codec.encode(ExtractForm(RowCells(row), m, clock.enc.isoNow), clock.enc);
      var decoded := codec.decode(msg, clock.dec);
      assert RowProcess(codec, m)(row, clock) == (msg, decoded);
      if decoded.Err? {
        failure := Some(decoded.error);
      } else {
        IngestRow(store, msg, decoded.value, clock);
        count := count + 1;
        i := i + 1;
      }
    }
  }

  /** handleSyncGoogleSheet on the store object: the URL check, the fetch
      and header checks, the row loop, and the single Failed log of the
      `catch`. */
  method SyncSheet(store: Store, codec: Codec, url: string, fetched: Fetched, clocks: nat -> RowClock, errMillis: nat)
    returns (status: string)
    modifies store
    ensures (store.State(), status) == Sync(codec, old(store.State()), url, fetched, clocks, errMillis)
  {
    if !Contains(url, SheetsUrlMark) {
      return InvalidUrl;
    }
    var prep := Prepare(fetched);
    if prep.Err? {
      store.AddLog(FailureLog(prep.error, errMillis));
      return ErrorPrefix + prep.error;
    }
    var (m, rows) := prep.value;
    var count, failure := SyncRows(store, codec, rows, m, clocks);
    if failure.Some? {
      store.AddLog(FailureLog(failure.value, errMillis));
      status := ErrorPrefix + failure.value;
    } else {
      status := SyncedPrefix + NatToString(count) + SyncedSuffix;
    }
  }
}
