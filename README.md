# Form-to-FHIR ingestion core, modelled in Dafny

This project models the data path of a small clinical intake portal. Rows of a
published Google Forms spreadsheet arrive as CSV text. Each row becomes an HL7
v2 ADT^A01-style message, and that message is decoded again into a FHIR-like
Patient, one Encounter and zero to two Observations. These records are written
to an in-memory record store, and every batch leaves ingestion log entries.

The modules follow the repository's files:

- `Wrappers` (wrappers.dfy): `Option` and `Result`.
- `Fhir` (fhir.dfy): the records of `types.ts` (Patient, Encounter, Observation,
  IngestionLog and their parts). It leaves out `Encounter.type`,
  `Observation.category` and `Observation.component`, which the core never
  sets or reads.
- `JsText` (jstext.dfy): the JavaScript string operations the source relies on.
  - `split`/`join`, `trim`, ASCII `toLowerCase`, `includes`, `slice` and
    `replace`;
  - decimal printing;
  - the `Number()`/`isNaN` recogniser of numeric strings.
- `Hl7` (hl7.dfy): `generateHL7v2` and `parseHL7toFHIR`, as pure functions.
  - The clock and the random draws are explicit inputs (`EncoderInputs`,
    `DecoderInputs`).
- `Hl7RoundTrip` (hl7_roundtrip.dfy): which fields survive encoding followed by
  decoding, and which do not.
- `RecordStore` (store.dfy): the store.
  - A `Store` class holds the four collections as `seq` fields. It has the
    write methods `AddPatient`, `AddEncounter`, `AddObservation` and `AddLog`.
  - The pure functions beside it specify the class: upsert, lookups, the log
    sort and the triage colour.
- `Ingestion` (ingestion.dfy): the `handleSyncGoogleSheet` logic of
  `components/IngestionLog.tsx`.
  - Keyword column detection, header cleanup and the quote-aware row split.
  - `formData` defaults, and the name-or-id check.
  - The per-row loop, both as the method `SyncSheet`/`SyncRows` on a `Store`
    and as the function `Sync` that specifies it.

A JavaScript `undefined` read by the decoder is modelled as `""`. This covers
the given name, a coding display and a unit. Absent optional form fields are
also `""`, which matches the truthiness tests in the source.

The model follows these behaviours of the source:

- A row whose message fails to decode throws inside the `try`. That ends the
  whole batch with one Failed log. It does not skip the row and go on.
- A first header "Timestamp" always resolves to the timestamp column, because "timestamp" is one of its keywords.
- One header may resolve several fields: "Patient ID" is both the name and the id column.

## Model

| member | source | states |
|---|---|---|
| JsText.Split | utils/hl7Generator.ts:49 | the pieces of `split` join back to the input and contain no separator |
| JsText.SplitOfJoin | utils/hl7Generator.ts:58 | splitting a join of separator-free pieces gives the pieces back, as when PID-5 written with `^` at line 33 is split again |
| JsText.TrimSpec | components/IngestionLog.tsx:65 | `trim` removes exactly the leading and trailing whitespace: empty iff the text is all whitespace, else no whitespace at either end, and the rest is a contiguous slice of the input |
| JsText.ContainsIff | services/store.ts:56 | `includes` holds iff the needle occurs at some position |
| JsText.NatToStringValue | services/store.ts:88 | the decimal text of n reads back as n |
| JsText.DigitsAreNumeric | utils/hl7Generator.ts:68 | a non-empty digit string is a number to `Number()` |
| JsText.NonNumericStart | utils/hl7Generator.ts:68 | a string whose trimmed text starts with anything but a digit, sign, dot or `I` is not a number to `Number()` |
| Hl7.Hl7Timestamp | utils/hl7Generator.ts:19 | the HL7 timestamp is the first min(14, n) characters of the ISO clock with every `-`, `:`, `T`, `.` removed (n the length of that text) |
| Hl7.IsoTimestamp | utils/hl7Generator.ts:19 | for an instant `YYYY-MM-DDTHH:MM:SS.mmmZ` the timestamp is exactly `YYYYMMDDHHMMSS` |
| Hl7.DropEmpty | utils/hl7Generator.ts:43 | `filter(Boolean)` keeps no empty line and keeps a list with no empty line as it is |
| Hl7.DropEmptyKeeps | utils/hl7Generator.ts:43 | a line is kept iff it occurs in the input and is not empty |
| Hl7.DropEmptyAppend | utils/hl7Generator.ts:43 | filtering a concatenation concatenates the filtered parts, so the order of lines is kept |
| Hl7.TagIndex | utils/hl7Generator.ts:51-52 | `find` by tag gives the first segment with that tag, or none when no segment has it |
| Hl7.SegmentsTagged | utils/hl7Generator.ts:53 | `filter` by tag keeps exactly the segments with that tag |
| Hl7.SegmentsTaggedAppend | utils/hl7Generator.ts:53 | filtering a concatenation is the concatenation of the filtered parts, so order is kept |
| Hl7.CanonicalId | utils/hl7Generator.ts:66-68 | the id is kept if it starts with `p-` or is not numeric, otherwise `p-` is prefixed, both directions |
| Hl7.CanonicalIdIdempotent | utils/hl7Generator.ts:68 | canonicalising twice equals canonicalising once (no double prefix) |
| Hl7.NumericIdPrefixed | utils/hl7Generator.ts:68 | a plain digit id is always prefixed with `p-` |
| Hl7.BirthDate | utils/hl7Generator.ts:61 | an empty PID-7 gives 1990-01-01; any other PID-7 is sliced at 0-4, 4-6 and 6-8 and joined with hyphens, giving min(8, n) + 2 characters, and an 8-character one is exactly re-hyphenated at 4 and 6 |
| Hl7.ShortBirthDate | utils/hl7Generator.ts:61 | a PID-7 of 1 to 4 characters, such as `1990`, gives itself followed by `--` |
| Hl7.GenderOf | utils/hl7Generator.ts:75 | male iff PID-8 is exactly `M`, otherwise female |
| Hl7.ParseObservations | utils/hl7Generator.ts:95-111 | one Observation per OBX, in order, with the LOINC code, display, value and unit read from OBX-3, -5 and -6; an OBX without field 3 raises the `undefined.split` error |
| Hl7.ParseHL7toFHIR | utils/hl7Generator.ts:48-114 | no PID gives "Missing PID segment"; success iff a PID with field 5 exists and every OBX has field 3; the encounter and every observation point at `Patient/<id>` |
| Hl7RoundTrip.EncodedSegments | utils/hl7Generator.ts:30-43 | a message with no separator characters in its data splits back into exactly the encoder's field lists |
| Hl7RoundTrip.LineLayout | utils/hl7Generator.ts:30-43 | the lines are MSH, PID, PV1, then 0-2 OBX lines (heart rate first), then DG1, and none is empty |
| Hl7RoundTrip.MessageLayout | utils/hl7Generator.ts:30-43 | the decoded segments are MSH, PID, PV1 in that order, OBX only between PV1 and DG1, and DG1 last |
| Hl7RoundTrip.DecodeEncoded | utils/hl7Generator.ts:48-114 | decoding any message whose first PID/PV1/DG1 and OBX list are the encoder's gives exactly the encoded id, identifier, name, date, sex, triage, reason and observations |
| Hl7RoundTrip.TriageDecoded | utils/hl7Generator.ts:79 | triage written at PV1-19 (line 35) is read back, with P4 only for an empty level |
| Hl7RoundTrip.ReasonDecoded | utils/hl7Generator.ts:91 | the symptom text written in DG1-3 (line 41) comes back as the reason, with Checkup only for empty symptoms |
| Hl7RoundTrip.IdDecoded | utils/hl7Generator.ts:66-68 | the decoded identifier (written at lines 27 and 33) is the encoder's idValue and the id its canonical form; a missing id gives `p-<random MRN>`; a `p-` id is kept |
| Hl7RoundTrip.NameDecoded | utils/hl7Generator.ts:58-60 | family and given name come back as the encoder split and wrote them (lines 21-22 and 33) |
| Hl7RoundTrip.NameSplitRecombines | utils/hl7Generator.ts:21-22 | given + " " + family is the full name again |
| Hl7RoundTrip.BirthDateAndGenderDecoded | utils/hl7Generator.ts:61-75 | the birth date is the re-hyphenated hyphen-free date; gender is male iff the coin said M |
| Hl7RoundTrip.IsoDateRoundTrip | utils/hl7Generator.ts:61 | a YYYY-MM-DD date survives the hyphen removal of line 23 and the re-hyphenation unchanged |
| Hl7RoundTrip.EmptyDateDefault | utils/hl7Generator.ts:61 | after the hyphen removal of line 23, a date of hyphens only (or empty) comes back as 1990-01-01 |
| Hl7RoundTrip.ContactDropped | utils/hl7Generator.ts:62-63 | the decoded telecom is always empty: the contact is written at index 11 and read at index 13 |
| Hl7RoundTrip.ObservationsDecoded | utils/hl7Generator.ts:95-111 | there are as many observations as non-empty vitals (lines 37-38), the heart rate first (8867-4, bpm) and the temperature last (8310-5, Cel), with the values unchanged |
| Hl7RoundTrip.VitalObservations | utils/hl7Generator.ts:95-111 | the decoder maps the heart-rate and temperature OBX segments to their codes and quantities |
| Hl7RoundTrip.RoundTrip | utils/hl7Generator.ts:18-114 | for separator-free form data, decoding the encoded message succeeds and returns the triage, reason, identifier, id, name, date, gender, empty telecom and observation count the form implies |
| Hl7RoundTrip.WireSafeDecodes | utils/hl7Generator.ts:18-114 | decoding the encoding of any separator-free form succeeds |
| Hl7RoundTrip.NoPidRefused | utils/hl7Generator.ts:51-55 | a message with no PID segment is refused with "Missing PID segment" |
| RecordStore.IndexOfId | services/store.ts:75 | `findIndex` gives the first index with the id, or -1 iff none has it |
| RecordStore.FindPatient | services/store.ts:49-52 | `getPatientById` gives the first patient whose id is equal, or none iff no patient has it |
| RecordStore.NextVersion | services/store.ts:88 | a digit version (after trim) becomes its value plus one; a non-numeric version becomes NaN |
| RecordStore.NextVersionOfDigits | services/store.ts:88 | the next version of a digit string is a digit string one larger |
| RecordStore.NextVersionOfNumber | services/store.ts:88 | the next version of n is n + 1 |
| RecordStore.MergePatient | services/store.ts:81-90 | the incoming patient's fields win, present optional fields override, and meta is the old meta with the new lastUpdated and the next versionId (old defaults to 1) |
| RecordStore.UpsertPatient | services/store.ts:72-96 | a new id is appended; an existing id is merged at its own index, with the length and every other entry unchanged |
| RecordStore.UpsertIds | services/store.ts:72-96 | the id set after an upsert is the old one plus the patient's id |
| RecordStore.UpsertKeepsUnique | services/store.ts:75-94 | unique ids stay unique |
| RecordStore.UpsertThenFind | services/store.ts:72-96 | `getPatientById` of the upserted id finds the new data (merged when it existed) |
| RecordStore.UpsertOthersUnchanged | services/store.ts:72-96 | `getPatientById` of every other id is unchanged |
| RecordStore.UpsertTwiceVersion | services/store.ts:88 | two upserts of a stored patient raise its version by exactly 2 |
| RecordStore.VersionIncreases | services/store.ts:88 | one upsert raises a numeric version by exactly one |
| RecordStore.EncountersOf | services/store.ts:54-57 | the result holds exactly the encounters whose subject reference contains the id |
| RecordStore.EncountersOfAppend | services/store.ts:54-57 | the filter is order-preserving: filtering a concatenation concatenates the results |
| RecordStore.ObservationsOf | services/store.ts:59-62 | the result holds exactly the observations whose subject reference contains the id |
| RecordStore.ObservationsOfAppend | services/store.ts:59-62 | the filter is order-preserving over concatenation |
| RecordStore.ReferenceContainsId | services/store.ts:56 | a record pointing at `Patient/<id>` is found by a lookup of id |
| RecordStore.OverMatch | services/store.ts:56 | substring matching also returns records of p-11 for a lookup of p-1 |
| RecordStore.InsertByTime | services/store.ts:64-68 | inserting into a newest-first list keeps it newest-first and adds exactly the one log |
| RecordStore.SortNewestFirst | services/store.ts:64-68 | `getIngestionLogs` is a permutation of the stored logs, newest first |
| RecordStore.TriageColor | services/store.ts:122-130 | P1-P4 map to red, orange, yellow and blue classes; anything else, missing included, is gray |
| RecordStore.TriageColorsDistinct | services/store.ts:122-130 | P1-P4 give pairwise distinct colours, all different from the default |
| RecordStore.Store.AddPatient | services/store.ts:72-96 | the patients become the upsert of the old ones, ids stay unique and gain the new id, and nothing else changes |
| RecordStore.Store.AddEncounter | services/store.ts:98-102 | appends the encounter at the end; nothing else changes |
| RecordStore.Store.AddObservation | services/store.ts:104-108 | appends the observation at the end; nothing else changes |
| RecordStore.Store.AddLog | services/store.ts:110-114 | appends the log at the end; nothing else changes |
| Ingestion.FindCol | components/IngestionLog.tsx:25-30 | the first header whose lower-cased text contains a keyword, or -1 iff there is none |
| Ingestion.DetectedColumn | components/IngestionLog.tsx:70-84 | every column is found by its own `findCol` over the same headers |
| Ingestion.TimestampHeader | components/IngestionLog.tsx:71 | a first header "Timestamp" is the timestamp column |
| Ingestion.SharedHeader | components/IngestionLog.tsx:74-76 | a single "Patient ID" header resolves both name and id |
| Ingestion.StripQuoted | components/IngestionLog.tsx:98 | one outer quote pair is removed, as also for headers at line 65 |
| Ingestion.StripUnquoted | components/IngestionLog.tsx:98 | an unquoted cell or header is left as it is |
| Ingestion.HeadersIgnoreQuotes | components/IngestionLog.tsx:65 | the header line is split on every comma, quoted or not |
| Ingestion.EvenQuotesCount | components/IngestionLog.tsx:98 | the lookahead's parity test is "an even number of quotes follows" |
| Ingestion.FirstBreakFirst | components/IngestionLog.tsx:98 | the first splitting comma is the first comma followed by an even number of quotes |
| Ingestion.SplitRowCuts | components/IngestionLog.tsx:98 | the row cells join back to the row; every cut comma is followed by an even number of quotes, and every comma kept inside a cell by an odd number |
| Ingestion.FormDefaults | components/IngestionLog.tsx:101-114 | each field is its cell when non-empty, else now, Unknown Patient, 2000-01-01, General Update, P4 or "" |
| Ingestion.SchemaCheck | components/IngestionLog.tsx:59-90 | the batch is refused iff neither a name nor an id column is found, with the headers in the message; otherwise the data rows are every line after the header |
| Ingestion.NoRowsRefused | components/IngestionLog.tsx:59-61 | a text with no newline is refused as an empty sheet |
| Ingestion.RunCounts | components/IngestionLog.tsx:91-137 | a batch that does not fail counts exactly its non-blank rows |
| Ingestion.ApplyRowGrows | components/IngestionLog.tsx:123-135 | a processed row adds one encounter and one log at the end, keeping what was there |
| Ingestion.RunGrows | components/IngestionLog.tsx:91-138 | after k counted rows the store has k more encounters and k more logs, with the old entries as a prefix |
| Ingestion.RunGrowsRow | components/IngestionLog.tsx:93-138 | the same from a non-blank row on |
| Ingestion.RunKeepsIds | components/IngestionLog.tsx:123 | no patient id is ever lost during a batch |
| Ingestion.ApplyRowResolves | components/IngestionLog.tsx:123-135 | the new Success log points at `Patient/<id>` of a stored patient, and older ones still resolve |
| Ingestion.RunLogsResolve | components/IngestionLog.tsx:91-138 | every Success log of a batch resolves to a stored patient |
| Ingestion.ResolvesGrow | components/IngestionLog.tsx:123-134 | a resolvable log stays resolvable as patients are added |
| Ingestion.BlankRowsIgnored | components/IngestionLog.tsx:94 | whitespace-only rows change nothing and count nothing |
| Ingestion.FailureLoggedOnce | components/IngestionLog.tsx:142-151 | a failing batch ends with a Failed log after what earlier rows wrote, and reports the error |
| Ingestion.RunAddsOnlySuccess | components/IngestionLog.tsx:128-135 | the rows of a batch add only Success log entries, after the old log |
| Ingestion.SuccessesAddNoFailure | components/IngestionLog.tsx:128-135 | appending Success entries leaves the number of Failed entries unchanged |
| Ingestion.SyncFailsOnce | components/IngestionLog.tsx:32-151 | a bad URL changes nothing and reports the invalid-URL message; past it the old log is kept as a prefix, a sync with an error status adds exactly one Failed entry, the last, a successful one adds none, and every other added entry is Success |
| Ingestion.PreparedFailsOnce | components/IngestionLog.tsx:59-151 | the same for every outcome of the fetch and schema check |
| Ingestion.RunKeepsUnique | components/IngestionLog.tsx:123 | patient ids stay unique through a batch |
| Ingestion.Hl7RowsPointAtOwnPatient | components/IngestionLog.tsx:117-125 | every row the real encoder and decoder accept yields an encounter and observations whose subject is `Patient/<id>` of the row's patient |
| Ingestion.Hl7CodecSelfReferencing | utils/hl7Generator.ts:48-114 | this holds for every column map |
| Ingestion.SubjectResolvesGrow | components/IngestionLog.tsx:123 | a subject that resolves to a stored patient keeps resolving as patients are added |
| Ingestion.ApplyRowRecordsResolve | components/IngestionLog.tsx:123-125 | storing a self-referencing row keeps every encounter and observation pointing at a stored patient |
| Ingestion.RunRecordsResolve | components/IngestionLog.tsx:91-138 | through a batch every stored encounter and observation points at a stored patient |
| Ingestion.FailureLogResolves | components/IngestionLog.tsx:142-151 | appending the Failed log keeps records and logs resolving |
| Ingestion.SyncResolves | components/IngestionLog.tsx:32-151 | a whole sync with a self-referencing codec keeps every encounter, observation and Success log pointing at a stored patient |
| Ingestion.Hl7SyncResolves | components/IngestionLog.tsx:32-151 | the same for the real encoder and decoder |
| Ingestion.CleanCellChars | components/IngestionLog.tsx:98 | cleaning a cell (quote strip, trim) adds no character |
| Ingestion.RowCellsChars | components/IngestionLog.tsx:98 | no cell holds a character the row does not |
| Ingestion.WireSafeForm | components/IngestionLog.tsx:101-114 | the form data of a row without `|` or carriage return is free of both, like its defaults |
| Ingestion.WireSafeRowDecodes | components/IngestionLog.tsx:96-120 | such a row, with a clean clock, always decodes |
| Ingestion.WireSafeRunSucceeds | components/IngestionLog.tsx:91-138 | a batch of such rows never fails and counts every non-blank row |
| Ingestion.WireSafeBatch | components/IngestionLog.tsx:91-138 | such a batch adds exactly one encounter and one Success log per non-blank row |
| Ingestion.AddObservations | components/IngestionLog.tsx:124 | the row's observations are appended in order, and nothing else changes |
| Ingestion.IngestRow | components/IngestionLog.tsx:123-135 | the store afterwards is the upsert, the encounter, the observations in order and the Success log applied to the old store |
| Ingestion.SyncRows | components/IngestionLog.tsx:91-138 | the loop's store, count and failure are those of the row function `RunRows` |
| Ingestion.SyncSheet | components/IngestionLog.tsx:32-151 | the store and the status message are those of `Sync` |

## Left out

- React rendering and UI state, including `setIsSyncing`, `setStatusMsg`, `refreshLogs` and `console.log`. These are UI; the status message is returned as a value instead.
- `fetch`, the `/edit` URL rewrite and the cache-buster query. These are network I/O; the fetch outcome is an input (`Fetched`).
- `localStorage` `load`/`save`, `initStore` with its demo patient, and `resetStore`. These are browser storage and page reload; the four collections are in-memory sequences.
- `Date`, `Date.now` and `Math.random`, for the message id, MRN, sex, encounter and observation ids and log ids. These are supplied by the caller as clock and random inputs, one instant per row.
- `async`/`await`: the model is sequential and has no interleaving.
- Ingestion.DecodeRow has no contract of its own; it only composes the encoder and the decoder, whose properties are proved in `Hl7RoundTrip`.
- Hl7.ParseObservations: `parseFloat` on OBX-5 is not modelled. This is floating point, so the value is kept as the field's text.
- RecordStore.SortNewestFirst: the timestamps are integers, not parsed dates. The JavaScript sort's order among equal timestamps is not modelled.
- RecordStore.NextVersion: `Number()` is evaluated only for decimal digit strings, optionally between whitespace. Other numeric forms, such as "1.5", "1e3" or "0x10", give "NaN" in the model, where the source gives "2.5", "1001" and "17"; the stated contract covers digit strings and non-numeric strings only.
- RecordStore.NextVersion: versions are unbounded naturals, not IEEE doubles, so the loss of precision above 2^53 ("9007199254740993" gives "9007199254740992") and the exponent form from 1e21 on are not modelled.
- RecordStore.NextVersionOfDigits: it holds for unbounded naturals; with doubles it fails above 2^53.
- RecordStore.NextVersionOfNumber: it holds for unbounded naturals; with doubles it fails above 2^53.
- RecordStore.UpsertTwiceVersion: the version rises by exactly 2 over unbounded naturals, not doubles.
- RecordStore.VersionIncreases: the version rises by exactly 1 over unbounded naturals, not doubles.
- JsText.ToLower: case folding is ASCII-only. Lower-casing outside ASCII is not modelled.
- A JavaScript `undefined` read by the decoder becomes `""`. This covers a missing given name, coding display or unit, so "undefined" is never interpolated into text.
- Hl7.UndefinedSplit: the text of the `undefined.split` TypeError is the one V8 prints; other engines word it differently.
- JsText.Slice: lengths, indices and `slice` count Dafny characters, not UTF-16 code units, so text outside the Basic Multilingual Plane is measured differently.
- TypeErrors other than `undefined.split` on PID-5 and OBX-3 are not modelled, because no other access in the decoder can throw.
- Errors the store writes could throw (a full `localStorage`) are not modelled.
