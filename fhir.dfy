/** The simplified FHIR R4 records of types.ts. An optional member of the
    TypeScript interface is an `Option`; `resourceType` is implied by the
    datatype. */
module Fhir {
  import opened Wrappers

  datatype Meta = Meta(lastUpdated: string, versionId: string)

  datatype NameUse = Official | Usual

  datatype HumanName = HumanName(use: Option<NameUse>, family: string, given: seq<string>)

  datatype TelecomSystem = Phone | Email

  datatype TelecomUse = Home | Work | Mobile

  datatype Telecom = Telecom(system: TelecomSystem, value: string, use: Option<TelecomUse>)

  datatype Gender = Male | Female | Other | Unknown

  datatype Address = Address(text: string, city: Option<string>, state: Option<string>, postalCode: Option<string>)

  datatype Identifier = Identifier(system: string, value: string, typeText: Option<string>)

  /** The simulated FHIR extension that carries the triage level. */
  datatype Extension = Extension(url: string, valueString: Option<string>)

  datatype Patient = Patient(
    id: string,
    meta: Option<Meta>,
    active: bool,
    name: seq<HumanName>,
    telecom: Option<seq<Telecom>>,
    gender: Gender,
    birthDate: string,
    address: Option<seq<Address>>,
    identifier: Option<seq<Identifier>>,
    extension: Option<seq<Extension>>)

  datatype Coding = Coding(system: string, code: string, display: string)

  datatype CodeableConcept = CodeableConcept(coding: seq<Coding>, text: Option<string>)

  /** An observed quantity; `value` is kept as the text it was read from. */
  datatype Quantity = Quantity(value: string, unit: string, system: string, code: string)

  datatype ObservationStatus = Final | Preliminary

  datatype Observation = Observation(
    id: string,
    meta: Option<Meta>,
    status: ObservationStatus,
    code: CodeableConcept,
    subject: string,
    effectiveDateTime: string,
    valueQuantity: Option<Quantity>,
    valueString: Option<string>)

  datatype EncounterStatus = Planned | Arrived | Triaged | InProgress | Finished

  datatype Period = Period(start: string, end: Option<string>)

  datatype Encounter = Encounter(
    id: string,
    meta: Option<Meta>,
    status: EncounterStatus,
    encounterClass: Coding,
    subject: string,
    period: Option<Period>,
    reasonCode: Option<seq<string>>)

  datatype LogSource = HL7v2 | GoogleForms | ExternalXML | WearableAPI

  datatype LogStatus = Success | Failed | Pending

  /** An ingestion log entry; its timestamp is a point in time in milliseconds. */
  datatype IngestionLog = IngestionLog(
    id: string,
    timestamp: int,
    source: LogSource,
    status: LogStatus,
    rawSnippet: string,
    patientReference: Option<string>)

  /** `Patient/<id>`, the reference the pipeline stores in `subject`. */
  function PatientReference(id: string): string
  {
    "Patient/" + id
  }
}
