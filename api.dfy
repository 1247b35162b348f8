/** The shapes exchanged between the browser pages and the analysis
    server: multipart form fields, the `/analyze` results object, the
    stored scan document and the `/patients` rows. */
module Api {
  import opened Common

  /** An image as a data URL (webcam screenshot or FileReader output). */
  type Image = string

  /** One `FormData.append` entry. */
  datatype FormField =
    | FileField(name: string, image: Image, filename: string)
    | TextField(name: string, text: string)

  function FieldNames(form: seq<FormField>): (names: seq<string>)
    ensures |names| == |form|
    ensures forall k :: 0 <= k < |form| ==> names[k] == form[k].name
  {
    if |form| == 0 then [] else [form[0].name] + FieldNames(form[1..])
  }

  predicate IsTextField(f: FormField, name: string)
  {
    f.TextField? && f.name == name
  }

  /** What a FastAPI `Form(default)` parameter called `name` receives:
      the text of the last text field of that name, with a missing or
      empty value replaced by the default. */
  function FormValue(form: seq<FormField>, name: string, default: string): (v: string)
    ensures (forall k :: 0 <= k < |form| ==> !IsTextField(form[k], name)) ==> v == default
    ensures forall k ::
              (0 <= k < |form| && IsTextField(form[k], name) &&
               forall j :: k < j < |form| ==> !IsTextField(form[j], name))
              ==> v == if form[k].text == "" then default else form[k].text
  {
    match LastMatch(form, (f: FormField) => IsTextField(f, name))
    case None => default
    case Some(k) => if form[k].text == "" then default else form[k].text
  }

  /** `results.diabetic_retinopathy` of an `/analyze` reply. */
  datatype DrFinding = DrFinding(grade: string, confidence: real, isNormal: bool)

  /** `results.biological_age`. */
  datatype BioAge = BioAge(predicted: int, gap: int)

  /** `results`; `dr` is optional because the pages only read it after
      checking that it is present. */
  datatype Results = Results(
    dr: Option<DrFinding>,
    biologicalAge: BioAge,
    cardiovascularRisk: string,
    diseasesFound: seq<string>)

  /** A decoded JSON reply to `/analyze`, as the pages see it: only
      whether `results` is present matters to them. */
  datatype Reply = Reply(results: Option<Results>)

  /** A document's `_id`: a MongoDB ObjectId, or the text `str()` of it. */
  datatype DocId = ObjectId(hex: string) | IdText(text: string)

  /** One document of the `scans` collection. */
  datatype ScanRecord = ScanRecord(
    id: DocId,
    patientId: string,
    patientName: string,
    mobileNumber: string,
    timestamp: int,
    fileUrl: string,
    diagnosis: string,
    drGrade: int,
    confidence: real,
    biologicalAge: int,
    cardiovascularRisk: string)

  /** One row of the `/patients` reply. */
  datatype PatientRow = PatientRow(
    id: string,
    name: string,
    mobile: string,
    lastScan: int,
    status: Option<string>,
    scanCount: nat)
}
