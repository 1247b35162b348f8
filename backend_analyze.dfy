/** The `/analyze` handler of the analysis server: the grade labels,
    the patient-ID reuse rule, the stored scan document and the reply.
    The model's inference, the file write and the database calls are
    outside; their outcomes (the grade, the confidence, the random and
    clock values) are inputs. */
module Analyze {
  import opened Common
  import opened Api

  /** The server's own base URL, which prefixes every `file_url`. */
  const ServerRoot: string := "http://localhost:8000/"

  /** The `mobile_number` form default, also sent by walk-in uploads. */
  const UnknownMobile: string := "Unknown"

  /** The `patient_name` form default. */
  const DefaultPatientName: string := "Unknown Patient"

  /** `DR_LABELS[grade]`; `None` where the dictionary lookup raises. */
  function DrLabel(grade: int): (name: Option<string>)
    ensures name.Some? <==> 0 <= grade <= 4
  {
    if grade == 0 then Some("No DR (Normal)")
    else if grade == 1 then Some("Mild")
    else if grade == 2 then Some("Moderate")
    else if grade == 3 then Some("Severe")
    else if grade == 4 then Some("Proliferative DR")
    else None
  }

  /** The five grades carry five different labels. */
  lemma DrLabelsDistinct(g: int, h: int)
    requires 0 <= g <= 4 && 0 <= h <= 4 && g != h
    ensures DrLabel(g).value != DrLabel(h).value
  {
  }

  function CardiovascularRisk(grade: int): (risk: string)
    ensures risk == "Moderate" <==> grade > 2
    ensures risk == "Low" <==> grade <= 2
  {
    if grade > 2 then "Moderate" else "Low"
  }

  /** `f"{x:.4f}"` read back as a number: the nearest multiple of 1/10000
      (ties upward). */
  function Round4(x: real): (r: real)
    ensures x - 0.00005 < r <= x + 0.00005
    ensures (r * 10000.0).Floor as real == r * 10000.0
  {
    (x * 10000.0 + 0.5).Floor as real / 10000.0
  }

  /** A fresh `P-XXXXXX` identifier from the text of a UUID. */
  function FreshPatientId(uuidText: string): (id: string)
    requires |uuidText| >= 6
    ensures |id| == 8 && id[..2] == "P-"
  {
    "P-" + Upper(uuidText[..6])
  }

  /** `find_one({"mobile_number": mobile})["patient_id"]`, documents
      taken in their stored order. */
  function ExistingPatientId(store: seq<ScanRecord>, mobile: string): (found: Option<string>)
    ensures found.None? <==> forall k :: 0 <= k < |store| ==> store[k].mobileNumber != mobile
    ensures forall k ::
              (0 <= k < |store| && store[k].mobileNumber == mobile &&
               forall j :: 0 <= j < k ==> store[j].mobileNumber != mobile)
              ==> found == Some(store[k].patientId)
  {
    match FirstMatch(store, (s: ScanRecord) => s.mobileNumber == mobile)
    case None => None
    case Some(k) => Some(store[k].patientId)
  }

  /** The patient ID given to a new scan: a known mobile number keeps
      the ID of its first stored scan; "Unknown" and new numbers get the
      fresh one. */
  function PatientIdFor(store: seq<ScanRecord>, mobile: string, freshId: string): (id: string)
    ensures mobile == UnknownMobile ==> id == freshId
    ensures (forall k :: 0 <= k < |store| ==> store[k].mobileNumber != mobile) ==> id == freshId
    ensures forall k ::
              (0 <= k < |store| && store[k].mobileNumber == mobile && mobile != UnknownMobile &&
               forall j :: 0 <= j < k ==> store[j].mobileNumber != mobile)
              ==> id == store[k].patientId
  {
    if mobile == UnknownMobile then freshId
    else
      match ExistingPatientId(store, mobile)
      case None => freshId
      case Some(p) => p
  }

  /** Every two stored scans with the same known mobile number share
      one patient ID. */
  ghost predicate IdsFollowMobile(store: seq<ScanRecord>)
  {
    forall i, j :: 0 <= i < |store| && 0 <= j < |store| &&
      store[i].mobileNumber == store[j].mobileNumber && store[i].mobileNumber != UnknownMobile
      ==> store[i].patientId == store[j].patientId
  }

  /** The stored name: the UUID text, `_`, then the client's file name. */
  function UniqueFilename(uuidText: string, filename: string): (unique: string)
    ensures |unique| == |uuidText| + 1 + |filename|
    ensures unique[..|uuidText|] == uuidText && unique[|uuidText|] == '_'
    ensures unique[|uuidText| + 1..] == filename
  {
    uuidText + "_" + filename
  }

  /** `file_path`: where the upload is written. */
  function FilePath(unique: string): (path: string)
    ensures |path| == 8 + |unique|
    ensures path[..8] == "uploads/" && path[8..] == unique
  {
    "uploads/" + unique
  }

  /** `file_url`: where the upload is served. */
  function FileUrl(unique: string): (url: string)
    ensures url == ServerRoot + FilePath(unique)
  {
    ServerRoot + "uploads/" + unique
  }

  /** The form fields the handler reads: the file's name and the two
      text fields with their defaults. */
  datatype UploadRequest = UploadRequest(filename: string, patientName: string, mobileNumber: string)

  predicate IsFileField(f: FormField)
  {
    f.FileField? && f.name == "file"
  }

  /** FastAPI's reading of the multipart form; `None` when the required
      `file` field is missing (the request is rejected before the
      handler runs). */
  function ParseAnalyzeForm(form: seq<FormField>): (r: Option<UploadRequest>)
    ensures r.None? <==> forall k :: 0 <= k < |form| ==> !IsFileField(form[k])
    ensures forall k ::
              (0 <= k < |form| && IsFileField(form[k]) &&
               forall j :: k < j < |form| ==> !IsFileField(form[j]))
              ==> r.Some? && r.value.filename == form[k].filename
    ensures r.Some? ==> r.value.patientName == FormValue(form, "patient_name", DefaultPatientName)
    ensures r.Some? ==> r.value.mobileNumber == FormValue(form, "mobile_number", UnknownMobile)
  {
    match LastMatch(form, IsFileField)
    case None => None
    case Some(k) =>
      Some(UploadRequest(form[k].filename,
                         FormValue(form, "patient_name", DefaultPatientName),
                         FormValue(form, "mobile_number", UnknownMobile)))
  }

  /** The random and clock values one call draws: two UUID texts, the
      ObjectId the database assigns, the time, and `randint(30, 75)`. */
  datatype Draws = Draws(fileUuid: string, patientUuid: string, objectId: string, now: int, biologicalAge: int)

  datatype AnalyzeResponse =
    | Analyzed(fileUrl: string, results: Results)
    | AnalyzeError

  /** The collection after the call, and the reply. */
  datatype Analysis = Analysis(store: seq<ScanRecord>, response: AnalyzeResponse)

  /** `analyze_scan` once the model has produced `grade` and
      `confidence`. */
  function AnalyzeScan(store: seq<ScanRecord>, req: UploadRequest, grade: int, confidence: real, d: Draws): (a: Analysis)
    requires |d.patientUuid| >= 6
    requires 30 <= d.biologicalAge <= 75
    // a grade without a label raises before anything is stored; it stands
    // for any failure before `insert_one`
    ensures !(0 <= grade <= 4) ==> a.store == store && a.response == AnalyzeError
    // otherwise exactly one document is appended ...
    ensures 0 <= grade <= 4 ==> |a.store| == |store| + 1 && a.store[..|store|] == store
    ensures 0 <= grade <= 4 ==> a.response.Analyzed? && a.response.results.dr.Some?
    ensures 0 <= grade <= 4 ==>
      var rec := a.store[|store|];
      var res := a.response.results;
      var dr := res.dr.value;
      // ... under the patient ID of the reuse rule
      && rec.patientId == PatientIdFor(store, req.mobileNumber, FreshPatientId(d.patientUuid))
      && rec.patientName == req.patientName && rec.mobileNumber == req.mobileNumber
      && rec.drGrade == grade && rec.confidence == confidence && rec.timestamp == d.now
      && Some(rec.diagnosis) == DrLabel(grade) && dr.grade == rec.diagnosis
      // the reply agrees with what was stored
      && a.response.fileUrl == rec.fileUrl
      && rec.fileUrl == FileUrl(UniqueFilename(d.fileUuid, req.filename))
      && res.cardiovascularRisk == rec.cardiovascularRisk
      && rec.cardiovascularRisk == CardiovascularRisk(grade)
      && res.biologicalAge.predicted == rec.biologicalAge
      && 30 <= rec.biologicalAge <= 75
      && res.biologicalAge.gap == 0
      && dr.confidence == Round4(confidence)
      // normality and the findings list both single out grade 0
      && (dr.isNormal <==> grade == 0)
      && (res.diseasesFound == [] <==> grade == 0)
      && (grade != 0 ==> res.diseasesFound == [rec.diagnosis])
  {
    var unique := UniqueFilename(d.fileUuid, req.filename);
    var patientId := PatientIdFor(store, req.mobileNumber, FreshPatientId(d.patientUuid));
    match DrLabel(grade)
    case None => Analysis(store, AnalyzeError)
    case Some(diagnosis) =>
      var record := ScanRecord(ObjectId(d.objectId), patientId, req.patientName, req.mobileNumber,
                               d.now, FileUrl(unique), diagnosis, grade, confidence, d.biologicalAge,
                               CardiovascularRisk(grade));
      var results := Results(Some(DrFinding(diagnosis, Round4(confidence), grade == 0)),
                             BioAge(record.biologicalAge, 0),
                             record.cardiovascularRisk,
                             if grade > 0 then [diagnosis] else []);
      Analysis(store + [record], Analyzed(record.fileUrl, results))
  }

  /** Analysing a scan keeps "one patient ID per known mobile number". */
  lemma {:induction false} AnalyzeKeepsIdsFollowingMobile(
    store: seq<ScanRecord>, req: UploadRequest, grade: int, confidence: real, d: Draws)
    requires |d.patientUuid| >= 6
    requires 30 <= d.biologicalAge <= 75
    requires IdsFollowMobile(store)
    ensures IdsFollowMobile(AnalyzeScan(store, req, grade, confidence, d).store)
  {
    var after := AnalyzeScan(store, req, grade, confidence, d).store;
    if 0 <= grade <= 4 {
      var n := |store|;
      var rec := after[n];
      assert forall i :: 0 <= i < n ==> after[i] == store[i];
      if rec.mobileNumber != UnknownMobile {
        var found := FirstMatch(store, (s: ScanRecord) => s.mobileNumber == rec.mobileNumber);
        forall i | 0 <= i < n && store[i].mobileNumber == rec.mobileNumber
          ensures store[i].patientId == rec.patientId
        {
          assert found.Some?;
          assert store[found.value].mobileNumber == rec.mobileNumber;
          assert rec.patientId == store[found.value].patientId;
        }
      }
    }
  }

  /** The server's reply as the pages decode it. */
  function ReplyOf(r: AnalyzeResponse): (reply: Reply)
    ensures reply.results.Some? <==> r.Analyzed?
    ensures r.Analyzed? ==> reply.results == Some(r.results)
  {
    match r
    case Analyzed(_, results) => Reply(Some(results))
    case AnalyzeError => Reply(None)
  }
}
