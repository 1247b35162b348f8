/** The diagnostic console page: the view state it keeps (the latest
    results, the heatmap overlay, the uploaded preview, the active patient
    and the new-patient dialog) and one method per event handler. Network
    round trips are split into the request a handler starts and the
    outcome that later settles it. */
module Dashboard {
  import opened Common
  import opened Api
  import Analyze
  import Queries
  import Viewfinder

  datatype Patient = Patient(name: string, mobile: string)

  /** The results report a finding that is not normal. */
  predicate ShowsAbnormal(r: Results)
  {
    r.dr.Some? && !r.dr.value.isNormal
  }

  /** The overlay after results arrive: switched on by an abnormal
      finding, never switched off. */
  function HeatmapAfter(show: bool, r: Results): (b: bool)
    ensures show ==> b
    ensures ShowsAbnormal(r) ==> b
    ensures b && !show ==> ShowsAbnormal(r)
  {
    if ShowsAbnormal(r) then true else show
  }

  /** The `patient_name` a walk-in upload sends. */
  const WalkInName: string := "Walk-in Patient"

  /** The form a file upload posts: the file, then the active patient's
      name and mobile, or the walk-in defaults. */
  function UploadForm(img: Image, patient: Option<Patient>): (form: seq<FormField>)
    ensures FieldNames(form) == ["file", "patient_name", "mobile_number"]
    ensures form[0] == FileField("file", img, "upload.jpg")
    ensures form[1].TextField? && form[2].TextField?
    ensures patient.Some? ==> form[1].text == patient.value.name && form[2].text == patient.value.mobile
    ensures patient.None? ==> form[1].text == WalkInName && form[2].text == Analyze.UnknownMobile
  {
    var name := if patient.Some? then patient.value.name else WalkInName;
    var mobile := if patient.Some? then patient.value.mobile else Analyze.UnknownMobile;
    [FileField("file", img, "upload.jpg"), TextField("patient_name", name), TextField("mobile_number", mobile)]
  }

  /** `data.find(p => p.mobile === mobile)?.name`. */
  function LookupName(rows: seq<PatientRow>, mobile: string): (name: Option<string>)
    ensures (forall k :: 0 <= k < |rows| ==> rows[k].mobile != mobile) <==> name.None?
    ensures forall k ::
              (0 <= k < |rows| && rows[k].mobile == mobile &&
               forall j :: 0 <= j < k ==> rows[j].mobile != mobile)
              ==> name == Some(rows[k].name)
  {
    match FirstMatch(rows, (p: PatientRow) => p.mobile == mobile)
    case None => None
    case Some(k) => Some(rows[k].name)
  }

  /** How an upload's promise chain ends: the request or the blob
      conversion rejected, or the server answered (`body` is `None` when
      the reply is not JSON). */
  datatype UploadOutcome =
    | Failed
    | Answered(ok: bool, body: Option<Reply>)

  /** The chain reaches the update: an ok status and results in the body. */
  predicate DeliversResults(o: UploadOutcome)
  {
    o.Answered? && o.ok && o.body.Some? && o.body.value.results.Some?
  }

  /** The chain ends in the catch handler's alert. */
  predicate RaisesAlert(o: UploadOutcome)
  {
    o.Failed? || !o.ok || o.body.None?
  }

  class Dashboard {
    var results: Option<Results>
    var showHeatmap: bool
    var uploadedImage: Option<Image>
    var isSavedToEHR: bool
    var showPatientModal: bool
    var newPatientName: string
    var newPatientMobile: string
    var currentPatient: Option<Patient>

    /** An active patient always has a name and a mobile number (only the
        validated dialog sets one), and the page is only marked saved
        while it has results (the save button exists only then, and
        results are never cleared). A preview is only ever set from a
        truthy image, so it is never empty. */
    ghost predicate Valid()
      reads this
    {
      (currentPatient.Some? ==> currentPatient.value.name != "" && currentPatient.value.mobile != "") &&
      (isSavedToEHR ==> results.Some?) &&
      uploadedImage != Some("")
    }

    /** The state the analysis handlers touch. */
    ghost function Analysis(): (Option<Results>, bool, bool)
      reads this
    {
      (results, showHeatmap, isSavedToEHR)
    }

    /** The state the patient dialog touches. */
    ghost function PatientForm(): (bool, string, string, Option<Patient>)
      reads this
    {
      (showPatientModal, newPatientName, newPatientMobile, currentPatient)
    }

    constructor ()
      ensures Valid()
      ensures results.None? && !showHeatmap && uploadedImage.None? && !isSavedToEHR
      ensures !showPatientModal && newPatientName == "" && newPatientMobile == "" && currentPatient.None?
      ensures ShowsViewfinder()
    {
      results := None;
      showHeatmap := false;
      uploadedImage := None;
      isSavedToEHR := false;
      showPatientModal := false;
      newPatientName := "";
      newPatientMobile := "";
      currentPatient := None;
    }

    /** `uploadedImage ? <preview> : <SmartViewfinder>`: the viewfinder is
        on screen while the preview is falsy. On a valid page that is
        exactly while no image is previewed. */
    function ShowsViewfinder(): (shown: bool)
      reads this
      ensures Valid() ==> (shown <==> uploadedImage.None?)
    {
      !Present(uploadedImage)
    }

    /** The shared update for arriving results. */
    method ShowResults(r: Results)
      requires Valid()
      modifies this
      ensures Valid()
      ensures results == Some(r) && showHeatmap == HeatmapAfter(old(showHeatmap), r)
      ensures isSavedToEHR == old(isSavedToEHR)
      ensures uploadedImage == old(uploadedImage) && PatientForm() == old(PatientForm())
    {
      results := Some(r);
      if r.dr.Some? && !r.dr.value.isNormal {
        showHeatmap := true;
      }
    }

    /** `handleCapture(img, data)`: a present image becomes the preview;
        data with results is shown; an image without data starts an upload,
        whose form is returned. */
    method HandleCapture(img: Option<Image>, data: Option<Reply>) returns (upload: Option<seq<FormField>>)
      requires Valid()
      modifies this
      ensures Valid()
      ensures Present(img) ==> uploadedImage == img
      ensures !Present(img) ==> uploadedImage == old(uploadedImage)
      ensures data.Some? && data.value.results.Some? ==>
                results == data.value.results &&
                showHeatmap == HeatmapAfter(old(showHeatmap), data.value.results.value)
      ensures !(data.Some? && data.value.results.Some?) ==>
                results == old(results) && showHeatmap == old(showHeatmap)
      ensures upload.Some? <==> Present(img) && data.None?
      ensures upload.Some? ==> upload.value == UploadForm(img.value, currentPatient)
      ensures isSavedToEHR == old(isSavedToEHR) && PatientForm() == old(PatientForm())
      ensures Present(img) ==> !ShowsViewfinder()
      ensures !Present(img) ==> ShowsViewfinder() == old(ShowsViewfinder())
    {
      upload := None;
      if Present(img) {
        uploadedImage := img;
      }
      if data.Some? && data.value.results.Some? {
        ShowResults(data.value.results.value);
      } else if Present(img) && data.None? {
        upload := Some(UploadForm(img.value, currentPatient));
      }
    }

    /** An upload started by `HandleCapture` settles; `alerted` says
        whether the failure alert shows. */
    method UploadSettled(outcome: UploadOutcome) returns (alerted: bool)
      requires Valid()
      modifies this
      ensures Valid()
      ensures alerted <==> RaisesAlert(outcome)
      ensures DeliversResults(outcome) ==>
                var r := outcome.body.value.results.value;
                results == Some(r) && showHeatmap == HeatmapAfter(old(showHeatmap), r)
      ensures !DeliversResults(outcome) ==> results == old(results) && showHeatmap == old(showHeatmap)
      ensures isSavedToEHR == old(isSavedToEHR)
      ensures uploadedImage == old(uploadedImage) && PatientForm() == old(PatientForm())
    {
      match outcome
      case Failed =>
        alerted := true;
      case Answered(ok, body) =>
        if !ok || body.None? {
          alerted := true;
        } else {
          alerted := false;
          if body.value.results.Some? {
            ShowResults(body.value.results.value);
          }
        }
    }

    /** The heatmap button. */
    method ToggleHeatmap()
      requires Valid()
      modifies this
      ensures Valid()
      ensures showHeatmap == !old(showHeatmap)
      ensures results == old(results) && isSavedToEHR == old(isSavedToEHR)
      ensures uploadedImage == old(uploadedImage) && PatientForm() == old(PatientForm())
    {
      showHeatmap := !showHeatmap;
    }

    /** The "Save to EHR" button, which is only on screen with results. */
    method SaveToEHR()
      requires Valid() && results.Some?
      modifies this
      ensures Valid()
      ensures isSavedToEHR
      ensures results == old(results) && showHeatmap == old(showHeatmap)
      ensures uploadedImage == old(uploadedImage) && PatientForm() == old(PatientForm())
    {
      isSavedToEHR := true;
    }

    /** The preview's "Clear" button, which brings the viewfinder back. */
    method ClearImage()
      requires Valid()
      modifies this
      ensures Valid()
      ensures uploadedImage.None? && ShowsViewfinder()
      ensures Analysis() == old(Analysis()) && PatientForm() == old(PatientForm())
    {
      uploadedImage := None;
    }

    /** "+ New Patient". */
    method OpenPatientModal()
      requires Valid()
      modifies this
      ensures Valid()
      ensures showPatientModal
      ensures newPatientName == old(newPatientName) && newPatientMobile == old(newPatientMobile)
      ensures currentPatient == old(currentPatient)
      ensures uploadedImage == old(uploadedImage) && Analysis() == old(Analysis())
    {
      showPatientModal := true;
    }

    /** "Cancel": the dialog closes, its inputs keep their text. */
    method CancelPatientModal()
      requires Valid()
      modifies this
      ensures Valid()
      ensures !showPatientModal
      ensures newPatientName == old(newPatientName) && newPatientMobile == old(newPatientMobile)
      ensures currentPatient == old(currentPatient)
      ensures uploadedImage == old(uploadedImage) && Analysis() == old(Analysis())
    {
      showPatientModal := false;
    }

    /** Typing in the name input. */
    method EditName(text: string)
      requires Valid()
      modifies this
      ensures Valid()
      ensures newPatientName == text
      ensures showPatientModal == old(showPatientModal) && newPatientMobile == old(newPatientMobile)
      ensures currentPatient == old(currentPatient)
      ensures uploadedImage == old(uploadedImage) && Analysis() == old(Analysis())
    {
      newPatientName := text;
    }

    /** Typing in the mobile input. */
    method EditMobile(text: string)
      requires Valid()
      modifies this
      ensures Valid()
      ensures newPatientMobile == text
      ensures showPatientModal == old(showPatientModal) && newPatientName == old(newPatientName)
      ensures currentPatient == old(currentPatient)
      ensures uploadedImage == old(uploadedImage) && Analysis() == old(Analysis())
    {
      newPatientMobile := text;
    }

    /** "Save & Continue": with both inputs filled the typed patient
        becomes active and the dialog closes; otherwise nothing changes. */
    method SaveAndContinue() returns (saved: bool)
      requires Valid()
      modifies this
      ensures Valid()
      ensures saved <==> old(newPatientName) != "" && old(newPatientMobile) != ""
      ensures saved ==> currentPatient == Some(Patient(old(newPatientName), old(newPatientMobile))) && !showPatientModal
      ensures !saved ==> PatientForm() == old(PatientForm())
      ensures newPatientName == old(newPatientName) && newPatientMobile == old(newPatientMobile)
      ensures uploadedImage == old(uploadedImage) && Analysis() == old(Analysis())
    {
      saved := newPatientName != "" && newPatientMobile != "";
      if saved {
        currentPatient := Some(Patient(newPatientName, newPatientMobile));
        showPatientModal := false;
      }
    }

    /** The search button beside the mobile input. With an empty mobile
        no request is sent; otherwise `rows` is the `/patients` reply
        (`None` when the request failed), and the first row with the typed
        mobile supplies the name. */
    method Lookup(rows: Option<seq<PatientRow>>) returns (requested: bool)
      requires Valid()
      modifies this
      ensures Valid()
      ensures requested <==> newPatientMobile != ""
      ensures requested && rows.Some? && LookupName(rows.value, newPatientMobile).Some? ==>
                newPatientName == LookupName(rows.value, newPatientMobile).value
      ensures !(requested && rows.Some? && LookupName(rows.value, newPatientMobile).Some?) ==>
                newPatientName == old(newPatientName)
      ensures showPatientModal == old(showPatientModal) && newPatientMobile == old(newPatientMobile)
      ensures currentPatient == old(currentPatient)
      ensures uploadedImage == old(uploadedImage) && Analysis() == old(Analysis())
    {
      requested := newPatientMobile != "";
      if !requested || rows.None? {
        return;
      }
      match LookupName(rows.value, newPatientMobile)
      case None =>
      case Some(name) =>
        newPatientName := name;
    }
  }

  /** Toggling the heatmap twice restores it, and the rest of the page. */
  method ToggleTwiceRestores(page: Dashboard)
    requires page.Valid()
    modifies page
    ensures page.Valid()
    ensures page.Analysis() == old(page.Analysis())
    ensures page.uploadedImage == old(page.uploadedImage) && page.PatientForm() == old(page.PatientForm())
  {
    page.ToggleHeatmap();
    page.ToggleHeatmap();
  }

  /** Saving to the EHR twice leaves the page as saving once does. */
  method SaveTwiceIsSaveOnce(page: Dashboard)
    requires page.Valid() && page.results.Some?
    modifies page
    ensures page.Valid() && page.isSavedToEHR
    ensures page.results == old(page.results) && page.showHeatmap == old(page.showHeatmap)
    ensures page.uploadedImage == old(page.uploadedImage) && page.PatientForm() == old(page.PatientForm())
  {
    page.SaveToEHR();
    page.SaveToEHR();
  }

  /** A viewfinder scan handed to the page: a non-empty image is
      previewed, the reply's results, when it has any, are shown, and no
      second upload starts; an empty screenshot or a failed request
      leaves the page as it was. */
  method ScanIntoDashboard(v: Viewfinder.Viewfinder, page: Dashboard, image: Image, reply: Option<Reply>)
    returns (upload: Option<seq<FormField>>)
    requires v.Valid() && v.status == Viewfinder.Aligned && page.Valid()
    modifies v, page
    ensures v.Valid() && v.status == Viewfinder.Searching && page.Valid()
    ensures upload.None?
    ensures page.isSavedToEHR == old(page.isSavedToEHR) && page.PatientForm() == old(page.PatientForm())
    ensures image != "" && reply.Some? ==> page.uploadedImage == Some(image)
    ensures image != "" && reply.Some? && reply.value.results.Some? ==>
              page.results == reply.value.results &&
              page.showHeatmap == HeatmapAfter(old(page.showHeatmap), reply.value.results.value)
    ensures !(image != "" && reply.Some? && reply.value.results.Some?) ==>
              page.results == old(page.results) && page.showHeatmap == old(page.showHeatmap)
    ensures image == "" || reply.None? ==>
              page.Analysis() == old(page.Analysis()) && page.uploadedImage == old(page.uploadedImage)
    ensures image != "" && reply.Some? ==> !page.ShowsViewfinder()
  {
    upload := None;
    var request := v.HandleScan(Some(image));
    if request.None? {
      return;
    }
    var captured := v.SubmissionSettled(reply);
    if captured.Some? {
      upload := page.HandleCapture(Some(captured.value.0), Some(captured.value.1));
    }
    v.ResetTimerFires();
  }

  // ---------------------------------------------------------------
  // The page and the server together

  /** A walk-in upload reaches the handler as "Walk-in Patient" with the
      "Unknown" mobile, so it always gets a fresh patient ID. */
  lemma WalkInUploadGetsFreshId(img: Image, store: seq<ScanRecord>, freshId: string)
    ensures Analyze.ParseAnalyzeForm(UploadForm(img, None)) ==
              Some(Analyze.UploadRequest("upload.jpg", WalkInName, Analyze.UnknownMobile))
    ensures Analyze.PatientIdFor(store, Analyze.UnknownMobile, freshId) == freshId
  {
    var form := UploadForm(img, None);
    assert Analyze.IsFileField(form[0]) && !Analyze.IsFileField(form[1]) && !Analyze.IsFileField(form[2]);
    assert IsTextField(form[1], "patient_name") && !IsTextField(form[2], "patient_name");
    assert IsTextField(form[2], "mobile_number");
  }

  /** An active patient's upload reaches the handler under that
      patient's own name and mobile. */
  lemma PatientUploadCarriesPatient(img: Image, p: Patient)
    requires p.name != "" && p.mobile != ""
    ensures Analyze.ParseAnalyzeForm(UploadForm(img, Some(p))) ==
              Some(Analyze.UploadRequest("upload.jpg", p.name, p.mobile))
  {
    var form := UploadForm(img, Some(p));
    assert Analyze.IsFileField(form[0]) && !Analyze.IsFileField(form[1]) && !Analyze.IsFileField(form[2]);
    assert IsTextField(form[1], "patient_name") && !IsTextField(form[2], "patient_name");
    assert IsTextField(form[2], "mobile_number");
  }

  /** A viewfinder scan sends only the file, so the handler files it
      under the default name and the "Unknown" mobile, with a fresh
      patient ID, whoever the active patient is. */
  lemma ScanUploadIsAnonymous(img: Image, store: seq<ScanRecord>, freshId: string)
    ensures Analyze.ParseAnalyzeForm(Viewfinder.ScanForm(img)) ==
              Some(Analyze.UploadRequest("scan.jpg", Analyze.DefaultPatientName, Analyze.UnknownMobile))
    ensures Analyze.PatientIdFor(store, Analyze.UnknownMobile, freshId) == freshId
  {
    var form := Viewfinder.ScanForm(img);
    assert Analyze.IsFileField(form[0]);
    assert !IsTextField(form[0], "patient_name") && !IsTextField(form[0], "mobile_number");
  }

  /** The server's reply to a graded scan, as the page receives it,
      delivers results; they switch the heatmap on exactly when the grade
      is not 0, and never switch it off. */
  lemma HeatmapFollowsGrade(
    store: seq<ScanRecord>, req: Analyze.UploadRequest, grade: int, confidence: real,
    d: Analyze.Draws, show: bool)
    requires |d.patientUuid| >= 6
    requires 30 <= d.biologicalAge <= 75
    requires 0 <= grade <= 4
    ensures var reply := Analyze.ReplyOf(Analyze.AnalyzeScan(store, req, grade, confidence, d).response);
      DeliversResults(Answered(true, Some(reply))) &&
      HeatmapAfter(show, reply.results.value) == (show || grade != 0)
  {
  }

  /** The server's error reply is an ok JSON answer without results, so
      the page neither alerts nor changes what it shows. */
  lemma ErrorReplyIsSilent()
    ensures var o := Answered(true, Some(Analyze.ReplyOf(Analyze.AnalyzeError)));
      !DeliversResults(o) && !RaisesAlert(o)
  {
  }

  /** The walk-in mobile "Unknown" is never found by the lookup over the
      `/patients` rows, so a lookup for it leaves the name as typed. */
  lemma UnknownMobileNeverFound(groups: seq<Queries.PatientGroup>)
    ensures LookupName(Queries.PatientRows(groups), Analyze.UnknownMobile).None?
  {
    Queries.PatientRowsExact(groups);
    var rows := Queries.PatientRows(groups);
    forall k | 0 <= k < |rows| ensures rows[k].mobile != Analyze.UnknownMobile {
      assert rows[k] in rows;
    }
  }
}
