# RetiNetPro: a verified model of the scan pipeline

RetiNetPro grades retinal fundus photographs for diabetic retinopathy.
A webcam viewfinder scores each frame for "eye-likeness" and allows a
scan only when the frame is aligned. The diagnostic console previews the
image, uploads it with the active patient's details and shows the
returned grade. The FastAPI server labels the grade, reuses a patient ID
per mobile number, stores one scan document per call, answers the
history and patient-directory queries, and lays out a PDF report. The
patient directory colours each patient's latest status.

This project models that core in Dafny and proves what it promises:

- `Analyze`: the five grade labels; the `/analyze` result and the
  document it stores; the patient-ID reuse rule; FastAPI's reading of
  the form fields and their defaults.
- `Queries`: the `/history` query with its limit and newest-first order,
  and the in-place rewrite of document IDs; the `/patients` filter and
  row mapping.
- `Report`: the `file_url` to local-path round trip; the `print_section`
  y-coordinate and page-break arithmetic; the status codes of
  `/report/{scan_id}`.
- `Viewfinder`: a class for the webcam viewfinder, with the pixel loop
  over an array, the score, the status transitions and the scan cycle
  as discrete events.
- `Dashboard`: a class for the console's view state, with one method
  per handler; lemmas connect the forms the pages send to what the
  server makes of them.
- `PatientsPage`: the status badge, tied to the five labels.
- `Api` and `Common` hold the shared shapes and helpers: an option
  type, substring search, Python's `str.replace` and a first-match
  search.

Where the code and its own comments disagree, the model follows the
code. The viewfinder's comment asks for a brightness between 20 and
240; the code tests `> 30 && < 230`, and so does the model.

The model also captures two behaviours of the code as written:

- The console never resets `isSavedToEHR`, so results that arrive after
  a save still show as saved.
- A viewfinder scan sends only the `file` field. It is therefore always
  stored under "Unknown Patient", with the "Unknown" mobile and a fresh
  patient ID, whoever the active patient is.

## Model

| member | source | states |
|---|---|---|
| Api.FormValue | backend/main.py:83-84 | A `Form(default)` parameter gets the last text field of its name; a missing or empty value gives the default |
| Analyze.DrLabel | backend/main.py:68-74 | Exactly the grades 0..4 have a label; any other grade fails the lookup |
| Analyze.DrLabelsDistinct | backend/main.py:68-74 | Different grades have different labels |
| Analyze.CardiovascularRisk | backend/main.py:128 | The risk is "Moderate" exactly for grades above 2, and "Low" otherwise |
| Analyze.Round4 | backend/main.py:140 | The reported confidence is within 0.00005 of the model's value and is a multiple of 1/10000 |
| Analyze.FreshPatientId | backend/main.py:111 | A fresh ID is 8 characters long and starts with "P-" |
| Analyze.ExistingPatientId | backend/main.py:114-116 | `find_one` by mobile finds nothing exactly when no stored scan has that mobile, and otherwise gives the patient ID of the first such scan |
| Analyze.PatientIdFor | backend/main.py:110-116 | "Unknown" and unseen mobiles get the fresh ID; a known mobile gets the ID of its first stored scan |
| Analyze.UniqueFilename | backend/main.py:88 | The stored name is the UUID text, then `_`, then the client's file name, each recoverable by position |
| Analyze.FilePath | backend/main.py:89 | The upload is written under `uploads/` followed by the stored name |
| Analyze.FileUrl | backend/main.py:123 | The `file_url` is the server root followed by the file path |
| Analyze.ParseAnalyzeForm | backend/main.py:80-85 | A request is rejected exactly when it has no `file` field; the file name is that of the last `file` field; the name and mobile are the form values with their defaults |
| Analyze.AnalyzeScan | backend/main.py:86-153 | A grade without a label, which stands for any failure before `insert_one`, stores nothing and replies with an error; otherwise one document is appended under the reuse-rule ID, and the reply agrees with it (label, URL, the risk rule of `CardiovascularRisk`, age in 30..75, gap 0, rounded confidence, `is_normal` and an empty findings list exactly for grade 0) |
| Analyze.AnalyzeKeepsIdsFollowingMobile | backend/main.py:110-131 | If every two stored scans with the same known mobile share a patient ID, this still holds after an analysis |
| Analyze.ReplyOf | backend/main.py:134-153 | The reply has `results` exactly when the analysis succeeded, and they are the results the analysis computed |
| Queries.HistoryQuery | backend/main.py:325-327 | The query names `patient_id` exactly when a non-empty ID is supplied, and then it holds that ID |
| Queries.Select | backend/main.py:329 | The reference filter returns only stored documents that match, and every stored document that matches; the empty query returns the whole collection |
| Queries.InsertByTime | backend/main.py:329 | Inserting into a newest-first list keeps it newest first and adds exactly the one document |
| Queries.SortNewestFirst | backend/main.py:329 | The reference sort is newest first and a permutation of its input |
| Queries.HistoryFind | backend/main.py:329 | The query's answer has at most 100 documents, newest first |
| Queries.SelectCounts | backend/main.py:329 | The filter keeps each matching document exactly as many times as it is stored, and no other document |
| Queries.HistoryLength | backend/main.py:325-329 | `/history` returns all the matches when there are at most 100 of them, and exactly 100 otherwise |
| Queries.HistoryOnlyMatches | backend/main.py:325-329 | Every scan returned is stored, and is the given patient's when a non-empty ID is supplied |
| Queries.PrefixIsNewest | backend/main.py:329 | In a newest-first list nothing after a cut is newer than anything before it |
| Queries.CutKeepsNewest | backend/main.py:329 | `to_list(100)` keeps part of the sorted matches, and every match it drops is no newer than every match it keeps |
| Queries.HistoryKeepsNewest | backend/main.py:325-329 | The scans returned are matches, and every matching scan left out above the limit is no newer than every scan returned |
| Queries.HistoryComplete | backend/main.py:325-329 | With at most 100 matches, every matching scan is returned as often as it is stored and no other; with no patient ID, that is the whole collection |
| Queries.WithTextId | backend/main.py:332 | The document gets a text `_id` holding its ObjectId's hex; a text `_id` is kept; nothing else about it changes |
| Queries.GetHistory | backend/main.py:323-333 | The loop rewrites every returned document's ID in place, keeping the order and the 100 limit |
| Queries.GetPatients | backend/main.py:347-361 | The loop builds exactly the reference rows of the first 100 groups |
| Queries.Listed | backend/main.py:351 | A group is listed exactly when its mobile is non-empty and not "Unknown" |
| Queries.RowOf | backend/main.py:352-359 | Each row field is the group's aggregated field: `id` from `patient_id`, `mobile` from the group key, and so on |
| Queries.PatientRows | backend/main.py:350-360 | The reference rows are the listed groups' rows in group order, never more rows than groups |
| Queries.PatientRowsAppend | backend/main.py:350-361 | Building rows preserves group order: rows of a concatenation are the concatenation of the rows |
| Queries.PatientRowsExact | backend/main.py:350-361 | Every row comes from a group whose key is non-empty and not "Unknown", with the key as `mobile` and the group count as `scanCount`; every such group has its row |
| Report.LocalPath | backend/main.py:212 | A `file_url` without the server root in it is used as the path unchanged |
| Report.LocalPathRoundTrip | backend/main.py:212 | Stripping the server root from a stored `file_url` gives back the `file_path` written, unless the stored name itself contains the root |
| Report.UploadPathRoundTrip | backend/main.py:88-89 | For names built from UUID text, `_` and a client file name, only the client's file name can break the round trip |
| Report.PageUploadsRoundTrip | backend/main.py:212 | The two file names the pages send, `scan.jpg` and `upload.jpg`, always round-trip |
| Report.BreakBelow | backend/main.py:240-242 | A break happens exactly below the threshold; it restarts at the page top, `height - 50` = 742, and counts one page; above the threshold nothing changes |
| Report.AfterTitle | backend/main.py:239-246 | The title breaks the page at most once; from 120 or above it only moves 25 down; below 120 it starts a new page and ends 25 below its top |
| Report.AfterItem | backend/main.py:251-266 | An item breaks the page at most once; from 100 or above it moves 25 + 12 per line down; below 100 it starts a new page and ends 25 + 12 per line below its top |
| Report.AfterItems | backend/main.py:251-269 | Each item breaks the page at most once |
| Report.PrintSection | backend/main.py:235-271 | The nested loops return the reference final y − 10 and the break count; no title is drawn below 120 and no item heading below 100 |
| Report.ItemsWithoutBreak | backend/main.py:251-269 | Without breaks each item costs 15 + 12 per line + 10 |
| Report.SectionEnd | backend/main.py:235-271 | A section makes at most one break per item plus one |
| Report.SectionWithoutBreak | backend/main.py:235-271 | A section without breaks started at or above 120 ends 35 points plus the items' height below its start |
| Report.SectionBreaksBound | backend/main.py:240-255 | The title breaks exactly when the section starts below 120; a section makes at most one break per item plus one |
| Report.ExplanationStart | backend/main.py:214-229 | The explanation starts 480 (with the image) or 200 (without it) below the first patient-details line at y = 622, that is at 142 or 422 |
| Report.ReportPages | backend/main.py:215-314 | The PDF has from 1 up to 4 + (number of items) pages |
| Report.IsObjectIdText | backend/main.py:166 | `ObjectId(text)` accepts exactly 24 hexadecimal digits of either case |
| Report.FindScan | backend/main.py:166 | The lookup finds a stored scan whose ObjectId is the requested hex in lower case, or there is none when no stored scan has it |
| Report.ReportFor | backend/main.py:170-314 | A found scan gives a PDF named `report_<id>.pdf` with at least one page |
| Report.GenerateReportAsWritten | backend/main.py:164-168 | As written, every failure is a 500, including a valid ID of no stored scan; a PDF comes back exactly for a valid ID with a stored scan |
| Report.GenerateReport | backend/main.py:164-168 | As intended: a valid ID of no stored scan gives 404, a malformed ID gives 500, and the PDF is named `report_<id>.pdf` |
| Report.MissingScanIsServerError | backend/main.py:164-168 | On an empty collection, a well-formed ID gets 500 from the code as written and 404 from the intended handler |
| Report.AnyCaseIdFindsScan | backend/main.py:166 | Whenever some stored scan's ObjectId is the lower-case form of the requested hex, both handlers answer with a PDF, whatever the case of the request |
| Report.IdCaseIrrelevant | backend/main.py:166 | Two IDs that differ only in letter case get the same outcome and the same page count |
| Viewfinder.RedTotal | frontend_vite/src/components/SmartViewfinder.tsx:34-36 | The red total sums byte 0 of every 4-byte pixel |
| Viewfinder.BrightnessTotal | frontend_vite/src/components/SmartViewfinder.tsx:34-37 | The brightness total sums (R+G+B)/3 over every pixel |
| Viewfinder.IsReddish | frontend_vite/src/components/SmartViewfinder.tsx:39-46 | The average red exceeds 1.05 times the average brightness |
| Viewfinder.HasDetail | frontend_vite/src/components/SmartViewfinder.tsx:40-47 | The average brightness lies strictly between 30 and 230 |
| Viewfinder.FrameScore | frontend_vite/src/components/SmartViewfinder.tsx:31-49 | The reference score of a frame: the two rules applied to its totals |
| Viewfinder.MeasureFrame | frontend_vite/src/components/SmartViewfinder.tsx:31-37 | The loop over bytes 0, 4, 8, … accumulates the reference red total and the (R+G+B)/3 brightness total; alpha is ignored |
| Viewfinder.Score | frontend_vite/src/components/SmartViewfinder.tsx:49 | The score is 0, 50 or 100; it is 100 exactly when both rules hold, and 0 exactly when neither does |
| Viewfinder.QualityScore | frontend_vite/src/components/SmartViewfinder.tsx:39-49 | The averages and the two rules give the reference frame score |
| Viewfinder.ReddishOnTotals | frontend_vite/src/components/SmartViewfinder.tsx:39-46 | Both averages divide by the same pixel count, so the frame is reddish exactly when 100·totalRed > 105·totalBrightness |
| Viewfinder.DetailOnTotals | frontend_vite/src/components/SmartViewfinder.tsx:40-47 | Detail holds exactly when 30·n < totalBrightness < 230·n, strictly, so averages of exactly 30 or 230 fail |
| Viewfinder.UniformRed | frontend_vite/src/components/SmartViewfinder.tsx:34-36 | For n equal pixels the red total is n·r |
| Viewfinder.UniformBrightness | frontend_vite/src/components/SmartViewfinder.tsx:34-37 | For n equal pixels the brightness total is n·(r+g+b)/3 |
| Viewfinder.UniformTotals | frontend_vite/src/components/SmartViewfinder.tsx:34-37 | For n equal pixels the totals are n·r and n·(r+g+b)/3 |
| Viewfinder.UniformScore | frontend_vite/src/components/SmartViewfinder.tsx:39-49 | A uniform frame is reddish exactly when 20·r > 7·(r+g+b), and detailed exactly when 90 < r+g+b < 690 |
| Viewfinder.ReferenceFrames | frontend_vite/src/components/SmartViewfinder.tsx:39-49 | Uniform black and uniform white frames score 0; uniform (200, 50, 50) scores 100 |
| Viewfinder.NextStatus | frontend_vite/src/components/SmartViewfinder.tsx:52-56 | Scanning is kept; otherwise the status becomes aligned exactly when the score is at least 80, and never becomes scanning |
| Viewfinder.AlignedIffBothRules | frontend_vite/src/components/SmartViewfinder.tsx:46-56 | Outside a scan, a tick aligns exactly on a frame that satisfies both rules |
| Viewfinder.ScanForm | frontend_vite/src/components/SmartViewfinder.tsx:81-82 | The scan form is the one `file` field, holding the captured frame under the name `scan.jpg` |
| Viewfinder.Viewfinder.constructor | frontend_vite/src/components/SmartViewfinder.tsx:9-10 | The viewfinder starts searching, with quality 0 |
| Viewfinder.Viewfinder.CheckImageQuality | frontend_vite/src/components/SmartViewfinder.tsx:13-57 | Without a frame nothing changes; otherwise the metric becomes the frame score and the status follows the transition rule |
| Viewfinder.Viewfinder.HandleScan | frontend_vite/src/components/SmartViewfinder.tsx:65-73 | Unless aligned, nothing changes; from aligned the status becomes scanning with a `file`-only request, or goes back to searching with no request when the screenshot is missing or empty |
| Viewfinder.Viewfinder.SubmissionSettled | frontend_vite/src/components/SmartViewfinder.tsx:75-95 | A decoded reply is handed on with the image; a thrown request hands nothing on; either way the cool-down starts |
| Viewfinder.Viewfinder.ResetTimerFires | frontend_vite/src/components/SmartViewfinder.tsx:97-99 | The reset returns the status to searching |
| Viewfinder.ScanCycle | frontend_vite/src/components/SmartViewfinder.tsx:65-100 | A scan from aligned sends one `file`-only request exactly when the image is non-empty, hands on the image and the reply exactly when one arrived, and ends searching in every case |
| Viewfinder.TicksDuringScan | frontend_vite/src/components/SmartViewfinder.tsx:52-56 | Quality ticks during a scan leave the status at scanning |
| Dashboard.HeatmapAfter | frontend_vite/src/pages/Dashboard.tsx:34-36 | Results can switch the overlay on, and do exactly for an abnormal finding; they never switch it off |
| Dashboard.UploadForm | frontend_vite/src/pages/Dashboard.tsx:46-55 | The upload form has `file` (named `upload.jpg`), `patient_name` and `mobile_number`, from the active patient or the walk-in defaults |
| Dashboard.LookupName | frontend_vite/src/pages/Dashboard.tsx:197 | The name is that of the first row with the typed mobile, and is missing exactly when no row has it |
| Dashboard.Dashboard.constructor | frontend_vite/src/pages/Dashboard.tsx:10-21 | Initial state: no results, heatmap off, no preview, not saved, dialog closed and empty, no active patient, and the viewfinder on screen |
| Dashboard.Dashboard.ShowsViewfinder | frontend_vite/src/pages/Dashboard.tsx:245-264 | The viewfinder is shown while the preview is falsy; on a valid page, whose preview is never empty, that is exactly while no image is previewed |
| Dashboard.Dashboard.ShowResults | frontend_vite/src/pages/Dashboard.tsx:33-36 | Arriving results replace the shown ones and update the overlay by the heatmap rule; nothing else changes |
| Dashboard.Dashboard.HandleCapture | frontend_vite/src/pages/Dashboard.tsx:23-79 | A present image becomes the preview; data with results is shown; data without results changes nothing; an image without data starts exactly one upload with the upload form; a present image hides the viewfinder, and a missing or empty one leaves it as it was |
| Dashboard.Dashboard.UploadSettled | frontend_vite/src/pages/Dashboard.tsx:62-77 | A failed or non-ok upload raises the alert and leaves the results and the overlay unchanged; an ok reply with results updates them as when data arrives directly |
| Dashboard.Dashboard.ToggleHeatmap | frontend_vite/src/pages/Dashboard.tsx:95 | The toggle negates the overlay and changes nothing else |
| Dashboard.Dashboard.SaveToEHR | frontend_vite/src/pages/Dashboard.tsx:104-111 | Saving marks the page as saved and changes nothing else |
| Dashboard.Dashboard.ClearImage | frontend_vite/src/pages/Dashboard.tsx:249 | Clearing removes the preview and brings back the viewfinder |
| Dashboard.Dashboard.OpenPatientModal | frontend_vite/src/pages/Dashboard.tsx:136 | The dialog opens, with its inputs as they were |
| Dashboard.Dashboard.CancelPatientModal | frontend_vite/src/pages/Dashboard.tsx:216 | The dialog closes; its inputs and the active patient are unchanged |
| Dashboard.Dashboard.EditName | frontend_vite/src/pages/Dashboard.tsx:177 | Typing sets the name input only |
| Dashboard.Dashboard.EditMobile | frontend_vite/src/pages/Dashboard.tsx:187 | Typing sets the mobile input only |
| Dashboard.Dashboard.SaveAndContinue | frontend_vite/src/pages/Dashboard.tsx:222-229 | The typed patient becomes active, and the dialog closes, exactly when both inputs are non-empty; otherwise nothing changes |
| Dashboard.Dashboard.Lookup | frontend_vite/src/pages/Dashboard.tsx:192-205 | An empty mobile sends no request; otherwise the first row with that mobile supplies the name, and with no match or a failed request the name is unchanged |
| Dashboard.ToggleTwiceRestores | frontend_vite/src/pages/Dashboard.tsx:95 | Toggling twice restores the overlay, and the preview and the patient dialog are unchanged |
| Dashboard.SaveTwiceIsSaveOnce | frontend_vite/src/pages/Dashboard.tsx:106-111 | Saving twice is the same as saving once; the results, the preview and the patient dialog are unchanged |
| Dashboard.ScanIntoDashboard | frontend_vite/src/pages/Dashboard.tsx:23-37 | A scan handed to the console previews the image, hiding the viewfinder, shows the reply's results when it has any, and never starts a second upload; an empty screenshot or a failed scan leaves the view unchanged; the saved flag and the patient dialog never change |
| Dashboard.WalkInUploadGetsFreshId | frontend_vite/src/pages/Dashboard.tsx:52-55 | The server reads a walk-in upload as "Walk-in Patient" with mobile "Unknown", so it always gets a fresh patient ID |
| Dashboard.PatientUploadCarriesPatient | frontend_vite/src/pages/Dashboard.tsx:49-51 | The server reads an active patient's upload under that patient's name and mobile |
| Dashboard.ScanUploadIsAnonymous | frontend_vite/src/components/SmartViewfinder.tsx:81-82 | The server reads a viewfinder scan as "Unknown Patient" with mobile "Unknown", so it always gets a fresh patient ID |
| Dashboard.HeatmapFollowsGrade | frontend_vite/src/pages/Dashboard.tsx:65-71 | The server's reply to grade g, as the page receives it, delivers results, and they switch the overlay on exactly when it was on or g ≠ 0 |
| Dashboard.ErrorReplyIsSilent | frontend_vite/src/pages/Dashboard.tsx:61-76 | The server's error reply is an ok answer without results, so the page raises no alert and changes nothing |
| Dashboard.UnknownMobileNeverFound | frontend_vite/src/pages/Dashboard.tsx:197 | No `/patients` row has the mobile "Unknown", so a lookup for it finds nothing |
| PatientsPage.BadgeFor | frontend_vite/src/pages/Patients.tsx:66-68 | Emerald exactly when the status contains "Normal"; rose exactly when it contains "Severe" but not "Normal"; amber otherwise, including a missing or empty status |
| PatientsPage.StatusText | frontend_vite/src/pages/Patients.tsx:69 | A non-empty status is shown verbatim; a missing or empty one shows "Pending" |
| PatientsPage.NormalLabelIsEmerald | frontend_vite/src/pages/Patients.tsx:66 | The grade-0 label contains "Normal" |
| PatientsPage.OtherLabelIsAmber | frontend_vite/src/pages/Patients.tsx:66-68 | A label without an "N" or an "S" gets the amber badge |
| PatientsPage.GradeBadge | frontend_vite/src/pages/Patients.tsx:66-69 | Grade 0 is emerald, grade 3 rose, and grades 1, 2 and 4 amber; each label is shown verbatim |

## Left out

- Model inference (PyTorch, softmax, preprocessing) and all training code: the grade and the confidence are inputs.
- Analyze.AnalyzeScan: the grade is the argmax over five classes, so it always has a label. The model's unlabelled-grade branch stands for any exception raised before `insert_one` (reading the upload, opening the image, running the model); which of them occurs, and the file already written, are not modelled.
- UUIDs, the ObjectId the database assigns, `random.randint` and the clock: these are drawn values, given as inputs.
- Writing the upload to disk, `StaticFiles` and `os.path.exists`: file existence is a set of paths given as input.
- MongoDB: `find_one`, `find().sort().to_list()` and `insert_one` are reference functions over a sequence. The `$group` aggregation with its `$first`/`$last`/`$max` semantics is an input sequence of groups.
- Queries.SortNewestFirst: the order of scans with equal timestamps is not fixed. MongoDB does not promise one either.
- ReportLab drawing, fonts and `textwrap.wrap`: only the y-coordinate and page-break arithmetic are modelled, with the number of wrapped lines of each item given.
- The text of the error messages, such as a `KeyError` message in the `/analyze` error reply or the 500 detail: only which outcome occurs is modelled.
- Analyze.Round4: Python formats the binary double, whose ties can round either way. The model rounds exact reals with ties upward.
- Viewfinder.MeasureFrame: the totals are exact reals, not double-precision sums. Frame bytes are unconstrained integers rather than clamped 0..255 values.
- Webcam capture, the canvas resampling to 100×100 and `getImageData`: the frame is a given buffer of 4·n bytes, n > 0, or missing.
- `fetch`, `FormData`, `FileReader`, Blob conversion, `alert` and `console`: request outcomes are inputs, and forms are returned as field lists.
- Concurrent requests to the server: each handler is one atomic step. `analyze_scan` awaits between `find_one` and `insert_one`, so two first uploads for the same new mobile that run at once can each get a fresh patient ID; Analyze.AnalyzeKeepsIdsFollowingMobile holds for calls that run one at a time.
- The 500 ms polling interval and the 2000 ms reset timer: these are discrete events. The stale `status` captured by the polling closure, and overlapping scans, concern interleaving and are left out.
- Dashboard.Dashboard.Lookup: the click and the reply are one event, so typing while the request is in flight is not modelled. In the source the reply is compared with the mobile from the click and overwrites any name typed meanwhile.
- Analyze.ParseAnalyzeForm: a form entry of the other kind under a field's name, such as a file entry named `patient_name` or a text entry named `file`, is not modelled; Starlette would read it too. The pages never send such forms.
- Report.FindScan: a stored ObjectId is compared by its hex text in lower case, the form in which `str(ObjectId)` prints it; the `ObjectId` type itself, 12 bytes, is not modelled.
- Rendering, animation, styling, routing, the confidence meter, percentage formatting and the history page: these are presentation only.

## Findings

| source | as written | input that shows it | evidently intended | confidence | as-written member | corrected member |
|---|---|---|---|---|---|---|
| backend/main.py:164-168 | The 404 for a missing scan is raised inside `try`, so `except Exception` re-raises it as a 500 | the well-formed ID `0123456789abcdef01234567` on an empty collection | a missing scan is answered 404 "Scan not found" | not executed | Report.GenerateReportAsWritten | Report.GenerateReport |
