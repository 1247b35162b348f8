/** The `/report/{scan_id}` handler: finding the scan, deriving the
    image's local path from its URL, and the vertical layout of the
    three explanatory sections (`print_section`), whose only state is a
    running y-coordinate and the page breaks it causes. Drawing, fonts
    and `textwrap.wrap` are outside; the number of wrapped lines of each
    item is an input. */
module Report {
  import opened Common
  import opened Api
  import Analyze

  /** Height of a US-letter page in points (612 x 792). */
  const PageHeight: int := 792

  /** A new page starts writing here. */
  const TopOfPage: int := PageHeight - 50

  /** A section title is moved to a new page below this height ... */
  const TitleBreakBelow: int := 120

  /** ... and an item heading below this one. */
  const ItemBreakBelow: int := 100

  /** The report's `y`: the first line of the patient details. */
  const DetailsY: int := PageHeight - 170

  // ---------------------------------------------------------------
  // The image's local path

  /** `scan['file_url'].replace("http://localhost:8000/", "")`. */
  function LocalPath(fileUrl: string): (path: string)
    ensures !Includes(fileUrl, Analyze.ServerRoot) ==> path == fileUrl
  {
    var path := ReplaceAll(fileUrl, Analyze.ServerRoot, "");
    assert !Includes(fileUrl, Analyze.ServerRoot) ==> path == fileUrl by {
      if !Includes(fileUrl, Analyze.ServerRoot) {
        ReplaceAbsent(fileUrl, Analyze.ServerRoot, "");
      }
    }
    path
  }

  /** Stripping the server root from a stored URL gives back the path
      the upload was written to, unless the file name itself contains
      the server root. */
  lemma LocalPathRoundTrip(unique: string)
    requires !Includes(unique, Analyze.ServerRoot)
    ensures LocalPath(Analyze.FileUrl(unique)) == Analyze.FilePath(unique)
  {
    var root := Analyze.ServerRoot;
    var folder := "uploads/";
    assert forall k :: 0 <= k < |folder| ==> folder[k] != root[0];
    IncludesSkipsHead(folder, unique, root);
    assert Analyze.FileUrl(unique) == root + (folder + unique);
    ReplaceLeading(root, folder + unique, "");
    assert "" + (folder + unique) == folder + unique;
  }

  predicate IsUuidChar(c: char)
  {
    '0' <= c <= '9' || 'a' <= c <= 'f' || c == '-'
  }

  /** For the names the server builds (UUID text, `_`, client file
      name) only the client's file name can break the round trip. */
  lemma UploadPathRoundTrip(uuidText: string, filename: string)
    requires forall k :: 0 <= k < |uuidText| ==> IsUuidChar(uuidText[k])
    requires !Includes(filename, Analyze.ServerRoot)
    ensures var unique := Analyze.UniqueFilename(uuidText, filename);
      LocalPath(Analyze.FileUrl(unique)) == Analyze.FilePath(unique)
  {
    var root := Analyze.ServerRoot;
    var head := uuidText + "_";
    assert forall k :: 0 <= k < |head| ==> head[k] != root[0] by {
      forall k | 0 <= k < |head| ensures head[k] != root[0] {
        if k < |uuidText| { assert IsUuidChar(uuidText[k]); }
      }
    }
    IncludesSkipsHead(head, filename, root);
    assert Analyze.UniqueFilename(uuidText, filename) == head + filename;
    LocalPathRoundTrip(head + filename);
  }

  /** The two file names the pages send, `scan.jpg` and `upload.jpg`,
      always round-trip. */
  lemma PageUploadsRoundTrip(uuidText: string)
    requires forall k :: 0 <= k < |uuidText| ==> IsUuidChar(uuidText[k])
    ensures LocalPath(Analyze.FileUrl(Analyze.UniqueFilename(uuidText, "scan.jpg")))
         == Analyze.FilePath(Analyze.UniqueFilename(uuidText, "scan.jpg"))
    ensures LocalPath(Analyze.FileUrl(Analyze.UniqueFilename(uuidText, "upload.jpg")))
         == Analyze.FilePath(Analyze.UniqueFilename(uuidText, "upload.jpg"))
  {
    var root := Analyze.ServerRoot;
    var scanName, uploadName := "scan.jpg", "upload.jpg";
    assert !Includes("", root);
    assert forall k :: 0 <= k < |scanName| ==> scanName[k] != root[0];
    assert forall k :: 0 <= k < |uploadName| ==> uploadName[k] != root[0];
    IncludesSkipsHead(scanName, "", root);
    IncludesSkipsHead(uploadName, "", root);
    assert scanName + "" == scanName && uploadName + "" == uploadName;
    UploadPathRoundTrip(uuidText, scanName);
    UploadPathRoundTrip(uuidText, uploadName);
  }

  // ---------------------------------------------------------------
  // print_section

  /** The running y-coordinate and the number of `showPage` calls. */
  datatype Cursor = Cursor(y: int, breaks: nat)

  /** Start a new page when the cursor is below `threshold`. */
  function BreakBelow(c: Cursor, threshold: int): (d: Cursor)
    requires threshold <= TopOfPage
    ensures d.y >= threshold
    ensures d.breaks == c.breaks + (if c.y < threshold then 1 else 0)
    ensures c.y >= threshold ==> d == c
    ensures c.y < threshold ==> d == Cursor(TopOfPage, c.breaks + 1)
  {
    if c.y < threshold then Cursor(TopOfPage, c.breaks + 1) else c
  }

  /** After the section title (25 points), which is never drawn
      below 120. */
  function AfterTitle(startY: int): (c: Cursor)
    ensures c.breaks <= 1
    ensures c.y + 25 >= TitleBreakBelow
    ensures startY >= TitleBreakBelow ==> c == Cursor(startY - 25, 0)
    ensures startY < TitleBreakBelow ==> c == Cursor(TopOfPage - 25, 1)
  {
    var c := BreakBelow(Cursor(startY, 0), TitleBreakBelow);
    c.(y := c.y - 25)
  }

  /** After one item: its heading (15), its wrapped lines (12 each) and
      the gap (10). */
  function AfterItem(c: Cursor, lines: nat): (d: Cursor)
    ensures d.breaks <= c.breaks + 1
    ensures d.y + 25 + 12 * lines >= ItemBreakBelow
    ensures c.y >= ItemBreakBelow ==> d == Cursor(c.y - 25 - 12 * lines, c.breaks)
    ensures c.y < ItemBreakBelow ==> d == Cursor(TopOfPage - 25 - 12 * lines, c.breaks + 1)
  {
    var d := BreakBelow(c, ItemBreakBelow);
    d.(y := d.y - 15 - 12 * lines - 10)
  }

  function AfterItems(c: Cursor, itemLines: seq<nat>): (r: Cursor)
    ensures c.breaks <= r.breaks <= c.breaks + |itemLines|
  {
    if |itemLines| == 0 then c
    else AfterItem(AfterItems(c, itemLines[..|itemLines| - 1]), itemLines[|itemLines| - 1])
  }

  /** What `print_section` returns, with the breaks it made. */
  function SectionEnd(startY: int, itemLines: seq<nat>): (c: Cursor)
    ensures c.breaks <= |itemLines| + 1
  {
    var c := AfterItems(AfterTitle(startY), itemLines);
    c.(y := c.y - 10)
  }

  /** Where the heading of item `k` is drawn. */
  function ItemHeadingY(startY: int, itemLines: seq<nat>, k: nat): int
    requires k < |itemLines|
  {
    BreakBelow(AfterItems(AfterTitle(startY), itemLines[..k]), ItemBreakBelow).y
  }

  /** `print_section(title, items, start_y)`: draws the title and every
      item, breaking pages where the running y is too low; returns the
      y below the section, the y of the title and of every item heading,
      and the number of page breaks. No title is drawn below 120 and no
      item heading below 100. */
  method PrintSection(startY: int, itemLines: seq<nat>)
    returns (endY: int, titleY: int, headingYs: seq<int>, pageBreaks: nat)
    ensures endY == SectionEnd(startY, itemLines).y
    ensures pageBreaks == SectionEnd(startY, itemLines).breaks
    ensures titleY == (if startY < TitleBreakBelow then TopOfPage else startY)
    ensures titleY >= TitleBreakBelow
    ensures |headingYs| == |itemLines|
    ensures forall k :: 0 <= k < |itemLines| ==>
              headingYs[k] == ItemHeadingY(startY, itemLines, k) && headingYs[k] >= ItemBreakBelow
  {
    var currentY := startY;
    pageBreaks := 0;
    if currentY < TitleBreakBelow {
      currentY := TopOfPage;
      pageBreaks := 1;
    }
    titleY := currentY;
    currentY := currentY - 25;
    headingYs := [];
    var i := 0;
    while i < |itemLines|
      invariant 0 <= i <= |itemLines|
      invariant Cursor(currentY, pageBreaks) == AfterItems(AfterTitle(startY), itemLines[..i])
      invariant |headingYs| == i
      invariant forall k :: 0 <= k < i ==>
                  headingYs[k] == ItemHeadingY(startY, itemLines, k) && headingYs[k] >= ItemBreakBelow
    {
      assert itemLines[..i + 1][..i] == itemLines[..i];
      if currentY < ItemBreakBelow {
        currentY := TopOfPage;
        pageBreaks := pageBreaks + 1;
      }
      headingYs := headingYs + [currentY];
      var descY := currentY - 15;
      var j := 0;
      while j < itemLines[i]
        invariant 0 <= j <= itemLines[i]
        invariant descY == currentY - 15 - 12 * j
      {
        descY := descY - 12;
        j := j + 1;
      }
      currentY := descY - 10;
      i := i + 1;
    }
    assert itemLines[..i] == itemLines;
    endY := currentY - 10;
  }

  /** Vertical space of the items when no page break intervenes. */
  function ItemsHeight(itemLines: seq<nat>): int
  {
    if |itemLines| == 0 then 0
    else ItemsHeight(itemLines[..|itemLines| - 1]) + 25 + 12 * itemLines[|itemLines| - 1]
  }

  /** Without page breaks a section costs 35 points plus 25 and 12 per
      line for each item. */
  lemma {:induction false} ItemsWithoutBreak(c: Cursor, itemLines: seq<nat>)
    requires AfterItems(c, itemLines).breaks == c.breaks
    ensures AfterItems(c, itemLines).y == c.y - ItemsHeight(itemLines)
  {
    if |itemLines| > 0 {
      ItemsWithoutBreak(c, itemLines[..|itemLines| - 1]);
    }
  }

  lemma SectionWithoutBreak(startY: int, itemLines: seq<nat>)
    requires SectionEnd(startY, itemLines).breaks == 0
    ensures startY >= TitleBreakBelow
    ensures SectionEnd(startY, itemLines).y == startY - 35 - ItemsHeight(itemLines)
  {
    ItemsWithoutBreak(AfterTitle(startY), itemLines);
  }

  /** A section breaks the page at most once per item, plus once
      before its title, and before the title exactly when it starts
      below 120. */
  lemma SectionBreaksBound(startY: int, itemLines: seq<nat>)
    ensures SectionEnd(startY, itemLines).breaks <= |itemLines| + 1
    ensures AfterTitle(startY).breaks == 1 <==> startY < TitleBreakBelow
  {
  }

  // ---------------------------------------------------------------
  // generate_report

  /** Where the sections start: below the image when its file exists,
      higher up otherwise. */
  function ExplanationStart(imageExists: bool): int
  {
    if imageExists then DetailsY - 480 else DetailsY - 200
  }

  /** Number of wrapped lines of each item of the three sections. */
  datatype SectionLines = SectionLines(definitions: seq<nat>, implications: seq<nat>, diet: seq<nat>)

  /** Pages of the PDF: the three sections run one after another from
      the explanation start, and the final `showPage` closes the last. */
  function ReportPages(imageExists: bool, lines: SectionLines): (pages: nat)
    ensures 1 <= pages <= 4 + |lines.definitions| + |lines.implications| + |lines.diet|
  {
    var s1 := SectionEnd(ExplanationStart(imageExists), lines.definitions);
    var s2 := SectionEnd(s1.y, lines.implications);
    var s3 := SectionEnd(s2.y, lines.diet);
    SectionBreaksBound(ExplanationStart(imageExists), lines.definitions);
    SectionBreaksBound(s1.y, lines.implications);
    SectionBreaksBound(s2.y, lines.diet);
    1 + s1.breaks + s2.breaks + s3.breaks
  }

  datatype ReportReply = Pdf(filename: string, pages: nat) | HttpError(status: int)

  /** `ObjectId(scan_id)` accepts 24 hexadecimal digits. */
  predicate IsObjectIdText(s: string)
  {
    |s| == 24 && forall k :: 0 <= k < |s| ==> ('0' <= s[k] <= '9' || 'a' <= s[k] <= 'f' || 'A' <= s[k] <= 'F')
  }

  /** `find_one({"_id": ObjectId(scan_id)})`. `ObjectId` parses the hex
      digits in either case; stored ObjectIds carry lower-case hex. */
  function FindScan(store: seq<ScanRecord>, scanId: string): (r: Option<ScanRecord>)
    ensures r.Some? ==> r.value in store && r.value.id == ObjectId(Lower(scanId))
    ensures r.None? <==> forall k :: 0 <= k < |store| ==> store[k].id != ObjectId(Lower(scanId))
  {
    match FirstMatch(store, (s: ScanRecord) => s.id == ObjectId(Lower(scanId)))
    case None => None
    case Some(k) => Some(store[k])
  }

  /** The PDF for a found scan: the image section is laid out when the
      file its URL names exists. */
  function ReportFor(scanId: string, scan: ScanRecord, files: set<string>, lines: SectionLines): (r: ReportReply)
    ensures r.Pdf? && r.filename == "report_" + scanId + ".pdf" && r.pages >= 1
  {
    Pdf("report_" + scanId + ".pdf", ReportPages(LocalPath(scan.fileUrl) in files, lines))
  }

  /** `generate_report` as written: the 404 raised for a missing scan is
      inside the `try`, so `except Exception` turns it into a 500, as it
      does for an invalid identifier. */
  function GenerateReportAsWritten(store: seq<ScanRecord>, scanId: string, files: set<string>, lines: SectionLines)
    : (r: ReportReply)
    ensures r.HttpError? ==> r.status == 500
    ensures r.Pdf? <==> IsObjectIdText(scanId) && FindScan(store, scanId).Some?
  {
    if !IsObjectIdText(scanId) then HttpError(500)
    else
      match FindScan(store, scanId)
      case None => HttpError(500)
      case Some(scan) => ReportFor(scanId, scan, files, lines)
  }

  /** `generate_report` as evidently intended: a well-formed identifier
      of no stored scan is answered 404. */
  function GenerateReport(store: seq<ScanRecord>, scanId: string, files: set<string>, lines: SectionLines)
    : (r: ReportReply)
    ensures IsObjectIdText(scanId) && FindScan(store, scanId).None? ==> r == HttpError(404)
    ensures !IsObjectIdText(scanId) ==> r == HttpError(500)
    ensures r.Pdf? <==> IsObjectIdText(scanId) && FindScan(store, scanId).Some?
    ensures r.Pdf? ==> r.pages >= 1 && r.filename == "report_" + scanId + ".pdf"
  {
    if !IsObjectIdText(scanId) then HttpError(500)
    else
      match FindScan(store, scanId)
      case None => HttpError(404)
      case Some(scan) => ReportFor(scanId, scan, files, lines)
  }

  /** The discrepancy: an empty collection and a well-formed identifier
      get 500 from the code as written, 404 from the intended handler. */
  lemma MissingScanIsServerError(files: set<string>, lines: SectionLines)
    ensures var scanId := "0123456789abcdef01234567";
      && GenerateReportAsWritten([], scanId, files, lines) == HttpError(500)
      && GenerateReport([], scanId, files, lines) == HttpError(404)
  {
    var scanId := "0123456789abcdef01234567";
    assert IsObjectIdText(scanId);
  }

  /** The identifier is matched whatever the case of its hex digits:
      when some stored scan's ObjectId is the lower-case form of the
      requested text, the report is a PDF. */
  lemma AnyCaseIdFindsScan(store: seq<ScanRecord>, scanId: string, files: set<string>, lines: SectionLines)
    requires IsObjectIdText(scanId)
    requires exists k :: 0 <= k < |store| && store[k].id == ObjectId(Lower(scanId))
    ensures GenerateReport(store, scanId, files, lines).Pdf?
    ensures GenerateReportAsWritten(store, scanId, files, lines).Pdf?
  {
    assert FindScan(store, scanId).Some?;
  }

  /** Two identifiers that differ only in the case of their letters get
      the same answer, up to the PDF's name. */
  lemma IdCaseIrrelevant(store: seq<ScanRecord>, a: string, b: string, files: set<string>, lines: SectionLines)
    requires IsObjectIdText(a) && IsObjectIdText(b) && Lower(a) == Lower(b)
    ensures GenerateReport(store, a, files, lines).Pdf? == GenerateReport(store, b, files, lines).Pdf?
    ensures GenerateReport(store, a, files, lines).Pdf? ==>
              GenerateReport(store, a, files, lines).pages == GenerateReport(store, b, files, lines).pages
  {
    assert FindScan(store, a) == FindScan(store, b);
  }
}
