/** The capture quality gate of the webcam viewfinder: every tick scores
    one downscaled RGBA frame for "eye-likeness" (0, 50 or 100) and
    moves the status between searching and aligned; a scan is accepted
    only when aligned, holds the status at scanning while the upload is
    in flight and through the fixed cool-down, then returns to
    searching. Real time is replaced by explicit events: a quality tick,
    the upload settling, and the cool-down timer firing. */
module Viewfinder {
  import opened Common
  import opened Api

  datatype Status = Searching | Aligned | Scanning

  /** Sum of the red bytes of the whole pixels of an RGBA buffer (every
      fourth byte, starting at 0). */
  function RedTotal(data: seq<int>): int
  {
    if |data| < 4 then 0
    else RedTotal(data[..|data| - 4]) + data[|data| - 4]
  }

  /** Sum over the whole pixels of the mean of red, green and blue; alpha
      is ignored. */
  function BrightnessTotal(data: seq<int>): real
  {
    if |data| < 4 then 0.0
    else
      var p := |data| - 4;
      BrightnessTotal(data[..p]) + (data[p] + data[p + 1] + data[p + 2]) as real / 3.0
  }

  /** `avgRed > avgBright * 1.05`. */
  predicate IsReddish(totalRed: int, totalBrightness: real, pixels: nat)
    requires pixels > 0
  {
    totalRed as real / pixels as real > totalBrightness / pixels as real * 1.05
  }

  /** `avgBright > 30 && avgBright < 230`. */
  predicate HasDetail(totalBrightness: real, pixels: nat)
    requires pixels > 0
  {
    var avg := totalBrightness / pixels as real;
    avg > 30.0 && avg < 230.0
  }

  /** 50 points for each rule that holds. */
  function Score(reddish: bool, detail: bool): (score: int)
    ensures score == 0 || score == 50 || score == 100
    ensures score == 100 <==> reddish && detail
    ensures score == 0 <==> !reddish && !detail
  {
    (if reddish then 50 else 0) + (if detail then 50 else 0)
  }

  /** The score of a frame of `|data| / 4` pixels. */
  function FrameScore(data: seq<int>): int
    requires |data| % 4 == 0 && |data| > 0
  {
    var pixels := |data| / 4;
    Score(IsReddish(RedTotal(data), BrightnessTotal(data), pixels),
          HasDetail(BrightnessTotal(data), pixels))
  }

  /** The pixel loop: visits bytes 0, 4, 8, ... and accumulates the two
      totals. */
  method MeasureFrame(frame: array<int>) returns (totalRed: int, totalBrightness: real)
    requires frame.Length % 4 == 0
    ensures totalRed == RedTotal(frame[..])
    ensures totalBrightness == BrightnessTotal(frame[..])
  {
    totalRed, totalBrightness := 0, 0.0;
    var i := 0;
    while i < frame.Length
      invariant 0 <= i <= frame.Length && i % 4 == 0
      invariant totalRed == RedTotal(frame[..i])
      invariant totalBrightness == BrightnessTotal(frame[..i])
    {
      assert frame[..i + 4][..i] == frame[..i];
      totalRed := totalRed + frame[i];
      totalBrightness := totalBrightness + (frame[i] + frame[i + 1] + frame[i + 2]) as real / 3.0;
      i := i + 4;
    }
    assert frame[..i] == frame[..];
  }

  /** The averages and the two rules applied to one frame. */
  method QualityScore(frame: array<int>) returns (score: int)
    requires frame.Length % 4 == 0 && frame.Length > 0
    ensures score == FrameScore(frame[..])
    ensures score == 0 || score == 50 || score == 100
  {
    var totalRed, totalBrightness := MeasureFrame(frame);
    var pixels := frame.Length / 4;
    var avgRed := totalRed as real / pixels as real;
    var avgBright := totalBrightness / pixels as real;
    var isReddish := avgRed > avgBright * 1.05;
    var hasDetail := avgBright > 30.0 && avgBright < 230.0;
    score := (if isReddish then 50 else 0) + (if hasDetail then 50 else 0);
  }

  /** Dividing both sides by the same positive count keeps the order. */
  lemma DivideBoth(x: real, y: real, n: real)
    requires n > 0.0
    ensures x / n > y / n <==> x > y
  {
    assert x / n * n == x && y / n * n == y;
    if x / n > y / n {
      assert (x / n - y / n) * n > 0.0;
    }
    if x > y {
      assert (x - y) / n > 0.0;
    }
  }

  lemma ScaleQuotient(x: real, c: real, n: real)
    requires n > 0.0
    ensures x / n * c == (x * c) / n
  {
    var q := x / n;
    assert q * n == x;
    assert (q * c) * n == x * c;
  }

  /** Both averages divide by the same pixel count, so the redness rule
      compares the totals: 100 * red > 105 * brightness. */
  lemma ReddishOnTotals(totalRed: int, totalBrightness: real, pixels: nat)
    requires pixels > 0
    ensures IsReddish(totalRed, totalBrightness, pixels) <==> 100.0 * totalRed as real > 105.0 * totalBrightness
  {
    var n := pixels as real;
    var red := totalRed as real;
    var scaled := totalBrightness * 1.05;
    ScaleQuotient(totalBrightness, 1.05, n);
    assert IsReddish(totalRed, totalBrightness, pixels) <==> red / n > totalBrightness / n * 1.05;
    assert totalBrightness / n * 1.05 == scaled / n;
    DivideBoth(red, scaled, n);
    assert red > scaled <==> 100.0 * red > 105.0 * totalBrightness;
  }

  /** The detail rule on totals: strictly between 30 and 230 per pixel;
      an average of exactly 30 or 230 fails. */
  lemma DetailOnTotals(totalBrightness: real, pixels: nat)
    requires pixels > 0
    ensures HasDetail(totalBrightness, pixels) <==>
      30.0 * pixels as real < totalBrightness < 230.0 * pixels as real
    ensures totalBrightness == 30.0 * pixels as real ==> !HasDetail(totalBrightness, pixels)
    ensures totalBrightness == 230.0 * pixels as real ==> !HasDetail(totalBrightness, pixels)
  {
    var n := pixels as real;
    assert (30.0 * n) / n == 30.0 && (230.0 * n) / n == 230.0;
    DivideBoth(totalBrightness, 30.0 * n, n);
    DivideBoth(230.0 * n, totalBrightness, n);
  }

  /** `n` pixels of the same colour. */
  function UniformFrame(n: nat, r: int, g: int, b: int, a: int): (data: seq<int>)
    ensures |data| == 4 * n
  {
    if n == 0 then [] else UniformFrame(n - 1, r, g, b, a) + [r, g, b, a]
  }

  lemma {:induction false} UniformRed(n: nat, r: int, g: int, b: int, a: int)
    ensures RedTotal(UniformFrame(n, r, g, b, a)) == n * r
  {
    if n > 0 {
      var data := UniformFrame(n, r, g, b, a);
      var prev := UniformFrame(n - 1, r, g, b, a);
      assert data[..|data| - 4] == prev;
      assert data[|data| - 4] == r;
      assert RedTotal(data) == RedTotal(prev) + r;
      UniformRed(n - 1, r, g, b, a);
      MultiplyStep(n, r);
    }
  }

  lemma MultiplyStep(n: int, x: int)
    ensures (n - 1) * x + x == n * x
  {
  }

  lemma {:induction false} UniformBrightness(n: nat, r: int, g: int, b: int, a: int)
    ensures BrightnessTotal(UniformFrame(n, r, g, b, a)) == (n * (r + g + b)) as real / 3.0
  {
    if n > 0 {
      var data := UniformFrame(n, r, g, b, a);
      var prev := UniformFrame(n - 1, r, g, b, a);
      var p := |data| - 4;
      assert data[..p] == prev;
      assert data[p] == r && data[p + 1] == g && data[p + 2] == b;
      var sum := r + g + b;
      assert BrightnessTotal(data) == BrightnessTotal(prev) + sum as real / 3.0;
      UniformBrightness(n - 1, r, g, b, a);
      MultiplyStep(n, sum);
      AddThirds((n - 1) * sum, sum);
    }
  }

  lemma AddThirds(x: int, y: int)
    ensures x as real / 3.0 + y as real / 3.0 == (x + y) as real / 3.0
  {
  }

  /** For `n` equal pixels the totals are n * r and n * (r + g + b) / 3. */
  lemma UniformTotals(n: nat, r: int, g: int, b: int, a: int)
    ensures RedTotal(UniformFrame(n, r, g, b, a)) == n * r
    ensures BrightnessTotal(UniformFrame(n, r, g, b, a)) == (n * (r + g + b)) as real / 3.0
  {
    UniformRed(n, r, g, b, a);
    UniformBrightness(n, r, g, b, a);
  }

  /** A uniform frame scores on its colour alone: reddish when
      20 * r > 7 * (r + g + b), detailed when 90 < r + g + b < 690. */
  lemma UniformScore(n: nat, r: int, g: int, b: int, a: int)
    requires n > 0
    ensures FrameScore(UniformFrame(n, r, g, b, a)) ==
      Score(20 * r > 7 * (r + g + b), 90 < r + g + b < 690)
  {
    var data := UniformFrame(n, r, g, b, a);
    assert |data| / 4 == n;
    UniformTotals(n, r, g, b, a);
    var sum := r + g + b;
    UniformReddish(n, r, sum);
    UniformDetail(n, sum);
  }

  lemma UniformReddish(n: nat, r: int, sum: int)
    requires n > 0
    ensures IsReddish(n * r, (n * sum) as real / 3.0, n) <==> 20 * r > 7 * sum
  {
    var tb := (n * sum) as real / 3.0;
    ReddishOnTotals(n * r, tb, n);
    assert 105.0 * tb == (35 * (n * sum)) as real;
    assert 100.0 * (n * r) as real == (100 * (n * r)) as real;
    assert 100 * (n * r) - 35 * (n * sum) == n * (100 * r - 35 * sum);
    SignOfProduct(n, 100 * r - 35 * sum);
  }

  lemma UniformDetail(n: nat, sum: int)
    requires n > 0
    ensures HasDetail((n * sum) as real / 3.0, n) <==> 90 < sum < 690
  {
    var tb := (n * sum) as real / 3.0;
    DetailOnTotals(tb, n);
    assert 30.0 * n as real < tb <==> 90 * n < n * sum;
    assert tb < 230.0 * n as real <==> n * sum < 690 * n;
    assert n * sum - 90 * n == n * (sum - 90);
    assert 690 * n - n * sum == n * (690 - sum);
    SignOfProduct(n, sum - 90);
    SignOfProduct(n, 690 - sum);
  }

  lemma SignOfProduct(n: nat, m: int)
    requires n > 0
    ensures n * m > 0 <==> m > 0
  {
    if m > 0 { assert n * m >= m; }
    if m <= 0 { assert n * m <= 0; }
  }

  /** Black and white frames score 0; uniform (200, 50, 50) scores 100. */
  lemma ReferenceFrames(n: nat)
    requires n > 0
    ensures FrameScore(UniformFrame(n, 0, 0, 0, 255)) == 0
    ensures FrameScore(UniformFrame(n, 255, 255, 255, 255)) == 0
    ensures FrameScore(UniformFrame(n, 200, 50, 50, 255)) == 100
  {
    UniformScore(n, 0, 0, 0, 255);
    UniformScore(n, 255, 255, 255, 255);
    UniformScore(n, 200, 50, 50, 255);
  }

  /** The status after a tick that scored `score`. */
  function NextStatus(status: Status, score: int): (next: Status)
    ensures status == Scanning ==> next == Scanning
    ensures status != Scanning ==> (next == Aligned <==> score >= 80)
    ensures status != Scanning ==> next != Scanning
  {
    if score >= 80 && status != Scanning then Aligned
    else if status != Scanning then Searching
    else status
  }

  /** Outside a scan the viewfinder is aligned exactly on a frame that
      satisfies both rules. */
  lemma AlignedIffBothRules(status: Status, data: seq<int>)
    requires |data| % 4 == 0 && |data| > 0
    requires status != Scanning
    ensures var pixels := |data| / 4;
      NextStatus(status, FrameScore(data)) == Aligned <==>
        IsReddish(RedTotal(data), BrightnessTotal(data), pixels) &&
        HasDetail(BrightnessTotal(data), pixels)
  {
  }

  /** Where a scan stands: no upload; the upload of `image` in flight;
      waiting for the 2000 ms reset. */
  datatype ScanPhase = Idle | Submitting(image: Image) | CoolingDown

  /** The form the viewfinder posts: one `file` field. */
  function ScanForm(image: Image): (form: seq<FormField>)
    ensures FieldNames(form) == ["file"]
    ensures |form| == 1 && form[0] == FileField("file", image, "scan.jpg")
  {
    [FileField("file", image, "scan.jpg")]
  }

  class Viewfinder {
    var status: Status
    var qualityMetric: int
    var phase: ScanPhase

    /** The status is scanning exactly while a scan is under way, and
        the quality metric is always a possible score. */
    ghost predicate Valid()
      reads this
    {
      (status == Scanning <==> !phase.Idle?) &&
      (qualityMetric == 0 || qualityMetric == 50 || qualityMetric == 100)
    }

    constructor ()
      ensures Valid()
      ensures status == Searching && qualityMetric == 0 && phase == Idle
    {
      status := Searching;
      qualityMetric := 0;
      phase := Idle;
    }

    /** `checkImageQuality`: `None` when the webcam, its screenshot or
        the canvas context is unavailable. */
    method CheckImageQuality(frame: Option<array<int>>)
      requires Valid()
      requires frame.Some? ==> frame.value.Length % 4 == 0 && frame.value.Length > 0
      modifies this
      ensures Valid()
      ensures frame.None? ==> status == old(status) && qualityMetric == old(qualityMetric)
      ensures frame.Some? ==> qualityMetric == FrameScore(frame.value[..])
      ensures frame.Some? ==> status == NextStatus(old(status), qualityMetric)
      ensures phase == old(phase)
    {
      if frame.None? {
        return;
      }
      var score := QualityScore(frame.value);
      qualityMetric := score;
      if score >= 80 && status != Scanning {
        status := Aligned;
      } else if status != Scanning {
        status := Searching;
      }
    }

    /** `handleScan`: ignored unless aligned; with no screenshot (none,
        or the empty data URL) it falls back to searching without a
        request; otherwise it returns the form it posts. */
    method HandleScan(screenshot: Option<Image>) returns (request: Option<seq<FormField>>)
      requires Valid()
      modifies this
      ensures Valid()
      ensures qualityMetric == old(qualityMetric)
      ensures old(status) != Aligned ==> request.None? && status == old(status) && phase == old(phase)
      ensures old(status) == Aligned && !Present(screenshot) ==> request.None? && status == Searching && phase == Idle
      ensures old(status) == Aligned && Present(screenshot) ==>
                request == Some(ScanForm(screenshot.value)) &&
                status == Scanning && phase == Submitting(screenshot.value)
    {
      request := None;
      if status != Aligned {
        return;
      }
      status := Scanning;
      if !Present(screenshot) {
        status := Searching;
        return;
      }
      phase := Submitting(screenshot.value);
      request := Some(ScanForm(screenshot.value));
    }

    /** The upload settled: `reply` is the decoded JSON, or `None` when
        the request or the decoding threw. A reply is handed on with the
        image; either way the 2000 ms reset is armed. */
    method SubmissionSettled(reply: Option<Reply>) returns (captured: Option<(Image, Reply)>)
      requires Valid()
      requires phase.Submitting?
      modifies this
      ensures Valid()
      ensures status == Scanning && phase == CoolingDown && qualityMetric == old(qualityMetric)
      ensures captured.Some? <==> reply.Some?
      ensures reply.Some? ==> captured == Some((old(phase).image, reply.value))
    {
      captured := if reply.Some? then Some((phase.image, reply.value)) else None;
      phase := CoolingDown;
    }

    /** The reset timer fires: back to searching, whatever the outcome. */
    method ResetTimerFires()
      requires Valid()
      requires phase == CoolingDown
      modifies this
      ensures Valid()
      ensures status == Searching && phase == Idle && qualityMetric == old(qualityMetric)
    {
      status := Searching;
      phase := Idle;
    }
  }

  /** A whole scan from aligned: one request carrying only the file, then
      searching again after the reset, whether the upload succeeded or
      failed; an empty screenshot sends nothing and searches at once. */
  method ScanCycle(v: Viewfinder, image: Image, reply: Option<Reply>)
    returns (request: Option<seq<FormField>>, captured: Option<(Image, Reply)>)
    requires v.Valid() && v.status == Aligned
    modifies v
    ensures v.Valid() && v.status == Searching && v.phase == Idle
    ensures request.Some? <==> image != ""
    ensures request.Some? ==> FieldNames(request.value) == ["file"]
    ensures captured.Some? <==> image != "" && reply.Some?
    ensures captured.Some? ==> captured.value == (image, reply.value)
  {
    request := v.HandleScan(Some(image));
    captured := None;
    if request.Some? {
      captured := v.SubmissionSettled(reply);
      v.ResetTimerFires();
    }
  }

  /** While a scan is under way, quality ticks leave the status alone. */
  method TicksDuringScan(v: Viewfinder, frame: array<int>)
    requires v.Valid() && v.status == Scanning
    requires frame.Length % 4 == 0 && frame.Length > 0
    modifies v
    ensures v.Valid() && v.status == Scanning && v.phase == old(v.phase)
  {
    v.CheckImageQuality(Some(frame));
    v.CheckImageQuality(None);
  }
}
