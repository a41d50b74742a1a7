/** The per-frame decision: the detection model's three index-aligned output
    arrays (boxes, scores, classes) are scanned for weed, the boxes of the
    selected entries are drawn, and the single outcome "weed detected" is
    forwarded to the pump notifier. */
module Detection {
  import opened Pump

  /** An entry is kept only when its score is strictly above this. */
  const ScoreThreshold: real := 0.6
  /** The class identifier of weed. */
  const WeedClass: real := 1.0

  /** A box in normalised coordinates, in the model's output order. */
  datatype Box = Box(yMin: real, xMin: real, yMax: real, xMax: real)

  /** A rectangle in canvas pixels: corner, width, height. */
  datatype Rect = Rect(x: real, y: real, width: real, height: real)

  /** How a frame's scan ends: normally, with the outcome and the indices
      whose boxes were drawn (in order), or by an exception when a selected
      entry has no box to destructure. */
  datatype Scan = Scanned(weedDetected: bool, drawn: seq<nat>) | BoxMissing(index: nat)

  /** Entry `i` is selected: its score is above the threshold and its class
      is weed. A class read past the end of `classes` is `undefined`, which
      is never the weed class. */
  predicate Selected(scores: seq<real>, classes: seq<real>, i: int)
  {
    0 <= i < |scores| && i < |classes| && scores[i] > ScoreThreshold && classes[i] == WeedClass
  }

  /** Some entry of the frame is selected. */
  predicate AnyWeed(scores: seq<real>, classes: seq<real>)
  {
    exists i :: 0 <= i < |scores| && Selected(scores, classes, i)
  }

  /** What the scan of one frame promises: it throws exactly when a selected
      entry lies beyond `boxes`, at the first such entry; otherwise
      `weedDetected` holds iff some entry is selected, and `drawn` lists
      exactly the selected indices, in increasing order. */
  ghost predicate ScanMeets(boxes: seq<Box>, scores: seq<real>, classes: seq<real>, r: Scan)
  {
    (r.BoxMissing? <==> exists i :: Selected(scores, classes, i) && |boxes| <= i) &&
    (r.BoxMissing? ==>
      Selected(scores, classes, r.index) && |boxes| <= r.index &&
      forall j :: Selected(scores, classes, j) && j < r.index ==> j < |boxes|) &&
    (r.Scanned? ==>
      (r.weedDetected <==> AnyWeed(scores, classes)) &&
      (forall k :: 0 <= k < |r.drawn| ==> Selected(scores, classes, r.drawn[k])) &&
      (forall i :: Selected(scores, classes, i) ==> i in r.drawn) &&
      (forall k, l :: 0 <= k < l < |r.drawn| ==> r.drawn[k] < r.drawn[l]))
  }

  /** The selection loop of drawResults: visits every index of `scores`,
      keeps the selected ones and folds them into `weedDetected`. */
  method ScanDetections(boxes: seq<Box>, scores: seq<real>, classes: seq<real>) returns (r: Scan)
    ensures ScanMeets(boxes, scores, classes, r)
  {
    var weedDetected := false;
    var drawn: seq<nat> := [];
    for i := 0 to |scores|
      invariant weedDetected <==> exists j :: Selected(scores, classes, j) && j < i
      invariant forall k :: 0 <= k < |drawn| ==> Selected(scores, classes, drawn[k]) && drawn[k] < i
      invariant forall j :: Selected(scores, classes, j) && j < i ==> j in drawn && j < |boxes|
      invariant forall k, l :: 0 <= k < l < |drawn| ==> drawn[k] < drawn[l]
    {
      if scores[i] > ScoreThreshold && i < |classes| && classes[i] == WeedClass {
        assert Selected(scores, classes, i);
        if |boxes| <= i {
          return BoxMissing(i);
        }
        drawn := drawn + [i];
        weedDetected := true;
      }
    }
    return Scanned(weedDetected, drawn);
  }

  /** drawResults: scans the frame and, unless the scan threw, calls the
      notifier exactly once, with the frame's outcome. */
  method DrawResults(pump: PumpNotifier, boxes: seq<Box>, scores: seq<real>, classes: seq<real>)
    returns (r: Scan)
    requires pump.Valid()
    modifies pump
    ensures pump.Valid()
    ensures ScanMeets(boxes, scores, classes, r)
    ensures r.BoxMissing? ==> unchanged(pump)
    ensures r.Scanned? ==> pump.calls == old(pump.calls) + [r.weedDetected]
    ensures r.Scanned? ==> pump.lastState == Some(r.weedDetected)
    ensures r.Scanned? && old(pump.lastState) == Some(r.weedDetected) ==> pump.sent == old(pump.sent)
    ensures r.Scanned? && old(pump.lastState) != Some(r.weedDetected) ==>
      pump.sent == old(pump.sent) + [PumpUrl(r.weedDetected)]
  {
    r := ScanDetections(boxes, scores, classes);
    if r.BoxMissing? {
      return;
    }
    if r.weedDetected {
      pump.SendPumpSignal(true);
    } else {
      pump.SendPumpSignal(false);
    }
  }

  /** The arrays with entry `i` removed. */
  function Without<T>(s: seq<T>, i: nat): (t: seq<T>)
    requires i < |s|
    ensures |t| == |s| - 1
  {
    s[..i] + s[i + 1..]
  }

  /** Entry `k` of the arrays without entry `i` is entry `k` or `k + 1` of
      the original. */
  lemma WithoutAt<T>(s: seq<T>, i: nat, k: nat)
    requires i < |s| && k < |s| - 1
    ensures Without(s, i)[k] == if k < i then s[k] else s[k + 1]
  {
  }

  /** An entry that is not selected has no influence on the outcome: the
      frame without it detects weed iff the frame with it does. */
  lemma DropUnselected(scores: seq<real>, classes: seq<real>, i: nat)
    requires i < |scores| && i < |classes| && !Selected(scores, classes, i)
    ensures AnyWeed(scores, classes) <==> AnyWeed(Without(scores, i), Without(classes, i))
  {
    var s', c' := Without(scores, i), Without(classes, i);
    if AnyWeed(scores, classes) {
      var j :| 0 <= j < |scores| && Selected(scores, classes, j);
      var j' := if j < i then j else j - 1;
      WithoutAt(scores, i, j');
      WithoutAt(classes, i, j');
      assert Selected(s', c', j');
    }
    if AnyWeed(s', c') {
      var j' :| 0 <= j' < |s'| && Selected(s', c', j');
      WithoutAt(scores, i, j');
      WithoutAt(classes, i, j');
      var j := if j' < i then j' else j' + 1;
      assert Selected(scores, classes, j);
    }
  }

  /** The threshold is strict: an entry scoring exactly 0.6 never counts,
      even with the weed class. */
  lemma ExactThresholdIgnored(scores: seq<real>, classes: seq<real>, i: nat)
    requires i < |scores| && i < |classes| && scores[i] == 0.6 && classes[i] == 1.0
    ensures AnyWeed(scores, classes) <==> AnyWeed(Without(scores, i), Without(classes, i))
  {
    DropUnselected(scores, classes, i);
  }

  /** An entry whose class is not weed never counts, whatever its score. */
  lemma OtherClassIgnored(scores: seq<real>, classes: seq<real>, i: nat)
    requires i < |scores| && i < |classes| && classes[i] != 1.0
    ensures AnyWeed(scores, classes) <==> AnyWeed(Without(scores, i), Without(classes, i))
  {
    DropUnselected(scores, classes, i);
  }

  /** The canvas rectangle drawn for a box on a canvas of the given size. */
  function PixelRect(b: Box, canvasWidth: real, canvasHeight: real): (r: Rect)
    ensures r.x + r.width == b.xMax * canvasWidth
    ensures r.y + r.height == b.yMax * canvasHeight
  {
    var x := b.xMin * canvasWidth;
    var y := b.yMin * canvasHeight;
    Rect(x, y, (b.xMax - b.xMin) * canvasWidth, (b.yMax - b.yMin) * canvasHeight)
  }

  /** The rectangle of a box maps the box's corners onto the canvas: for
      the box (0.1, 0.2, 0.5, 0.6) it starts at (0.2 W, 0.1 H) and is
      0.4 W wide and 0.4 H high. */
  lemma PixelRectExample(canvasWidth: real, canvasHeight: real)
    ensures PixelRect(Box(0.1, 0.2, 0.5, 0.6), canvasWidth, canvasHeight)
      == Rect(0.2 * canvasWidth, 0.1 * canvasHeight, 0.4 * canvasWidth, 0.4 * canvasHeight)
  {
  }
}
