/** Median-cut palette quantisation (video2color/tool.go): start from one box
    holding every pixel, repeatedly split the box with the widest channel range
    at the median of that channel, and take the truncating mean of each
    non-empty box as a palette colour. */
module Quantize {
  import opened Wrappers
  import opened Types

  datatype ChannelName = R | G | B

  function Value(p: Pixel, c: ChannelName): Channel
  {
    match c
    case R => p.r
    case G => p.g
    case B => p.b
  }

  function Component(m: Rgba, c: ChannelName): Channel
  {
    match c
    case R => m.r
    case G => m.g
    case B => m.b
  }

  /** The order in which the split-channel choice prefers channels on a tie. */
  function Rank(c: ChannelName): nat
  {
    match c
    case R => 0
    case G => 1
    case B => 2
  }

  function Max3(x: int, y: int, z: int): int
  {
    if x >= y && x >= z then x else if y >= z then y else z
  }

  function Min(x: int, y: int): int
  {
    if x <= y then x else y
  }

  /** The source's `Box`: a working set of pixels and its per-channel bounds. */
  datatype Box = Box(pixels: seq<Pixel>, rMin: int, rMax: int, gMin: int, gMax: int, bMin: int, bMax: int)

  /** `&Box{Pixels: ps}`: Go zero-initialises the bounds. */
  function ZeroBox(ps: seq<Pixel>): Box
  {
    Box(ps, 0, 0, 0, 0, 0, 0)
  }

  function Low(b: Box, c: ChannelName): int
  {
    match c
    case R => b.rMin
    case G => b.gMin
    case B => b.bMin
  }

  function High(b: Box, c: ChannelName): int
  {
    match c
    case R => b.rMax
    case G => b.gMax
    case B => b.bMax
  }

  function Range(b: Box, c: ChannelName): int
  {
    High(b, c) - Low(b, c)
  }

  /** The widest channel range of a box, `max(rRange, gRange, bRange)`. */
  function Spread(b: Box): int
  {
    Max3(Range(b, R), Range(b, G), Range(b, B))
  }

  /** `v` is the smallest channel-`c` value among `ps`. */
  ghost predicate IsLowest(v: int, ps: seq<Pixel>, c: ChannelName)
  {
    && (exists i | 0 <= i < |ps| :: Value(ps[i], c) == v)
    && (forall i | 0 <= i < |ps| :: v <= Value(ps[i], c))
  }

  /** `v` is the largest channel-`c` value among `ps`. */
  ghost predicate IsHighest(v: int, ps: seq<Pixel>, c: ChannelName)
  {
    && (exists i | 0 <= i < |ps| :: Value(ps[i], c) == v)
    && (forall i | 0 <= i < |ps| :: Value(ps[i], c) <= v)
  }

  /** The bounds a box records are its pixels' true channel bounds; an empty
      box keeps Go's zero bounds. Every box the algorithm builds is like this. */
  ghost predicate RangesExact(b: Box)
  {
    if |b.pixels| == 0 then b == ZeroBox(b.pixels)
    else forall c :: IsLowest(Low(b, c), b.pixels, c) && IsHighest(High(b, c), b.pixels, c)
  }

  // ---------------------------------------------------------------------------
  // calculateBoxRange

  /** One iteration of `calculateBoxRange`'s loop: widen the bounds to cover `p`. */
  function Widen(b: Box, p: Pixel): Box
  {
    b.(rMin := if p.r < b.rMin then p.r else b.rMin,
       rMax := if p.r > b.rMax then p.r else b.rMax,
       gMin := if p.g < b.gMin then p.g else b.gMin,
       gMax := if p.g > b.gMax then p.g else b.gMax,
       bMin := if p.b < b.bMin then p.b else b.bMin,
       bMax := if p.b > b.bMax then p.b else b.bMax)
  }

  /** The loop of `calculateBoxRange` over `ps`, from the bounds in `b`. Each
      final bound is either the starting one or attained by some pixel, and
      no pixel lies outside the final bounds. */
  function RangeFold(b: Box, ps: seq<Pixel>): (r: Box)
    ensures r.pixels == b.pixels
    ensures forall c :: Low(r, c) <= Low(b, c) && High(b, c) <= High(r, c)
    ensures forall c, i | 0 <= i < |ps| :: Low(r, c) <= Value(ps[i], c) <= High(r, c)
    ensures forall c :: Low(r, c) == Low(b, c) || exists i | 0 <= i < |ps| :: Value(ps[i], c) == Low(r, c)
    ensures forall c :: High(r, c) == High(b, c) || exists i | 0 <= i < |ps| :: Value(ps[i], c) == High(r, c)
    decreases |ps|
  {
    if |ps| == 0 then b
    else
      var r := RangeFold(Widen(b, ps[0]), ps[1..]);
      assert forall i | 0 <= i < |ps[1..]| :: ps[1..][i] == ps[i + 1];
      r
  }

  /** `calculateBoxRange`: an empty box is left as it is; otherwise each bound
      becomes the true minimum or maximum of that channel over the box. */
  function CalculateBoxRange(box: Box): (r: Box)
    ensures r.pixels == box.pixels
    ensures |box.pixels| == 0 ==> r == box
    ensures |box.pixels| > 0 ==>
      forall c :: IsLowest(Low(r, c), r.pixels, c) && IsHighest(High(r, c), r.pixels, c)
  {
    if |box.pixels| == 0 then box
    else
      var start := box.(rMin := 255, rMax := 0, gMin := 255, gMax := 0, bMin := 255, bMax := 0);
      var r := RangeFold(start, box.pixels);
      assert forall c :: Low(r, c) <= Value(box.pixels[0], c) <= High(r, c);
      r
  }

  lemma SpreadOfExactBox(b: Box)
    requires RangesExact(b)
    ensures Spread(b) >= 0
  {
    if |b.pixels| > 0 {
      assert IsLowest(Low(b, R), b.pixels, R) && IsHighest(High(b, R), b.pixels, R);
      assert Low(b, R) <= Value(b.pixels[0], R) <= High(b, R);
    }
  }

  // ---------------------------------------------------------------------------
  // Choosing the box and the channel

  /** The scan for the box to split, from position `i` on, having kept the
      first box whose spread is strictly greater than every earlier one. */
  function WidestFrom(boxes: seq<Box>, i: nat, best: Option<nat>, maxRange: int): (k: Option<nat>)
    requires i <= |boxes|
    requires best.None? ==> maxRange == -1 && forall j | 0 <= j < i :: Spread(boxes[j]) <= -1
    requires best.Some? ==>
      && best.value < i
      && maxRange >= 0
      && Spread(boxes[best.value]) == maxRange
      && (forall j | 0 <= j < i :: Spread(boxes[j]) <= maxRange)
      && (forall j | 0 <= j < best.value :: Spread(boxes[j]) < maxRange)
    ensures k.None? ==> forall j | 0 <= j < |boxes| :: Spread(boxes[j]) < 0
    ensures k.Some? ==>
      && k.value < |boxes|
      && Spread(boxes[k.value]) >= 0
      && (forall j | 0 <= j < |boxes| :: Spread(boxes[j]) <= Spread(boxes[k.value]))
      && (forall j | 0 <= j < k.value :: Spread(boxes[j]) < Spread(boxes[k.value]))
    decreases |boxes| - i
  {
    if i == |boxes| then best
    else if Spread(boxes[i]) > maxRange then WidestFrom(boxes, i + 1, Some(i), Spread(boxes[i]))
    else WidestFrom(boxes, i + 1, best, maxRange)
  }

  /** The box-selection loop: `maxRange` starts at -1 and a box replaces the
      current choice only when its spread is strictly greater, so the result
      is the first box of greatest spread, and there is one as soon as some
      box has a spread of at least 0. */
  function WidestBox(boxes: seq<Box>): (k: Option<nat>)
    ensures k.None? <==> forall j | 0 <= j < |boxes| :: Spread(boxes[j]) < 0
    ensures k.Some? ==>
      && k.value < |boxes|
      && (forall j | 0 <= j < |boxes| :: Spread(boxes[j]) <= Spread(boxes[k.value]))
      && (forall j | 0 <= j < k.value :: Spread(boxes[j]) < Spread(boxes[k.value]))
  {
    WidestFrom(boxes, 0, None, -1)
  }

  /** The split channel: R when its range is at least both others, else G when
      its range is at least both others, else B. */
  function SplitChannel(b: Box): (ch: ChannelName)
    ensures forall c :: Range(b, c) <= Range(b, ch)
    ensures forall c :: Range(b, c) == Range(b, ch) ==> Rank(ch) <= Rank(c)
  {
    var rRange := Range(b, R);
    var gRange := Range(b, G);
    var bRange := Range(b, B);
    if rRange >= gRange && rRange >= bRange then R
    else if gRange >= rRange && gRange >= bRange then G
    else B
  }

  // ---------------------------------------------------------------------------
  // Sorting and splitting

  ghost predicate SortedOn(ps: seq<Pixel>, c: ChannelName)
  {
    forall i, j | 0 <= i < j < |ps| :: Value(ps[i], c) <= Value(ps[j], c)
  }

  lemma SortedTail(ps: seq<Pixel>, c: ChannelName)
    requires |ps| > 0 && SortedOn(ps, c)
    ensures SortedOn(ps[1..], c)
  {
    forall i, j | 0 <= i < j < |ps| - 1
      ensures Value(ps[1..][i], c) <= Value(ps[1..][j], c)
    {
      assert ps[1..][i] == ps[i + 1] && ps[1..][j] == ps[j + 1];
    }
  }

  /** A value no larger than the head of a sorted sequence may go in front. */
  lemma SortedCons(p: Pixel, ps: seq<Pixel>, c: ChannelName)
    requires SortedOn(ps, c)
    requires |ps| > 0 ==> Value(p, c) <= Value(ps[0], c)
    ensures SortedOn([p] + ps, c)
  {
    var r := [p] + ps;
    forall i, j | 0 <= i < j < |r|
      ensures Value(r[i], c) <= Value(r[j], c)
    {
      assert r[j] == ps[j - 1];
      if i > 0 {
        assert r[i] == ps[i - 1];
      } else {
        assert Value(ps[0], c) <= Value(ps[j - 1], c);
      }
    }
  }

  function Insert(p: Pixel, ps: seq<Pixel>, c: ChannelName): (r: seq<Pixel>)
    requires SortedOn(ps, c)
    ensures SortedOn(r, c)
    ensures multiset(r) == multiset(ps) + multiset{p}
    ensures r[0] == p || (|ps| > 0 && r[0] == ps[0])
  {
    if |ps| == 0 then [p]
    else if Value(p, c) <= Value(ps[0], c) then
      SortedCons(p, ps, c);
      [p] + ps
    else
      assert ps == [ps[0]] + ps[1..];
      SortedTail(ps, c);
      var rest := Insert(p, ps[1..], c);
      assert |ps| > 1 ==> Value(ps[0], c) <= Value(ps[1], c);
      SortedCons(ps[0], rest, c);
      [ps[0]] + rest
  }

  /** `sort.Slice` on one channel. Go's sort is not stable, so pixels with equal
      values may end up in any order; the model fixes one sorted permutation. */
  function SortOn(ps: seq<Pixel>, c: ChannelName): (r: seq<Pixel>)
    ensures SortedOn(r, c)
    ensures multiset(r) == multiset(ps)
  {
    if |ps| == 0 then []
    else
      assert ps == [ps[0]] + ps[1..];
      Insert(ps[0], SortOn(ps[1..], c), c)
  }

  /** A box built from `ps` and passed through `calculateBoxRange` records exact bounds. */
  lemma CalculatedBoxIsExact(ps: seq<Pixel>)
    ensures RangesExact(CalculateBoxRange(ZeroBox(ps)))
  {
  }

  /** Cutting a sorted sequence keeps every element and leaves no value of the
      first part above a value of the second. */
  lemma CutSorted(sorted: seq<Pixel>, mid: nat, c: ChannelName)
    requires SortedOn(sorted, c) && mid <= |sorted|
    ensures multiset(sorted[..mid]) + multiset(sorted[mid..]) == multiset(sorted)
    ensures forall i, j | 0 <= i < mid && 0 <= j < |sorted| - mid ::
      Value(sorted[..mid][i], c) <= Value(sorted[mid..][j], c)
  {
    assert sorted == sorted[..mid] + sorted[mid..];
    forall i, j | 0 <= i < mid && 0 <= j < |sorted| - mid
      ensures Value(sorted[..mid][i], c) <= Value(sorted[mid..][j], c)
    {
      assert sorted[..mid][i] == sorted[i] && sorted[mid..][j] == sorted[mid + j];
    }
  }

  /** Sorting on the split channel and cutting at `len/2`: the halves hold
      exactly the box's pixels, the first `len/2` of them have no larger
      channel value than any of the rest, and each half records its exact
      bounds (as `calculateBoxRange` leaves them). */
  function SplitBox(b: Box): (halves: (Box, Box))
    ensures |halves.0.pixels| == |b.pixels| / 2
    ensures |halves.1.pixels| == |b.pixels| - |b.pixels| / 2
    ensures multiset(halves.0.pixels) + multiset(halves.1.pixels) == multiset(b.pixels)
    ensures forall i, j | 0 <= i < |halves.0.pixels| && 0 <= j < |halves.1.pixels| ::
      Value(halves.0.pixels[i], SplitChannel(b)) <= Value(halves.1.pixels[j], SplitChannel(b))
    ensures RangesExact(halves.0) && RangesExact(halves.1)
  {
    var ch := SplitChannel(b);
    var sorted := SortOn(b.pixels, ch);
    var mid := |sorted| / 2;
    CutSorted(sorted, mid, ch);
    CalculatedBoxIsExact(sorted[..mid]);
    CalculatedBoxIsExact(sorted[mid..]);
    (CalculateBoxRange(ZeroBox(sorted[..mid])), CalculateBoxRange(ZeroBox(sorted[mid..])))
  }

  // ---------------------------------------------------------------------------
  // The splitting loop

  /** The pixels of all boxes together. */
  function AllPixels(boxes: seq<Box>): multiset<Pixel>
  {
    if |boxes| == 0 then multiset{} else multiset(boxes[0].pixels) + AllPixels(boxes[1..])
  }

  lemma {:induction false} AllPixelsAppend(a: seq<Box>, b: seq<Box>)
    ensures AllPixels(a + b) == AllPixels(a) + AllPixels(b)
    decreases |a|
  {
    if |a| == 0 {
      assert a + b == b;
    } else {
      assert (a + b)[0] == a[0];
      assert (a + b)[1..] == a[1..] + b;
      AllPixelsAppend(a[1..], b);
    }
  }

  lemma AllPixelsCons(b: Box, rest: seq<Box>)
    ensures AllPixels([b] + rest) == multiset(b.pixels) + AllPixels(rest)
  {
    assert ([b] + rest)[1..] == rest;
  }

  lemma AllPixelsThree(a: seq<Box>, b: seq<Box>, c: seq<Box>)
    ensures AllPixels(a + b + c) == AllPixels(a) + AllPixels(b) + AllPixels(c)
  {
    AllPixelsAppend(a + b, c);
    AllPixelsAppend(a, b);
  }

  /** Replacing box `k` by two boxes that share its pixels keeps the pixels of
      the whole collection. */
  lemma ReplaceKeepsPixels(boxes: seq<Box>, k: nat, first: Box, second: Box)
    requires k < |boxes|
    requires multiset(first.pixels) + multiset(second.pixels) == multiset(boxes[k].pixels)
    ensures AllPixels(boxes[..k] + [first, second] + boxes[k + 1..]) == AllPixels(boxes)
  {
    var pre, post := boxes[..k], boxes[k + 1..];
    assert boxes[k..] == [boxes[k]] + post;
    assert boxes == pre + [boxes[k]] + post;
    AllPixelsThree(pre, [first, second], post);
    AllPixelsThree(pre, [boxes[k]], post);
    AllPixelsPair(first, second);
    AllPixelsCons(boxes[k], []);
  }

  lemma AllPixelsPair(first: Box, second: Box)
    ensures AllPixels([first, second]) == multiset(first.pixels) + multiset(second.pixels)
  {
    assert [first, second][1..] == [second];
    AllPixelsCons(second, []);
    assert [second] + [] == [second];
  }

  /** Where each box ends up when box `k` is replaced by two boxes: those
      before it stay put, the two new boxes take its place, and those after it
      move up by one. */
  lemma ReplacePositions(boxes: seq<Box>, k: nat, first: Box, second: Box)
    requires k < |boxes|
    ensures var next := boxes[..k] + [first, second] + boxes[k + 1..];
      && |next| == |boxes| + 1
      && (forall i | 0 <= i < k :: next[i] == boxes[i])
      && next[k] == first && next[k + 1] == second
      && (forall i | k + 1 < i < |next| :: next[i] == boxes[i - 1])
  {
  }

  /** Replacing box `k` by two boxes with exact bounds keeps every box exact. */
  lemma ReplaceKeepsExact(boxes: seq<Box>, k: nat, first: Box, second: Box)
    requires k < |boxes|
    requires forall i | 0 <= i < |boxes| :: RangesExact(boxes[i])
    requires RangesExact(first) && RangesExact(second)
    ensures var next := boxes[..k] + [first, second] + boxes[k + 1..];
      |next| == |boxes| + 1 && forall i | 0 <= i < |next| :: RangesExact(next[i])
  {
    var next := boxes[..k] + [first, second] + boxes[k + 1..];
    ReplacePositions(boxes, k, first, second);
    forall i | 0 <= i < |next|
      ensures RangesExact(next[i])
    {
      if i < k {
        assert next[i] == boxes[i];
      } else if i > k + 1 {
        assert next[i] == boxes[i - 1];
      }
    }
  }

  /** One round of the main loop: box `k` replaced, in place, by the two
      halves of its split. The boxes before `k` stay where they were, the
      halves take positions `k` and `k + 1`, and the boxes after `k` move up
      by one. The collection gains one box, keeps its pixels, and every box
      still records its exact bounds. */
  function SplitAt(boxes: seq<Box>, k: nat): (next: seq<Box>)
    requires k < |boxes|
    requires forall i | 0 <= i < |boxes| :: RangesExact(boxes[i])
    ensures |next| == |boxes| + 1
    ensures forall i | 0 <= i < k :: next[i] == boxes[i]
    ensures next[k] == SplitBox(boxes[k]).0 && next[k + 1] == SplitBox(boxes[k]).1
    ensures forall i | k + 1 < i < |next| :: next[i] == boxes[i - 1]
    ensures AllPixels(next) == AllPixels(boxes)
    ensures forall i | 0 <= i < |next| :: RangesExact(next[i])
  {
    var halves := SplitBox(boxes[k]);
    ReplaceKeepsPixels(boxes, k, halves.0, halves.1);
    ReplaceKeepsExact(boxes, k, halves.0, halves.1);
    ReplacePositions(boxes, k, halves.0, halves.1);
    boxes[..k] + [halves.0, halves.1] + boxes[k + 1..]
  }

  /** The main loop of `medianCutQuantize`: while there are fewer boxes than
      `colorCount` and than `total` pixels, split the widest box in place.
      Each step adds exactly one box, so the box count ends at
      `min(colorCount, total)` when the loop runs at all, and the boxes always
      hold exactly the original pixels. */
  function SplitLoop(boxes: seq<Box>, colorCount: int, total: nat): (r: seq<Box>)
    requires 1 <= |boxes|
    requires forall i | 0 <= i < |boxes| :: RangesExact(boxes[i])
    ensures AllPixels(r) == AllPixels(boxes)
    ensures forall i | 0 <= i < |r| :: RangesExact(r[i])
    ensures |r| == if |boxes| < colorCount && |boxes| < total then Min(colorCount, total) else |boxes|
    decreases total - |boxes|
  {
    if |boxes| < colorCount && |boxes| < total then
      SpreadOfExactBox(boxes[0]);
      match WidestBox(boxes)
      case None =>
        // `boxToSplit == nil`: cannot happen, every exact box has a spread >= 0
        assert false; boxes
      case Some(k) => SplitLoop(SplitAt(boxes, k), colorCount, total)
    else boxes
  }

  /** The boxes `medianCutQuantize` ends with: they partition the image's
      pixels, and there are `min(colorCount, len(pixels))` of them, but never
      fewer than the initial one. */
  function QuantizeBoxes(pixels: seq<Pixel>, colorCount: int): (boxes: seq<Box>)
    ensures AllPixels(boxes) == multiset(pixels)
    ensures forall i | 0 <= i < |boxes| :: RangesExact(boxes[i])
    ensures |boxes| == if |pixels| == 0 || colorCount <= 1 then 1 else Min(colorCount, |pixels|)
  {
    var initial := CalculateBoxRange(ZeroBox(pixels));
    assert AllPixels([initial]) == multiset(pixels) by {
      assert [initial][1..] == [];
    }
    SplitLoop([initial], colorCount, |pixels|)
  }

  // ---------------------------------------------------------------------------
  // Averaging

  function Sum(ps: seq<Pixel>, c: ChannelName): int
  {
    if |ps| == 0 then 0 else Value(ps[0], c) + Sum(ps[1..], c)
  }

  lemma MulSucc(n: int, x: int)
    ensures (n + 1) * x == n * x + x
  {
  }

  lemma MulStrict(n: int, x: int, y: int)
    requires n > 0 && x < y
    ensures n * x < n * y
  {
  }

  lemma {:induction false} SumBounds(ps: seq<Pixel>, c: ChannelName, lo: int, hi: int)
    requires forall i | 0 <= i < |ps| :: lo <= Value(ps[i], c) <= hi
    ensures |ps| * lo <= Sum(ps, c) <= |ps| * hi
    decreases |ps|
  {
    if |ps| > 0 {
      var n := |ps| - 1;
      assert forall i | 0 <= i < |ps[1..]| :: ps[1..][i] == ps[i + 1];
      SumBounds(ps[1..], c, lo, hi);
      MulSucc(n, lo);
      MulSucc(n, hi);
      assert lo <= Value(ps[0], c) <= hi;
    }
  }

  lemma DivisionBounds(s: int, n: int)
    requires n > 0
    ensures n * (s / n) <= s < n * (s / n) + n
  {
  }

  /** The truncating quotient lies within bounds shared by every summand. */
  lemma QuotientBetween(s: int, n: int, lo: int, hi: int)
    requires n > 0 && n * lo <= s <= n * hi
    ensures lo <= s / n <= hi
  {
    var m := s / n;
    DivisionBounds(s, n);
    if m < lo {
      MulSucc(m, n);
      if m + 1 < lo {
        MulStrict(n, m + 1, lo);
      }
      assert false;
    }
    if m > hi {
      MulStrict(n, hi, m);
      assert false;
    }
  }

  /** `n * (s / n + 1)` exceeds `s`. */
  lemma QuotientSuccAbove(s: int, n: int)
    requires n > 0
    ensures s < n * (s / n + 1)
  {
    DivisionBounds(s, n);
    MulSucc(s / n, n);
  }

  /** `n * (s / n)` does not exceed `s`. */
  lemma QuotientBelow(s: int, n: int)
    requires n > 0
    ensures n * (s / n) <= s
  {
    DivisionBounds(s, n);
  }

  /** Some value is at most the truncating mean. */
  lemma MeanAboveSome(ps: seq<Pixel>, c: ChannelName)
    requires |ps| > 0
    ensures exists i | 0 <= i < |ps| :: Value(ps[i], c) <= Sum(ps, c) / |ps|
  {
    var m := Sum(ps, c) / |ps|;
    if forall i | 0 <= i < |ps| :: m < Value(ps[i], c) {
      SumBounds(ps, c, m + 1, 255);
      QuotientSuccAbove(Sum(ps, c), |ps|);
      assert false;
    }
  }

  /** Some value is at least the truncating mean. */
  lemma MeanBelowSome(ps: seq<Pixel>, c: ChannelName)
    requires |ps| > 0
    ensures exists j | 0 <= j < |ps| :: Sum(ps, c) / |ps| <= Value(ps[j], c)
  {
    var m := Sum(ps, c) / |ps|;
    if forall j | 0 <= j < |ps| :: Value(ps[j], c) < m {
      SumBounds(ps, c, 0, m - 1);
      QuotientBelow(Sum(ps, c), |ps|);
      MulStrict(|ps|, m - 1, m);
      assert false;
    }
  }

  /** The truncating mean of a channel lies between its smallest and largest value. */
  lemma MeanInRange(ps: seq<Pixel>, c: ChannelName)
    requires |ps| > 0
    ensures 0 <= Sum(ps, c) / |ps| < 256
    ensures exists i | 0 <= i < |ps| :: Value(ps[i], c) <= Sum(ps, c) / |ps|
    ensures exists j | 0 <= j < |ps| :: Sum(ps, c) / |ps| <= Value(ps[j], c)
  {
    SumBounds(ps, c, 0, 255);
    QuotientBetween(Sum(ps, c), |ps|, 0, 255);
    MeanAboveSome(ps, c);
    MeanBelowSome(ps, c);
  }

  /** The colour of a non-empty box: the truncating integer mean of each
      channel, opaque. Each channel lies within the box's channel range. */
  function BoxMean(ps: seq<Pixel>): (m: Rgba)
    requires |ps| > 0
    ensures m.a == 255
    ensures forall c :: exists i | 0 <= i < |ps| :: Value(ps[i], c) <= Component(m, c)
    ensures forall c :: exists j | 0 <= j < |ps| :: Component(m, c) <= Value(ps[j], c)
  {
    MeanInRange(ps, R);
    MeanInRange(ps, G);
    MeanInRange(ps, B);
    Rgba(Sum(ps, R) / |ps|, Sum(ps, G) / |ps|, Sum(ps, B) / |ps|, 255)
  }

  /** The number of boxes holding at least one pixel. */
  function NonEmptyCount(boxes: seq<Box>): nat
  {
    if |boxes| == 0 then 0 else (if |boxes[0].pixels| > 0 then 1 else 0) + NonEmptyCount(boxes[1..])
  }

  /** The averaging loop: one opaque colour per non-empty box, in box order;
      empty boxes are skipped. */
  function Palette(boxes: seq<Box>): (pal: seq<Rgba>)
    ensures |pal| == NonEmptyCount(boxes)
    ensures forall i | 0 <= i < |pal| :: pal[i].a == 255
  {
    if |boxes| == 0 then []
    else if |boxes[0].pixels| == 0 then Palette(boxes[1..])
    else [BoxMean(boxes[0].pixels)] + Palette(boxes[1..])
  }

  lemma {:induction false} NonEmptyCountBounds(boxes: seq<Box>)
    ensures NonEmptyCount(boxes) <= |boxes|
    ensures NonEmptyCount(boxes) <= |AllPixels(boxes)|
    ensures |AllPixels(boxes)| > 0 ==> NonEmptyCount(boxes) > 0
  {
    if |boxes| > 0 {
      NonEmptyCountBounds(boxes[1..]);
    }
  }

  /** `medianCutQuantize` on the image's pixels: at most `max(colorCount, 1)`
      colours and at most one per pixel, none at all exactly for an image with
      no pixels, every colour opaque. */
  function MedianCutQuantize(img: Image, colorCount: int): (pal: seq<Rgba>)
    ensures |pal| <= if colorCount < 1 then 1 else colorCount
    ensures |pal| <= |img.pixels|
    ensures |pal| == 0 <==> |img.pixels| == 0
    ensures forall i | 0 <= i < |pal| :: pal[i].a == 255
  {
    var boxes := QuantizeBoxes(img.pixels, colorCount);
    NonEmptyCountBounds(boxes);
    Palette(boxes)
  }

  // ---------------------------------------------------------------------------
  // Properties relating the palette to the boxes

  /** Colour `m` is the mean of the non-empty box `b` and lies within its bounds. */
  ghost predicate MeanOfBox(m: Rgba, b: Box)
  {
    && |b.pixels| > 0
    && m == BoxMean(b.pixels)
    && forall c :: Low(b, c) <= Component(m, c) <= High(b, c)
  }

  lemma {:induction false} PaletteEntriesAreBoxMeans(boxes: seq<Box>)
    requires forall i | 0 <= i < |boxes| :: RangesExact(boxes[i])
    ensures forall i | 0 <= i < |Palette(boxes)| ::
      exists j | 0 <= j < |boxes| :: MeanOfBox(Palette(boxes)[i], boxes[j])
  {
    if |boxes| > 0 {
      var rest := boxes[1..];
      PaletteEntriesAreBoxMeans(rest);
      var pal := Palette(boxes);
      forall i | 0 <= i < |pal|
        ensures exists j | 0 <= j < |boxes| :: MeanOfBox(pal[i], boxes[j])
      {
        if |boxes[0].pixels| > 0 && i == 0 {
          MeanWithinBounds(boxes[0]);
          assert MeanOfBox(pal[i], boxes[0]);
        } else {
          var i' := if |boxes[0].pixels| > 0 then i - 1 else i;
          assert pal[i] == Palette(rest)[i'];
          var j :| 0 <= j < |rest| && MeanOfBox(Palette(rest)[i'], rest[j]);
          assert rest[j] == boxes[j + 1];
          assert MeanOfBox(pal[i], boxes[j + 1]);
        }
      }
      assert forall i | 0 <= i < |pal| :: exists j | 0 <= j < |boxes| :: MeanOfBox(pal[i], boxes[j]);
    } else {
      assert Palette(boxes) == [];
    }
  }

  lemma MeanWithinBounds(b: Box)
    requires RangesExact(b) && |b.pixels| > 0
    ensures forall c :: Low(b, c) <= Component(BoxMean(b.pixels), c) <= High(b, c)
  {
    var m := BoxMean(b.pixels);
    forall c
      ensures Low(b, c) <= Component(m, c) <= High(b, c)
    {
      assert IsLowest(Low(b, c), b.pixels, c) && IsHighest(High(b, c), b.pixels, c);
      var i :| 0 <= i < |b.pixels| && Value(b.pixels[i], c) <= Component(m, c);
      var j :| 0 <= j < |b.pixels| && Component(m, c) <= Value(b.pixels[j], c);
    }
  }

  /** The palette is the box means of a partition of the image's pixels: the
      boxes hold every pixel exactly once, and every colour is the mean of a
      non-empty box and lies within its bounds. */
  lemma MedianCutPartition(img: Image, colorCount: int)
    ensures var boxes := QuantizeBoxes(img.pixels, colorCount);
      && AllPixels(boxes) == multiset(img.pixels)
      && MedianCutQuantize(img, colorCount) == Palette(boxes)
      && forall i | 0 <= i < |Palette(boxes)| ::
        exists j | 0 <= j < |boxes| :: MeanOfBox(Palette(boxes)[i], boxes[j])
  {
    PaletteEntriesAreBoxMeans(QuantizeBoxes(img.pixels, colorCount));
  }

  lemma MulDiv(n: int, x: int)
    requires n > 0
    ensures (n * x) / n == x
  {
    var q := (n * x) / n;
    DivisionBounds(n * x, n);
    if q < x {
      MulStrict(n, q, x);
      MulSucc(q, n);
      if q + 1 < x {
        MulStrict(n, q + 1, x);
      }
      assert false;
    } else if q > x {
      MulStrict(n, x, q);
      assert false;
    }
  }

  /** The mean of copies of one pixel is that pixel's colour. */
  lemma UniformMean(ps: seq<Pixel>, p: Pixel)
    requires |ps| > 0
    requires forall i | 0 <= i < |ps| :: ps[i] == p
    ensures BoxMean(ps) == Rgba(p.r, p.g, p.b, 255)
  {
    SumBounds(ps, R, p.r, p.r);
    SumBounds(ps, G, p.g, p.g);
    SumBounds(ps, B, p.b, p.b);
    MulDiv(|ps|, p.r);
    MulDiv(|ps|, p.g);
    MulDiv(|ps|, p.b);
  }

  /** An image of a single colour quantises to that colour only, once per
      non-empty box. */
  lemma UniformImage(img: Image, colorCount: int, p: Pixel)
    requires forall i | 0 <= i < |img.pixels| :: img.pixels[i] == p
    ensures forall i | 0 <= i < |MedianCutQuantize(img, colorCount)| ::
      MedianCutQuantize(img, colorCount)[i] == Rgba(p.r, p.g, p.b, 255)
  {
    var boxes := QuantizeBoxes(img.pixels, colorCount);
    PaletteEntriesAreBoxMeans(boxes);
    var pal := Palette(boxes);
    assert pal == MedianCutQuantize(img, colorCount);
    forall q | q in multiset(img.pixels)
      ensures q == p
    {
    }
    forall i | 0 <= i < |pal|
      ensures pal[i] == Rgba(p.r, p.g, p.b, 255)
    {
      var j :| 0 <= j < |boxes| && MeanOfBox(pal[i], boxes[j]);
      BoxPixelsFromImage(boxes, j, multiset(img.pixels), p);
      UniformMean(boxes[j].pixels, p);
    }
  }

  /** Every pixel of every box comes from the partitioned multiset. */
  lemma {:induction false} BoxPixelsFromImage(boxes: seq<Box>, j: nat, all: multiset<Pixel>, p: Pixel)
    requires j < |boxes|
    requires AllPixels(boxes) == all
    requires forall q | q in all :: q == p
    ensures forall i | 0 <= i < |boxes[j].pixels| :: boxes[j].pixels[i] == p
    decreases j
  {
    assert AllPixels(boxes) == multiset(boxes[0].pixels) + AllPixels(boxes[1..]);
    if j == 0 {
      forall i | 0 <= i < |boxes[0].pixels|
        ensures boxes[0].pixels[i] == p
      {
        assert boxes[0].pixels[i] in multiset(boxes[0].pixels);
        assert boxes[0].pixels[i] in all;
      }
    } else {
      forall q | q in AllPixels(boxes[1..])
        ensures q == p
      {
        assert q in all;
      }
      BoxPixelsFromImage(boxes[1..], j - 1, AllPixels(boxes[1..]), p);
    }
  }
}
