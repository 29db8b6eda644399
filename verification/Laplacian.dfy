// The one-pass variance of the four-neighbour Laplacian over a face region.
module Laplacian {
  import opened Wrappers
  import opened Cancellation
  import opened Arithmetic
  import opened ImageStatistics

  const MAX_LAPLACIAN := 1020

  predicate Interior(region: Region, x: nat, y: nat) {
    region.left < x < region.right - 1 && region.top < y < region.bottom - 1
  }

  // Every neighbour of an interior pixel is inside the image.
  function LaplacianAt(view: ImageView, region: Region, x: nat, y: nat): (l: int)
    requires Packed(view) && region.Inside(view) && Interior(region, x, y)
    ensures -MAX_LAPLACIAN <= l <= MAX_LAPLACIAN
  {
    4 * Luma(view, x, y) as int
    - Luma(view, x - 1, y) - Luma(view, x + 1, y) - Luma(view, x, y - 1) - Luma(view, x, y + 1)
  }

  function Plane(slopeX: int, slopeY: int, level: int, x: nat, y: nat): (l: int) {
    slopeX * x + slopeY * y + level
  }

  // An evenly sloped shade with one pixel that stands out by `height`.
  ghost predicate Spotted(view: ImageView, slopeX: int, slopeY: int, level: int, spotX: nat, spotY: nat, height: int)
    requires Packed(view)
  {
    forall x: nat, y: nat :: x < view.width && y < view.height ==>
      Luma(view, x, y) as int
      == Plane(slopeX, slopeY, level, x, y) + if x == spotX && y == spotY then height else 0
  }

  // Even shade answers nothing, and a spot answers four times its height where it is and minus its
  // height at each of its four neighbours: that fixes the kernel.
  lemma LaplacianOfASpot(view: ImageView, region: Region, slopeX: int, slopeY: int, level: int,
                         spotX: nat, spotY: nat, height: int, x: nat, y: nat)
    requires Packed(view) && region.Inside(view) && Interior(region, x, y)
    requires Spotted(view, slopeX, slopeY, level, spotX, spotY, height)
    ensures LaplacianAt(view, region, x, y) ==
            if x == spotX && y == spotY then 4 * height
            else if AbsDiff(x, spotX) + AbsDiff(y, spotY) == 1 then -height
            else 0
  {
    assert Plane(slopeX, slopeY, level, x + 1, y) == Plane(slopeX, slopeY, level, x, y) + slopeX;
    assert Plane(slopeX, slopeY, level, x - 1, y) == Plane(slopeX, slopeY, level, x, y) - slopeX;
    assert Plane(slopeX, slopeY, level, x, y + 1) == Plane(slopeX, slopeY, level, x, y) + slopeY;
    assert Plane(slopeX, slopeY, level, x, y - 1) == Plane(slopeX, slopeY, level, x, y) - slopeY;
    hide Plane;
    hide Luma;
  }

  ghost function LaplacianRow(view: ImageView, region: Region, y: nat, right: nat): (s: seq<int>)
    requires Packed(view) && region.Inside(view) && region.top < y < region.bottom - 1
    requires region.left < right < region.right
    ensures |s| == right - 1 - region.left
  {
    seq<int>(right - 1 - region.left,
        i requires 0 <= i < right - 1 - region.left => LaplacianAt(view, region, region.left + 1 + i, y))
  }

  // The Laplacians of the interior rows above `bottom`, in scan order.
  ghost function LaplacianRows(view: ImageView, region: Region, bottom: nat): (s: seq<int>)
    requires Packed(view) && region.Inside(view) && region.top < bottom < region.bottom && region.Width() >= 2
    ensures |s| == Area(region.Width() - 2, bottom - 1 - region.top)
  {
    if bottom == region.top + 1 then []
    else
      assert Area(region.Width() - 2, bottom - 1 - region.top) ==
             Area(region.Width() - 2, bottom - 2 - region.top) + (region.Width() - 2);
      LaplacianRows(view, region, bottom - 1) + LaplacianRow(view, region, bottom - 1, region.right - 1)
  }

  ghost function Laplacians(view: ImageView, region: Region): (s: seq<int>)
    requires Packed(view) && region.Inside(view) && region.Width() >= 2 && region.Height() >= 2
  {
    LaplacianRows(view, region, region.bottom - 1)
  }

  // ---------------------------------------------------------------- the two-pass variance

  function Total(s: seq<int>): (t: int) {
    if s == [] then 0 else Total(s[..|s| - 1]) + s[|s| - 1]
  }

  function Squares(s: seq<int>): (q: int) {
    if s == [] then 0 else Squares(s[..|s| - 1]) + s[|s| - 1] * s[|s| - 1]
  }

  // The sum of squared deviations from `m`.
  function Deviations(s: seq<int>, m: real): (d: real) {
    if s == [] then 0.0 else Deviations(s[..|s| - 1], m) + Square(s[|s| - 1] as real - m)
  }

  function Mean(s: seq<int>): (m: real)
    requires s != []
  {
    Total(s) as real / |s| as real
  }

  function PopulationVariance(s: seq<int>): (v: real)
    requires s != []
  {
    Deviations(s, Mean(s)) / |s| as real
  }

  lemma {:induction false} DeviationsExpand(s: seq<int>, m: real)
    ensures Deviations(s, m) == Squares(s) as real - 2.0 * (m * Total(s) as real) + |s| as real * (m * m)
    decreases |s|
  {
    if s != [] {
      var n, x := |s| - 1, s[|s| - 1];
      DeviationsExpand(s[..n], m);
      SquareOfDifference(x, m);
      AddedTerm(m, Total(s[..n]), x, n);
    }
  }

  lemma SquareOfDifference(x: int, m: real)
    ensures Square(x as real - m) == (x * x) as real - 2.0 * (m * x as real) + m * m
  {
    assert (x * x) as real == x as real * x as real;
  }

  lemma AddedTerm(m: real, t: int, x: int, n: nat)
    ensures m * (t + x) as real == m * t as real + m * x as real
    ensures (n + 1) as real * (m * m) == n as real * (m * m) + m * m
  {
  }

  lemma {:induction false} DeviationsAreNotNegative(s: seq<int>, m: real)
    ensures Deviations(s, m) >= 0.0
    decreases |s|
  {
    if s != [] {
      DeviationsAreNotNegative(s[..|s| - 1], m);
      SquareIsNotNegative(s[|s| - 1] as real - m);
    }
  }

  predicate Bounded(s: seq<int>) {
    forall i :: 0 <= i < |s| ==> -MAX_LAPLACIAN <= s[i] <= MAX_LAPLACIAN
  }

  lemma SquareAtMost(x: int, m: int)
    requires -m <= x <= m
    ensures x * x <= m * m
  {
    if x >= 0 {
      assert x * x <= m * x <= m * m;
    } else {
      assert -x * -x <= m * -x <= m * m;
    }
  }

  lemma SquareIsBounded(x: int)
    requires -MAX_LAPLACIAN <= x <= MAX_LAPLACIAN
    ensures x * x <= MAX_LAPLACIAN * MAX_LAPLACIAN
  {
    SquareAtMost(x, MAX_LAPLACIAN);
  }

  lemma {:induction false} SquaresAreBounded(s: seq<int>)
    requires Bounded(s)
    ensures Squares(s) <= MAX_LAPLACIAN * MAX_LAPLACIAN * |s|
    decreases |s|
  {
    if s != [] {
      SquaresAreBounded(s[..|s| - 1]);
      SquareIsBounded(s[|s| - 1]);
    }
  }

  // ---------------------------------------------------------------- the running variance

  // What the three accumulators mean after the values `s`.
  ghost predicate Running(count: nat, mean: real, deviation: real, s: seq<int>) {
    && count == |s|
    && mean * count as real == Total(s) as real
    && deviation == Squares(s) as real - mean * Total(s) as real
  }

  lemma UpdatedMean(mean: real, n: real, t: real, x: real, delta: real, next: real)
    requires n >= 0.0 && mean * n == t && delta == x - mean && next == mean + delta / (n + 1.0)
    ensures next * (n + 1.0) == t + x
  {
    assert delta / (n + 1.0) * (n + 1.0) == delta;
    assert next * (n + 1.0) == mean * (n + 1.0) + delta / (n + 1.0) * (n + 1.0);
    assert mean * (n + 1.0) == mean * n + mean;
  }

  lemma UpdatedDeviation(mean: real, n: real, t: real, x: real, next: real)
    requires mean * n == t && next * (n + 1.0) == t + x
    ensures (x - mean) * (x - next) - mean * t == x * x - next * (t + x)
  {
    assert (x - mean) * (x - next) == x * x - x * next - mean * x + mean * next;
    assert next * (t + x) == next * t + next * x;
    assert mean * (t + x) == mean * t + mean * x;
    assert next * t == next * (mean * n) == mean * (next * n);
    assert mean * (next * (n + 1.0)) == mean * (next * n) + mean * next;
  }

  lemma TotalsAppend(s: seq<int>, x: int)
    ensures Total(s + [x]) == Total(s) + x && Squares(s + [x]) == Squares(s) + x * x
  {
    assert (s + [x])[..|s|] == s;
  }

  lemma ScalarStep(n: real, mean: real, deviation: real, t: real, q: real, x: real, delta: real, next: real)
    requires n >= 0.0 && mean * n == t && deviation == q - mean * t
    requires delta == x - mean && next == mean + delta / (n + 1.0)
    ensures next * (n + 1.0) == t + x
    ensures deviation + Product(delta, x - next) == (q + x * x) - next * (t + x)
  {
    UpdatedMean(mean, n, t, x, delta, next);
    UpdatedDeviation(mean, n, t, x, next);
  }

  lemma SquareAsReal(x: int)
    ensures (x * x) as real == x as real * x as real
  {
  }

  lemma RunningStep(count: nat, mean: real, deviation: real, s: seq<int>, x: int, delta: real, next: real)
    requires Running(count, mean, deviation, s)
    requires delta == x as real - mean && next == mean + delta / (count as real + 1.0)
    ensures Running(count + 1, next, deviation + Product(delta, x as real - next), s + [x])
  {
    hide Total;
    hide Squares;
    hide Product;
    TotalsAppend(s, x);
    SquareAsReal(x);
    ScalarStep(count as real, mean, deviation, Total(s) as real, Squares(s) as real, x as real, delta, next);
  }

  // One step of the loop adds one value.
  method AddValue(count: u32, mean: real, deviation: real, x: int, ghost s: seq<int>)
    returns (newCount: u32, newMean: real, newDeviation: real)
    requires Running(count, mean, deviation, s) && |s| < ABSOLUTE_MAX_IMAGE_PIXELS
    ensures Running(newCount, newMean, newDeviation, s + [x])
  {
    assert count == |s|;
    hide Running;
    hide Product;
    newCount := count + 1;
    var delta := x as real - mean;
    newMean := mean + delta / newCount as real;
    var deltaAfterMean := x as real - newMean;
    newDeviation := deviation + Product(delta, deltaAfterMean);
    RunningStep(count, mean, deviation, s, x, delta, newMean);
  }

  lemma ExactMean(mean: real, n: nat, t: int)
    requires 0 < n && mean * n as real == t as real
    ensures mean == t as real / n as real
  {
  }

  // At the mean, the expanded deviations are what the loop accumulates.
  lemma RunningIsTwoPass(count: nat, mean: real, deviation: real, s: seq<int>)
    requires Running(count, mean, deviation, s) && s != []
    ensures deviation == Deviations(s, Mean(s))
  {
    ExactMean(mean, count, Total(s));
    DeviationsExpand(s, mean);
    assert count as real * (mean * mean) == mean * (mean * count as real);
  }

  lemma QuotientBound(d: real, n: nat, bound: real)
    requires 0 < n && 0.0 <= d <= bound * n as real
    ensures 0.0 <= d / n as real <= bound
  {
    var q := d / n as real;
    assert q * n as real == d;
    FactorOrder(0.0, q, n as real);
    FactorOrder(q, bound, n as real);
  }

  lemma MeanTerm(m: real, n: nat, t: int)
    requires m * n as real == t as real
    ensures m * t as real == n as real * (m * m) && n as real * (m * m) >= 0.0
  {
    SquareIsNotNegative(m);
    ProductIsNotNegative(n as real, Square(m));
  }

  lemma MeanTimesCount(s: seq<int>)
    requires s != []
    ensures Mean(s) * |s| as real == Total(s) as real
  {
  }

  lemma MeanMinimizes(s: seq<int>)
    requires s != []
    ensures Deviations(s, Mean(s)) <= Squares(s) as real
  {
    hide *;
    MeanTimesCount(s);
    DeviationsExpand(s, Mean(s));
    MeanTerm(Mean(s), |s|, Total(s));
  }

  // The variance of Laplacians lies in 0..=1020 squared: at most 16 once divided by 255 squared.
  lemma VarianceIsBounded(s: seq<int>)
    requires s != [] && Bounded(s)
    ensures 0.0 <= PopulationVariance(s) <= (MAX_LAPLACIAN * MAX_LAPLACIAN) as real
    ensures 0.0 <= PopulationVariance(s) / 65_025.0 <= 16.0
  {
    DeviationsAreNotNegative(s, Mean(s));
    MeanMinimizes(s);
    SquaresAreBounded(s);
    QuotientBound(Deviations(s, Mean(s)), |s|, 1_040_400.0);
  }

  // A checkerboard reaches the ceiling.
  function CheckerLuma(i: nat): (l: u8) { if (i / 4 + i % 4) % 2 == 0 then 0 else 255 }

  function Checkerboard(): (view: ImageView) {
    ImageView(Gray, 4, 4, seq<u8>(16, i requires 0 <= i < 16 => CheckerLuma(i)))
  }

  lemma CheckerboardIsPacked()
    ensures Packed(Checkerboard()) && Region(0, 4, 0, 4).Inside(Checkerboard())
  {
    assert Area(4, 4) == 16;
  }

  lemma GrayLuma(view: ImageView, x: nat, y: nat)
    requires Packed(view) && view.encoding.Gray? && x < view.width && y < view.height
    ensures Flat(x, y, view.width) < |view.pixels| && Luma(view, x, y) == view.pixels[Flat(x, y, view.width)]
  {
    BytesInRange(x, y, view.width, view.height, 1);
  }

  lemma CheckerColor(x: nat, y: nat)
    requires x < 4
    ensures CheckerLuma(Flat(x, y, 4)) == if (x + y) % 2 == 0 then 0 else 255
  {
    assert Flat(x, y, 4) == 4 * y + x;
  }

  lemma CheckerboardLuma(view: ImageView, x: nat, y: nat)
    requires view == Checkerboard() && Packed(view) && x < 4 && y < 4
    ensures Luma(view, x, y) == if (x + y) % 2 == 0 then 0 else 255
  {
    CheckerColor(x, y);
    hide Packed;
    hide Luma;
    hide Flat;
    hide CheckerLuma;
    GrayLuma(view, x, y);
  }

  lemma CheckerboardAt(view: ImageView, region: Region, x: nat, y: nat)
    requires view == Checkerboard() && Packed(view) && region == Region(0, 4, 0, 4) && 1 <= x <= 2 && 1 <= y <= 2
    ensures LaplacianAt(view, region, x, y) == if x == y then -MAX_LAPLACIAN else MAX_LAPLACIAN
  {
    hide Packed;
    hide Luma;
    hide Checkerboard;
    CheckerboardLuma(view, x, y);
    CheckerboardLuma(view, x - 1, y);
    CheckerboardLuma(view, x + 1, y);
    CheckerboardLuma(view, x, y - 1);
    CheckerboardLuma(view, x, y + 1);
  }

  lemma TwoInteriorPixels(view: ImageView, region: Region, y: nat)
    requires Packed(view) && region.Inside(view) && region == Region(0, 4, 0, 4) && 1 <= y <= 2
    ensures LaplacianRow(view, region, y, 3) == [LaplacianAt(view, region, 1, y), LaplacianAt(view, region, 2, y)]
  {
    hide Packed;
    hide LaplacianAt;
  }

  lemma TwoInteriorRows(view: ImageView, region: Region)
    requires Packed(view) && region.Inside(view) && region == Region(0, 4, 0, 4)
    ensures Laplacians(view, region) == LaplacianRow(view, region, 1, 3) + LaplacianRow(view, region, 2, 3)
  {
    hide Packed;
    hide LaplacianRow;
    hide Area;
    assert LaplacianRows(view, region, 2) == LaplacianRow(view, region, 1, 3);
  }

  lemma VarianceOfExtremes(s: seq<int>)
    requires s == [-MAX_LAPLACIAN, MAX_LAPLACIAN, MAX_LAPLACIAN, -MAX_LAPLACIAN]
    ensures PopulationVariance(s) / 65_025.0 == 16.0
  {
    TotalsAppend([], s[0]);
    TotalsAppend([s[0]], s[1]);
    TotalsAppend([s[0], s[1]], s[2]);
    TotalsAppend([s[0], s[1], s[2]], s[3]);
    assert s == [s[0], s[1], s[2]] + [s[3]] && [s[0], s[1], s[2]] == [s[0], s[1]] + [s[2]]
           && [s[0], s[1]] == [s[0]] + [s[1]];
    hide Total;
    hide Squares;
    DeviationsExpand(s, 0.0);
  }

  lemma TheCeilingIsTight(view: ImageView, region: Region)
    requires view == Checkerboard() && region == Region(0, 4, 0, 4)
    ensures Packed(view) && region.Inside(view)
    ensures Laplacians(view, region) != [] && PopulationVariance(Laplacians(view, region)) / 65_025.0 == 16.0
  {
    CheckerboardIsPacked();
    hide Checkerboard;
    hide Packed;
    hide LaplacianAt;
    hide LaplacianRow;
    hide Laplacians;
    hide PopulationVariance;
    TwoInteriorPixels(view, region, 1);
    TwoInteriorPixels(view, region, 2);
    CheckerboardAt(view, region, 1, 1);
    CheckerboardAt(view, region, 2, 1);
    CheckerboardAt(view, region, 1, 2);
    CheckerboardAt(view, region, 2, 2);
    TwoInteriorRows(view, region);
    VarianceOfExtremes(Laplacians(view, region));
  }

  // ---------------------------------------------------------------- the scan

  lemma LaplacianRowStarts(view: ImageView, region: Region, y: nat)
    requires Packed(view) && region.Inside(view) && region.top < y < region.bottom - 1 && region.Width() >= 2
    ensures
      var above := LaplacianRows(view, region, y);
      && above + LaplacianRow(view, region, y, region.left + 1) == above
      && above + LaplacianRow(view, region, y, region.right - 1) == LaplacianRows(view, region, y + 1)
  {
    hide Packed;
    hide LaplacianAt;
    assert LaplacianRow(view, region, y, region.left + 1) == [];
  }

  lemma LaplacianRowGrows(view: ImageView, region: Region, y: nat, x: nat)
    requires Packed(view) && region.Inside(view) && Interior(region, x, y)
    ensures
      var s := LaplacianRows(view, region, y) + LaplacianRow(view, region, y, x);
      && |s| < ABSOLUTE_MAX_IMAGE_PIXELS
      && s + [LaplacianAt(view, region, x, y)] == LaplacianRows(view, region, y) + LaplacianRow(view, region, y, x + 1)
  {
    RegionIsBounded(view, region);
    AreaShrinks(region.Width(), region.Height(), y - 1 - region.top);
    hide LaplacianAt;
    assert LaplacianRow(view, region, y, x + 1) == LaplacianRow(view, region, y, x) + [LaplacianAt(view, region, x, y)];
  }

  lemma AreaShrinks(width: nat, height: nat, rows: nat)
    requires width >= 2 && rows + 1 <= height
    ensures Area(width - 2, rows) + (width - 2) <= Area(width, height)
  {
    assert (width - 2) * (rows + 1) <= width * (rows + 1) <= width * height;
  }

  lemma RowIsBounded(view: ImageView, region: Region, y: nat)
    requires Packed(view) && region.Inside(view) && region.top < y < region.bottom - 1 && region.Width() >= 2
    ensures Bounded(LaplacianRow(view, region, y, region.right - 1))
  {
    hide Packed;
    var row := LaplacianRow(view, region, y, region.right - 1);
    forall i | 0 <= i < |row| ensures -MAX_LAPLACIAN <= row[i] <= MAX_LAPLACIAN {
      assert row[i] == LaplacianAt(view, region, region.left + 1 + i, y);
    }
  }

  lemma {:induction false} RowsAreBounded(view: ImageView, region: Region, bottom: nat)
    requires Packed(view) && region.Inside(view) && region.top < bottom < region.bottom && region.Width() >= 2
    ensures Bounded(LaplacianRows(view, region, bottom))
    decreases bottom
  {
    if bottom != region.top + 1 {
      RowsAreBounded(view, region, bottom - 1);
      RowIsBounded(view, region, bottom - 1);
      hide LaplacianAt;
      hide LaplacianRow;
      hide Packed;
    }
  }

  lemma NothingRunning()
    ensures Running(0, 0.0, 0.0, []) && Paced(0, 0, 0)
  {
  }

  // The accumulators of the scan.
  datatype Welford = Welford(count: u32, mean: real, deviation: real)

  method ScanRow(view: ImageView, region: Region, y: nat, probe: CancelProbe, state: Welford, untilCheck: nat,
                 ghost start: nat, ghost base: nat)
    returns (r: Result<(Welford, nat), QualityError>)
    requires Packed(view) && region.Inside(view) && region.top < y < region.bottom - 1 && region.Width() >= 2
    requires start <= probe.polls && Quiet(probe, start)
    requires Running(state.count, state.mean, state.deviation, LaplacianRows(view, region, y))
    requires Paced(untilCheck, |LaplacianRows(view, region, y)|, probe.polls - base)
    modifies probe
    ensures old(probe.polls) <= probe.polls
    ensures r.Success? <==> Quiet(probe, start)
    ensures r.Failure? ==> r.error == Cancelled
    ensures r.Success? ==>
              && Running(r.value.0.count, r.value.0.mean, r.value.0.deviation, LaplacianRows(view, region, y + 1))
              && Paced(r.value.1, |LaplacianRows(view, region, y + 1)|, probe.polls - base)
  {
    hide Packed;
    hide LaplacianAt;
    hide LaplacianRow;
    hide LaplacianRows;
    hide Quiet;
    hide Running;
    hide Paced;
    hide Area;
    var count, mean, deviation, pause := state.count, state.mean, state.deviation, untilCheck;
    ghost var above := LaplacianRows(view, region, y);
    LaplacianRowStarts(view, region, y);
    for x := region.left + 1 to region.right - 1
      invariant old(probe.polls) <= probe.polls && Quiet(probe, start)
      invariant Running(count, mean, deviation, above + LaplacianRow(view, region, y, x))
      invariant Paced(pause, |above + LaplacianRow(view, region, y, x)|, probe.polls - base)
    {
      ghost var scanned := above + LaplacianRow(view, region, y, x);
      LaplacianRowGrows(view, region, y, x);
      var poll := PollPixel(probe, start, base, |scanned|, pause);
      if poll.Failure? { return Failure(poll.error); }
      pause := poll.value;
      count, mean, deviation := AddValue(count, mean, deviation, LaplacianAt(view, region, x, y), scanned);
    }
    r := Success((Welford(count, mean, deviation), pause));
  }

  method ScanInterior(view: ImageView, region: Region, probe: CancelProbe, ghost start: nat)
    returns (r: Result<real, QualityError>)
    requires Packed(view) && region.Inside(view) && region.Width() >= 3 && region.Height() >= 3
    requires start <= probe.polls && Quiet(probe, start)
    modifies probe
    ensures old(probe.polls) <= probe.polls
    ensures Laplacians(view, region) != []
    ensures r == if Quiet(probe, start) then Success(PopulationVariance(Laplacians(view, region)))
                 else Failure(Cancelled)
  {
    SomeInterior(view, region);
    hide Packed;
    hide LaplacianRows;
    hide Quiet;
    hide Running;
    hide PopulationVariance;
    hide Paced;
    hide Area;
    hide Mean;
    var state, untilCheck: nat := Welford(0, 0.0, 0.0), 0;
    ghost var base := probe.polls;
    NothingRunning();
    NoRowsYet(view, region);
    for y := region.top + 1 to region.bottom - 1
      invariant start <= probe.polls && base <= probe.polls && Quiet(probe, start)
      invariant Running(state.count, state.mean, state.deviation, LaplacianRows(view, region, y))
      invariant Paced(untilCheck, |LaplacianRows(view, region, y)|, probe.polls - base)
    {
      var row := ScanRow(view, region, y, probe, state, untilCheck, start, base);
      if row.Failure? { return Failure(row.error); }
      state, untilCheck := row.value.0, row.value.1;
    }
    CountedAll(view, region, state.count, state.mean, state.deviation);
    r := Success(state.deviation / state.count as real);
  }

  // Exactly the population variance of the interior Laplacians; a region without an interior is the
  // only failure besides cancellation.
  method ScanLaplacian(view: ImageView, region: Region, probe: CancelProbe, ghost start: nat)
    returns (r: Result<real, QualityError>)
    requires Packed(view) && region.Inside(view)
    requires start <= probe.polls && Quiet(probe, start)
    modifies probe
    ensures old(probe.polls) <= probe.polls
    ensures !Quiet(probe, start) ==> r == Failure(Cancelled)
    ensures Quiet(probe, start) && (region.Width() < 3 || region.Height() < 3) ==>
              r == Failure(FaceRegionTooSmall(region.Width(), region.Height()))
    ensures Quiet(probe, start) && region.Width() >= 3 && region.Height() >= 3 ==>
              Laplacians(view, region) != [] && r == Success(PopulationVariance(Laplacians(view, region)))
  {
    // Without an interior the loops run over nothing and the count stays zero.
    if region.Width() < 3 || region.Height() < 3 {
      return Failure(FaceRegionTooSmall(region.Width(), region.Height()));
    }
    r := ScanInterior(view, region, probe, start);
  }

  lemma AreaIsPositive(width: nat, height: nat)
    requires 0 < width && 0 < height
    ensures Area(width, height) > 0
  {
  }

  lemma SomeInterior(view: ImageView, region: Region)
    requires Packed(view) && region.Inside(view) && region.Width() >= 3 && region.Height() >= 3
    ensures Laplacians(view, region) != []
  {
    AreaIsPositive(region.Width() - 2, region.Height() - 2);
    hide Area;
    hide Packed;
    hide LaplacianRow;
  }

  lemma NoRowsYet(view: ImageView, region: Region)
    requires Packed(view) && region.Inside(view) && region.Width() >= 3 && region.Height() >= 3
    ensures LaplacianRows(view, region, region.top + 1) == []
  {
  }

  lemma CountedAll(view: ImageView, region: Region, count: nat, mean: real, deviation: real)
    requires Packed(view) && region.Inside(view) && region.Width() >= 3 && region.Height() >= 3
    requires Running(count, mean, deviation, Laplacians(view, region))
    ensures 0 < count && Laplacians(view, region) != []
    ensures deviation / count as real == PopulationVariance(Laplacians(view, region))
  {
    SomeInterior(view, region);
    RunningIsTwoPass(count, mean, deviation, Laplacians(view, region));
  }
}
