// Confidence-ordered overlap suppression of detected faces.
module Suppression {
  import opened Wrappers
  import opened Arithmetic

  datatype FaceBox = FaceBox(left: real, top: real, right: real, bottom: real) {
    // What the detector output decoder admits.
    predicate Proper() {
      left < right && top < bottom
    }

    function Extent(): (a: real) {
      Product(right - left, bottom - top)
    }
  }

  datatype Face = Face(bounds: FaceBox, confidence: real)

  datatype DetectionError =
    | InvalidDetectionPostprocessConfig
    | FaceDetectionLimitExceeded(count: nat, maximum: nat)

  // ---------------------------------------------------------------- overlap

  // How much two intervals share.
  function Shared(low: real, high: real, low': real, high': real): (s: real) {
    Larger(Smaller(high, high') - Larger(low, low'), 0.0)
  }

  function Intersection(a: FaceBox, b: FaceBox): (s: real) {
    Product(Shared(a.left, a.right, b.left, b.right), Shared(a.top, a.bottom, b.top, b.bottom))
  }

  function IntersectionOverUnion(a: FaceBox, b: FaceBox): (r: real) {
    var union := a.Extent() + b.Extent() - Intersection(a, b);
    if union > 0.0 then Intersection(a, b) / union else 0.0
  }

  lemma OverlapIsSymmetric(a: FaceBox, b: FaceBox)
    ensures IntersectionOverUnion(a, b) == IntersectionOverUnion(b, a)
  {
    assert Intersection(a, b) == Intersection(b, a);
    hide Product;
    hide Intersection;
  }

  lemma ProductIsMonotone(x: real, y: real, x': real, y': real)
    requires 0.0 <= x <= x' && 0.0 <= y <= y'
    ensures 0.0 <= Product(x, y) <= Product(x', y')
  {
    ProductIsNotNegative(x, y);
    ProductIsNotNegative(x' - x, y);
    ProductIsNotNegative(x', y' - y);
    assert Product(x' - x, y) == Product(x', y) - Product(x, y);
    assert Product(x', y' - y) == Product(x', y') - Product(x', y);
  }

  lemma IntersectionFits(a: FaceBox, b: FaceBox)
    requires a.Proper() && b.Proper()
    ensures 0.0 <= Intersection(a, b) <= a.Extent() && Intersection(a, b) <= b.Extent()
    ensures a.Extent() > 0.0
  {
    hide Product;
    var w, h := Shared(a.left, a.right, b.left, b.right), Shared(a.top, a.bottom, b.top, b.bottom);
    ProductIsMonotone(w, h, a.right - a.left, a.bottom - a.top);
    ProductIsMonotone(w, h, b.right - b.left, b.bottom - b.top);
    LikeSigns(a.right - a.left, a.bottom - a.top);
  }

  lemma Fraction(s: real, union: real)
    requires 0.0 <= s <= union && 0.0 < union
    ensures 0.0 <= s / union <= 1.0
    ensures s / union == 1.0 <==> s == union
  {
    var q := s / union;
    assert q * union == s;
  }

  lemma SmallerProduct(x: real, y: real, x': real, y': real)
    requires 0.0 <= x <= x' && 0.0 <= y <= y' && 0.0 < x' && 0.0 < y'
    ensures x < x' || y < y' ==> Product(x, y) < Product(x', y')
  {
    ProductIsNotNegative(x, y' - y);
    ProductIsNotNegative(x' - x, y);
    if x < x' { ProductIsPositive(x' - x, y'); }
    if y < y' { ProductIsPositive(x', y' - y); }
    assert Product(x, y' - y) == Product(x, y') - Product(x, y);
    assert Product(x' - x, y) == Product(x', y) - Product(x, y);
    assert Product(x' - x, y') == Product(x', y') - Product(x, y');
    assert Product(x', y' - y) == Product(x', y') - Product(x', y);
  }

  lemma FullIntersection(a: FaceBox, b: FaceBox)
    requires a.Proper() && b.Proper() && Intersection(a, b) == a.Extent()
    ensures b.left <= a.left && a.right <= b.right && b.top <= a.top && a.bottom <= b.bottom
  {
    hide Product;
    SmallerProduct(Shared(a.left, a.right, b.left, b.right), Shared(a.top, a.bottom, b.top, b.bottom),
                   a.right - a.left, a.bottom - a.top);
  }

  // The overlap of decoded boxes is a ratio, and only equal boxes overlap completely.
  lemma OverlapIsARatio(a: FaceBox, b: FaceBox)
    requires a.Proper() && b.Proper()
    ensures 0.0 <= IntersectionOverUnion(a, b) <= 1.0
    ensures IntersectionOverUnion(a, b) == 1.0 <==> a == b
  {
    assert Intersection(a, b) == Intersection(b, a);
    IntersectionFits(a, b);
    IntersectionFits(b, a);
    hide Product;
    var union := a.Extent() + b.Extent() - Intersection(a, b);
    Fraction(Intersection(a, b), union);
    assert a == b ==> Intersection(a, b) == a.Extent();
    if Intersection(a, b) == union {
      FullIntersection(a, b);
      FullIntersection(b, a);
    }
  }

  predicate Inside(x: real, y: real, b: FaceBox) {
    b.left <= x <= b.right && b.top <= y <= b.bottom
  }

  function CommonBox(a: FaceBox, b: FaceBox): (c: FaceBox) {
    FaceBox(Larger(a.left, b.left), Larger(a.top, b.top), Smaller(a.right, b.right), Smaller(a.bottom, b.bottom))
  }

  // The intersection is the area of the points both boxes hold, and the ratio is to the area that at
  // least one of them holds.
  lemma OverlapIsOfSharedPoints(a: FaceBox, b: FaceBox)
    requires a.Proper() && b.Proper()
    ensures forall x, y :: Inside(x, y, a) && Inside(x, y, b) <==> Inside(x, y, CommonBox(a, b))
    ensures Intersection(a, b) == if CommonBox(a, b).Proper() then CommonBox(a, b).Extent() else 0.0
    ensures Product(IntersectionOverUnion(a, b), a.Extent() + b.Extent() - Intersection(a, b)) == Intersection(a, b)
  {
    IntersectionFits(a, b);
    IntersectionFits(b, a);
    SharedIsZeroOrProper(a, b);
    OverlapIsSymmetric(a, b);
    QuotientTimes(Intersection(a, b), a.Extent() + b.Extent() - Intersection(a, b));
    hide Product;
    hide Intersection;
  }

  lemma QuotientTimes(s: real, union: real)
    requires union != 0.0
    ensures Product(s / union, union) == s
  {
  }

  lemma SharedIsZeroOrProper(a: FaceBox, b: FaceBox)
    ensures Intersection(a, b) == if CommonBox(a, b).Proper() then CommonBox(a, b).Extent() else 0.0
  {
  }

  // ---------------------------------------------------------------- the greedy kernel

  // Higher confidence first; equal confidences keep the candidate order.
  predicate Above(faces: seq<Face>, i: nat, j: nat)
    requires i < |faces| && j < |faces|
  {
    faces[i].confidence > faces[j].confidence || (faces[i].confidence == faces[j].confidence && i < j)
  }

  predicate Overlap(faces: seq<Face>, maximumIou: real, i: nat, j: nat)
    requires i < |faces| && j < |faces|
  {
    IntersectionOverUnion(faces[i].bounds, faces[j].bounds) > maximumIou
  }

  predicate Indices(faces: seq<Face>, s: seq<nat>): (b: bool)
    ensures b ==> forall i :: i in s ==> i < |faces|
  {
    forall k :: 0 <= k < |s| ==> s[k] < |faces|
  }

  ghost predicate Ranked(faces: seq<Face>, s: seq<nat>)
    requires Indices(faces, s)
  {
    forall a, b :: 0 <= a < b < |s| ==> Above(faces, s[a], s[b])
  }

  // A member of `s` ranked above `i` overlaps it too much.
  ghost predicate Covered(faces: seq<Face>, maximumIou: real, s: seq<nat>, i: nat)
    requires Indices(faces, s) && i < |faces|
  {
    exists j :: j in s && Above(faces, j, i) && Overlap(faces, maximumIou, i, j)
  }

  // The faces to keep: exactly those not covered by a kept face, best first.
  ghost predicate RankedKernel(faces: seq<Face>, maximumIou: real, kernel: seq<nat>) {
    && Indices(faces, kernel)
    && Ranked(faces, kernel)
    && forall i: nat :: i < |faces| ==> (i in kernel <==> !Covered(faces, maximumIou, kernel, i))
  }

  ghost predicate RankOrder(faces: seq<Face>, order: seq<nat>) {
    && Indices(faces, order)
    && Ranked(faces, order)
    && forall i: nat :: i < |faces| ==> i in order
  }

  function Pick(faces: seq<Face>, s: seq<nat>): (picked: seq<Face>)
    requires Indices(faces, s)
    ensures |picked| == |s| && forall k :: 0 <= k < |s| ==> picked[k] == faces[s[k]]
  {
    if s == [] then [] else Pick(faces, s[..|s| - 1]) + [faces[s[|s| - 1]]]
  }

  // What the loop keeps of a prefix of the order when nothing limits it.
  ghost function Greedy(faces: seq<Face>, maximumIou: real, order: seq<nat>): (kept: seq<nat>)
    requires Indices(faces, order)
    ensures Indices(faces, kept)
    ensures forall i :: i in kept ==> i in order
  {
    if order == [] then []
    else
      var n := |order| - 1;
      var kept := Greedy(faces, maximumIou, order[..n]);
      if exists j :: j in kept && Overlap(faces, maximumIou, order[n], j) then kept else kept + [order[n]]
  }

  // Candidates ranked below everything in `s` are covered by `s` as soon as they overlap a member.
  ghost predicate Settled(faces: seq<Face>, maximumIou: real, order: seq<nat>, kept: seq<nat>)
    requires Indices(faces, order) && Indices(faces, kept)
  {
    && (forall i :: i in kept ==> i in order)
    && Ranked(faces, kept)
    && forall i :: i in order ==> (i in kept <==> !Covered(faces, maximumIou, kept, i))
  }

  lemma AppendSettles(faces: seq<Face>, maximumIou: real, order: seq<nat>, kept: seq<nat>, last: nat)
    requires last < |faces| && Indices(faces, order) && Indices(faces, kept) && Settled(faces, maximumIou, order, kept)
    requires forall i :: i in order ==> Above(faces, i, last)
    ensures
      var covered := exists j :: j in kept && Overlap(faces, maximumIou, last, j);
      Settled(faces, maximumIou, order + [last], if covered then kept else kept + [last])
  {
    hide Overlap;
    assert last !in order;
    if j :| j in kept && Overlap(faces, maximumIou, last, j) {
      assert Covered(faces, maximumIou, kept, last);
      assert last !in kept;
    } else {
      var grown := kept + [last];
      assert Ranked(faces, grown);
      forall i | i in order + [last] ensures i in grown <==> !Covered(faces, maximumIou, grown, i) {
        if i in order {
          assert Covered(faces, maximumIou, kept, i) <==> Covered(faces, maximumIou, grown, i);
        } else {
          assert i == last && last in grown;
          assert !Covered(faces, maximumIou, grown, last);
        }
      }
    }
  }

  lemma RankedPrefix(faces: seq<Face>, order: seq<nat>, n: nat)
    requires Indices(faces, order) && Ranked(faces, order) && n + 1 == |order|
    ensures Ranked(faces, order[..n])
    ensures forall i :: i in order[..n] ==> Above(faces, i, order[n])
  {
    hide Above;
  }

  lemma {:induction false} GreedySettles(faces: seq<Face>, maximumIou: real, order: seq<nat>)
    requires Indices(faces, order) && Ranked(faces, order)
    ensures Settled(faces, maximumIou, order, Greedy(faces, maximumIou, order))
    decreases |order|
  {
    if order != [] {
      var n := |order| - 1;
      RankedPrefix(faces, order, n);
      GreedySettles(faces, maximumIou, order[..n]);
      hide Settled;
      hide Overlap;
      hide Above;
      hide Ranked;
      assert order == order[..n] + [order[n]];
      AppendSettles(faces, maximumIou, order[..n], Greedy(faces, maximumIou, order[..n]), order[n]);
    }
  }

  // The loop's result is a kernel of all the faces.
  lemma GreedyIsKernel(faces: seq<Face>, maximumIou: real, order: seq<nat>)
    requires RankOrder(faces, order)
    ensures RankedKernel(faces, maximumIou, Greedy(faces, maximumIou, order))
  {
    GreedySettles(faces, maximumIou, order);
  }

  // ---------------------------------------------------------------- uniqueness

  // How many faces rank above `i`: the measure the uniqueness proof descends on.
  ghost function Better(faces: seq<Face>, i: nat): (s: set<nat>)
    requires i < |faces|
  {
    set j: nat | j < |faces| && Above(faces, j, i)
  }

  lemma {:induction false} KernelsAgreeAt(faces: seq<Face>, maximumIou: real, k: seq<nat>, k': seq<nat>, i: nat)
    requires RankedKernel(faces, maximumIou, k) && RankedKernel(faces, maximumIou, k') && i < |faces|
    ensures i in k <==> i in k'
    decreases |Better(faces, i)|
  {
    hide Overlap;
    forall j: nat | j < |faces| && Above(faces, j, i) ensures j in k <==> j in k' {
      assert Better(faces, j) < Better(faces, i) by { assert j in Better(faces, i) && j !in Better(faces, j); }
      Shrinks(Better(faces, j), Better(faces, i));
      KernelsAgreeAt(faces, maximumIou, k, k', j);
    }
    assert Covered(faces, maximumIou, k, i) <==> Covered(faces, maximumIou, k', i);
  }

  lemma Shrinks(a: set<nat>, b: set<nat>)
    requires a < b
    ensures |a| < |b|
  {
    assert b == a + (b - a);
    assert |b - a| > 0;
  }

  lemma {:induction false} RankedListsAreEqual(faces: seq<Face>, s: seq<nat>, t: seq<nat>)
    requires Indices(faces, s) && Indices(faces, t) && Ranked(faces, s) && Ranked(faces, t)
    requires forall i :: i in s <==> i in t
    ensures s == t
    decreases |s|
  {
    assert t == [] || t[0] in t;
    if s != [] {
      assert s[0] in t;
      var a, b := s[0], t[0];
      assert a in t && b in s;
      assert a == b;
      assert s == [a] + s[1..] && t == [a] + t[1..];
      forall i ensures i in s[1..] <==> i in t[1..] {
        assert a !in s[1..] && a !in t[1..];
        assert i in s <==> i == a || i in s[1..];
        assert i in t <==> i == a || i in t[1..];
      }
      RankedListsAreEqual(faces, s[1..], t[1..]);
    }
  }

  // There is exactly one kernel.
  lemma KernelIsUnique(faces: seq<Face>, maximumIou: real, k: seq<nat>, k': seq<nat>)
    requires RankedKernel(faces, maximumIou, k) && RankedKernel(faces, maximumIou, k')
    ensures k == k'
  {
    forall i: nat | i < |faces| ensures i in k <==> i in k' {
      KernelsAgreeAt(faces, maximumIou, k, k', i);
    }
    hide Covered;
    hide Above;
    assert forall i :: i in k <==> i in k';
    RankedListsAreEqual(faces, k, k');
  }

  // ---------------------------------------------------------------- what a kernel means

  // Retained faces do not overlap each other; every dropped face overlaps a better retained one.
  lemma KernelSeparatesAndCovers(faces: seq<Face>, maximumIou: real, kernel: seq<nat>)
    requires RankedKernel(faces, maximumIou, kernel)
    ensures forall i, j :: i in kernel && j in kernel && i != j ==> !Overlap(faces, maximumIou, i, j)
    ensures forall i: nat :: i < |faces| && i !in kernel ==>
              exists j :: j in kernel && Above(faces, j, i) && Overlap(faces, maximumIou, i, j)
  {
    forall i, j | i in kernel && j in kernel && i != j ensures !Overlap(faces, maximumIou, i, j) {
      OverlapIsSymmetric(faces[i].bounds, faces[j].bounds);
      hide IntersectionOverUnion;
      assert !Covered(faces, maximumIou, kernel, i) && !Covered(faces, maximumIou, kernel, j);
      assert Above(faces, i, j) || Above(faces, j, i);
    }
    forall i: nat | i < |faces| && i !in kernel
      ensures exists j :: j in kernel && Above(faces, j, i) && Overlap(faces, maximumIou, i, j)
    {
      assert Covered(faces, maximumIou, kernel, i);
    }
  }

  ghost function Every(n: nat): (s: seq<nat>) {
    seq(n, k requires 0 <= k < n => k)
  }

  // Suppressing what suppression kept changes nothing.
  lemma SuppressionIsIdempotent(faces: seq<Face>, maximumIou: real, kernel: seq<nat>)
    requires RankedKernel(faces, maximumIou, kernel)
    ensures RankedKernel(Pick(faces, kernel), maximumIou, Every(|kernel|))
    ensures Pick(Pick(faces, kernel), Every(|kernel|)) == Pick(faces, kernel)
  {
    var picked, all := Pick(faces, kernel), Every(|kernel|);
    KernelSeparatesAndCovers(faces, maximumIou, kernel);
    forall a: nat, b: nat | a < |picked| && b < |picked| && a != b ensures !Overlap(picked, maximumIou, a, b) {
      assert Above(faces, kernel[a], kernel[b]) || Above(faces, kernel[b], kernel[a]);
      assert kernel[a] in kernel && kernel[b] in kernel;
      assert !Overlap(faces, maximumIou, kernel[a], kernel[b]);
    }
    forall a, b | 0 <= a < b < |all| ensures Above(picked, all[a], all[b]) {
      assert Above(faces, kernel[a], kernel[b]);
    }
    forall i: nat | i < |picked| ensures i in all && !Covered(picked, maximumIou, all, i) {
      assert all[i] == i;
    }
  }

  // ---------------------------------------------------------------- the operation

  lemma InsertionKeepsRank(faces: seq<Face>, before: seq<nat>, at: nat, i: nat)
    requires i < |faces| && Indices(faces, before) && Ranked(faces, before) && at <= |before|
    requires forall a :: 0 <= a < at ==> Above(faces, before[a], i)
    requires forall a :: at <= a < |before| ==> Above(faces, i, before[a])
    ensures var order := before[..at] + [i] + before[at..];
            Indices(faces, order) && Ranked(faces, order)
  {
    var order := before[..at] + [i] + before[at..];
    assert forall a :: 0 <= a < |order| ==>
             order[a] == if a < at then before[a] else if a == at then i else before[a - 1];
    hide Above;
  }

  lemma EverythingBelow(faces: seq<Face>, before: seq<nat>, at: nat, i: nat)
    requires i < |faces| && Indices(faces, before) && Ranked(faces, before) && at < |before|
    requires i !in before && !Above(faces, before[at], i)
    ensures forall a :: at <= a < |before| ==> Above(faces, i, before[a])
  {
    forall a | at <= a < |before| ensures Above(faces, i, before[a]) {
      assert before[a] in before && before[at] in before;
      assert a == at || Above(faces, before[at], before[a]);
    }
  }

  // Stands for the library's sort, by insertion, with the comparator of the source.
  method SortCandidates(faces: seq<Face>) returns (order: seq<nat>)
    ensures RankOrder(faces, order)
  {
    hide Above;
    order := [];
    for i := 0 to |faces|
      invariant Indices(faces, order) && Ranked(faces, order)
      invariant forall k: nat :: k < i <==> k in order
    {
      var at := 0;
      while at < |order| && Above(faces, order[at], i)
        invariant 0 <= at <= |order|
        invariant forall a :: 0 <= a < at ==> Above(faces, order[a], i)
      {
        at := at + 1;
      }
      if at < |order| { EverythingBelow(faces, order, at, i); }
      InsertionKeepsRank(faces, order, at, i);
      ghost var before := order;
      assert before == before[..at] + before[at..];
      order := order[..at] + [i] + order[at..];
      assert forall k :: k in order <==> k in before || k == i;
    }
  }

  lemma {:induction false} GreedyGrows(faces: seq<Face>, maximumIou: real, order: seq<nat>, n: nat)
    requires Indices(faces, order) && n <= |order|
    ensures |Greedy(faces, maximumIou, order[..n])| <= |Greedy(faces, maximumIou, order)|
    decreases |order|
  {
    if n == |order| {
      assert order[..n] == order;
    } else {
      var m := |order| - 1;
      assert order[..m][..n] == order[..n];
      GreedyGrows(faces, maximumIou, order[..m], n);
    }
  }

  method OverlapsRetained(faces: seq<Face>, maximumIou: real, retained: seq<nat>, i: nat) returns (b: bool)
    requires Indices(faces, retained) && i < |faces|
    ensures b <==> exists j :: j in retained && Overlap(faces, maximumIou, i, j)
  {
    for k := 0 to |retained|
      invariant forall a :: 0 <= a < k ==> !Overlap(faces, maximumIou, i, retained[a])
    {
      if Overlap(faces, maximumIou, i, retained[k]) { return true; }
    }
    b := false;
  }

  predicate ValidLimits(maximumIou: real, maximumFaces: nat) {
    0.0 <= maximumIou <= 1.0 && 1 <= maximumFaces <= 64
  }

  // What suppression comes to, given the kernel: its faces best first, or the limit error exactly when
  // it is larger than the limit.
  function OutcomeOf(faces: seq<Face>, maximumFaces: nat, kernel: seq<nat>): (r: Result<seq<Face>, DetectionError>)
    requires Indices(faces, kernel)
  {
    if |kernel| > maximumFaces then Failure(FaceDetectionLimitExceeded(maximumFaces + 1, maximumFaces))
    else Success(Pick(faces, kernel))
  }

  // `kept` are the candidates at `kernel`, most confident first, equally confident ones in input order.
  ghost predicate BestFirst(faces: seq<Face>, kernel: seq<nat>, kept: seq<Face>) {
    && |kernel| == |kept|
    && (forall a :: 0 <= a < |kept| ==> kernel[a] < |faces| && kept[a] == faces[kernel[a]])
    && forall a, b :: 0 <= a < b < |kept| ==>
         || kept[a].confidence > kept[b].confidence
         || (kept[a].confidence == kept[b].confidence && kernel[a] < kernel[b])
  }

  // Every candidate missing from `kernel` overlaps a kept face that is at least as confident, and that
  // comes before it if it is not more so; no two kept faces overlap.
  ghost predicate NothingWorseKept(faces: seq<Face>, maximumIou: real, kernel: seq<nat>, kept: seq<Face>) {
    && (forall i: nat :: i < |faces| && i !in kernel ==>
          exists a :: 0 <= a < |kept| && a < |kernel|
            && IntersectionOverUnion(faces[i].bounds, kept[a].bounds) > maximumIou
            && (kept[a].confidence > faces[i].confidence
                || (kept[a].confidence == faces[i].confidence && kernel[a] < i)))
    && forall a, b :: 0 <= a < |kept| && 0 <= b < |kept| && a != b ==>
         IntersectionOverUnion(kept[a].bounds, kept[b].bounds) <= maximumIou
  }

  lemma KernelIsBestFirst(faces: seq<Face>, maximumIou: real, kernel: seq<nat>)
    requires RankedKernel(faces, maximumIou, kernel)
    ensures BestFirst(faces, kernel, Pick(faces, kernel))
  {
    var kept := Pick(faces, kernel);
    forall a, b | 0 <= a < b < |kept|
      ensures || kept[a].confidence > kept[b].confidence
              || (kept[a].confidence == kept[b].confidence && kernel[a] < kernel[b])
    {
      assert Above(faces, kernel[a], kernel[b]);
    }
  }

  lemma KernelSeparatesKept(faces: seq<Face>, maximumIou: real, kernel: seq<nat>)
    requires Indices(faces, kernel) && Ranked(faces, kernel)
    requires forall i, j :: i in kernel && j in kernel && i != j ==> !Overlap(faces, maximumIou, i, j)
    ensures var kept := Pick(faces, kernel);
            forall a, b :: 0 <= a < |kept| && 0 <= b < |kept| && a != b ==>
              IntersectionOverUnion(kept[a].bounds, kept[b].bounds) <= maximumIou
  {
    hide IntersectionOverUnion;
    var kept := Pick(faces, kernel);
    forall a, b | 0 <= a < |kept| && 0 <= b < |kept| && a != b
      ensures IntersectionOverUnion(kept[a].bounds, kept[b].bounds) <= maximumIou
    {
      assert kernel[a] in kernel && kernel[b] in kernel;
      assert Above(faces, kernel[a], kernel[b]) || Above(faces, kernel[b], kernel[a]);
      assert !Overlap(faces, maximumIou, kernel[a], kernel[b]);
    }
  }

  // What the kernel says of confidences and overlaps alone.
  lemma KernelKeepsTheMostConfident(faces: seq<Face>, maximumIou: real, kernel: seq<nat>)
    requires RankedKernel(faces, maximumIou, kernel)
    ensures NothingWorseKept(faces, maximumIou, kernel, Pick(faces, kernel))
  {
    KernelSeparatesAndCovers(faces, maximumIou, kernel);
    assert Indices(faces, kernel) && Ranked(faces, kernel);
    KernelSeparatesKept(faces, maximumIou, kernel);
    hide RankedKernel;
    hide Ranked;
    hide IntersectionOverUnion;
    var kept := Pick(faces, kernel);
    forall i: nat | i < |faces| && i !in kernel
      ensures exists a :: 0 <= a < |kept| && a < |kernel|
                && IntersectionOverUnion(faces[i].bounds, kept[a].bounds) > maximumIou
                && (kept[a].confidence > faces[i].confidence
                    || (kept[a].confidence == faces[i].confidence && kernel[a] < i))
    {
      var j :| j in kernel && Above(faces, j, i) && Overlap(faces, maximumIou, i, j);
      var a :| 0 <= a < |kernel| && kernel[a] == j;
      assert kept[a] == faces[j];
    }
  }

  method RetainCandidates(faces: seq<Face>, maximumIou: real, maximumFaces: nat, order: seq<nat>)
    returns (r: Result<seq<Face>, DetectionError>)
    requires Indices(faces, order)
    ensures r == OutcomeOf(faces, maximumFaces, Greedy(faces, maximumIou, order))
  {
    hide Overlap;
    hide Pick;
    var retained := [];
    for n := 0 to |order|
      invariant retained == Greedy(faces, maximumIou, order[..n]) && |retained| <= maximumFaces
    {
      var index := order[n];
      assert order[..n + 1][..n] == order[..n];
      var overlaps := OverlapsRetained(faces, maximumIou, retained, index);
      if !overlaps {
        if |retained| == maximumFaces {
          GreedyGrows(faces, maximumIou, order, n + 1);
          return Failure(FaceDetectionLimitExceeded(|retained| + 1, maximumFaces));
        }
        retained := retained + [index];
      }
    }
    assert order[..|order|] == order;
    r := Success(Pick(faces, retained));
  }

  method SuppressOverlaps(faces: seq<Face>, maximumIou: real, maximumFaces: nat)
    returns (r: Result<seq<Face>, DetectionError>)
    ensures r == Failure(InvalidDetectionPostprocessConfig) <==>
              !(0.0 <= maximumIou <= 1.0 && 1 <= maximumFaces <= 64)
    ensures r.Failure? && r.error.FaceDetectionLimitExceeded? ==>
              && r.error.maximum == maximumFaces && r.error.count == maximumFaces + 1
              && exists kernel :: RankedKernel(faces, maximumIou, kernel) && |kernel| > maximumFaces
    ensures r.Success? ==> |r.value| <= maximumFaces
    // The most confident face of every overlapping group, in terms of confidences and overlaps alone.
    ensures r.Success? ==>
              exists kernel ::
                BestFirst(faces, kernel, r.value) && NothingWorseKept(faces, maximumIou, kernel, r.value)
    ensures ValidLimits(maximumIou, maximumFaces) ==>
              exists kernel :: RankedKernel(faces, maximumIou, kernel) && r == OutcomeOf(faces, maximumFaces, kernel)
  {
    if !ValidLimits(maximumIou, maximumFaces) { return Failure(InvalidDetectionPostprocessConfig); }
    var order := SortCandidates(faces);
    ghost var kernel := Greedy(faces, maximumIou, order);
    GreedyIsKernel(faces, maximumIou, order);
    KernelIsBestFirst(faces, maximumIou, kernel);
    KernelKeepsTheMostConfident(faces, maximumIou, kernel);
    hide RankedKernel;
    hide Greedy;
    hide BestFirst;
    hide NothingWorseKept;
    r := RetainCandidates(faces, maximumIou, maximumFaces, order);
  }
}
