/** Greedy non-maximum suppression in its two forms: flags over the sorted list, and a list of kept boxes. */
module Nms {
  import opened Common
  import opened Sorting

  /** A detection; tag stands for what it carries along (keypoints, mask coefficients). */
  datatype Det = Det(x: real, y: real, w: real, h: real, confidence: real, cls: int, tag: int)

  function Inter(a: Det, b: Det): real {
    MaxReal(0.0, MinReal(a.x + a.w, b.x + b.w) - MaxReal(a.x, b.x)) *
    MaxReal(0.0, MinReal(a.y + a.h, b.y + b.h) - MaxReal(a.y, b.y))
  }

  /** Intersection over union, 0 for an empty union; areas are clamped. */
  function Iou(a: Det, b: Det): real {
    var inter := Inter(a, b);
    var areaA, areaB := MaxReal(0.0, a.w) * MaxReal(0.0, a.h), MaxReal(0.0, b.w) * MaxReal(0.0, b.h);
    var uni := areaA + areaB - inter;
    if uni <= 0.0 then 0.0 else inter / uni
  }

  /** The flag form's test. `aware`: only within a class. */
  predicate Suppresses(a: Det, b: Det, thr: real, aware: bool) {
    (aware ==> a.cls == b.cls) && Iou(a, b) > thr
  }

  /** The keep-list form's test, with areas not clamped. */
  predicate Duplicates(b: Det, k: Det, thr: real) {
    k.cls == b.cls &&
    var inter := Inter(b, k);
    var uni := b.w * b.h + k.w * k.h - inter;
    uni > 0.0 && inter / uni > thr
  }

  predicate Sized(s: seq<Det>) { forall d | d in s :: d.w > 0.0 && d.h > 0.0 }

  function Confidence(): Det -> real { (d: Det) => d.confidence }

  // ----- both forms -----

  predicate SuppressedBy(kept: seq<Det>, b: Det, thr: real, aware: bool) { exists k :: k in kept && Suppresses(k, b, thr, aware) }

  /** Greedy selection: each box in turn, unless one kept before suppresses it. */
  function Greedy(s: seq<Det>, thr: real, aware: bool): seq<Det> {
    if s == [] then []
    else
      var kept := Greedy(Front(s), thr, aware);
      if SuppressedBy(kept, Last(s), thr, aware) then kept else kept + [Last(s)]
  }

  /** The flag form on a sorted list: keep a box that is not flagged, and flag what it suppresses further on. */
  method FlagForm(objs: seq<Det>, thr: real, aware: bool) returns (kept: seq<Det>)
    ensures kept == Greedy(objs, thr, aware)
  {
    hide Suppresses, SuppressedBy;
    kept := [];
    NothingSuppresses(objs, thr, aware);
    var suppressed := new bool[|objs|](i => false);
    for i := 0 to |objs|
      invariant kept == Greedy(objs[..i], thr, aware)
      invariant forall j | i <= j < |objs| ::
          suppressed[j] == SuppressedBy(kept, objs[j], thr, aware)
    {
      assert objs[..i + 1] == objs[..i] + [objs[i]];
      if suppressed[i] { continue; }
      ghost var before, flags := kept, suppressed[..];
      kept := kept + [objs[i]];
      FlagFurther(objs, i, suppressed, thr, aware);
      forall j | i + 1 <= j < |objs| ensures suppressed[j] == SuppressedBy(kept, objs[j], thr, aware) {
        OneMoreKept(before, objs[i], objs[j], thr, aware);
        assert flags[j] == SuppressedBy(before, objs[j], thr, aware);
      }
    }
    assert objs[..|objs|] == objs;
  }

  lemma NothingSuppresses(objs: seq<Det>, thr: real, aware: bool)
    ensures forall j | 0 <= j < |objs| :: !SuppressedBy([], objs[j], thr, aware)
  {}

  lemma OneMoreKept(kept: seq<Det>, d: Det, b: Det, thr: real, aware: bool)
    ensures SuppressedBy(kept + [d], b, thr, aware) <==> SuppressedBy(kept, b, thr, aware) || Suppresses(d, b, thr, aware)
  {
    hide Suppresses;
    assert d in kept + [d];
    assert forall k | k in kept :: k in kept + [d];
  }

  /** The inner loop: flag everything after i that box i suppresses. */
  method FlagFurther(objs: seq<Det>, i: nat, suppressed: array<bool>, thr: real, aware: bool)
    requires i < |objs| == suppressed.Length
    modifies suppressed
    ensures forall m | i < m < |objs| ::
        suppressed[m] == (old(suppressed[m]) || Suppresses(objs[i], objs[m], thr, aware))
  {
    hide Suppresses;
    ghost var flags := suppressed[..];
    for j := i + 1 to |objs|
      invariant forall m | j <= m < |objs| :: suppressed[m] == flags[m]
      invariant forall m | i < m < j :: suppressed[m] == (flags[m] || Suppresses(objs[i], objs[m], thr, aware))
    {
      if suppressed[j] { continue; }
      if Suppresses(objs[i], objs[j], thr, aware) { suppressed[j] := true; }
    }
  }

  /** The same selection by the keep-list form's test. */
  function KeepGreedy(s: seq<Det>, thr: real): seq<Det> {
    if s == [] then []
    else
      var kept := KeepGreedy(Front(s), thr);
      if exists k :: k in kept && Duplicates(Last(s), k, thr) then kept else kept + [Last(s)]
  }

  /** The keep-list form on a sorted list: a box is kept if it duplicates none kept. */
  method KeepListForm(boxes: seq<Det>, thr: real) returns (keep: seq<Det>)
    ensures keep == KeepGreedy(boxes, thr)
  {
    hide Duplicates;
    keep := [];
    for i := 0 to |boxes|
      invariant keep == KeepGreedy(boxes[..i], thr)
    {
      assert boxes[..i + 1] == boxes[..i] + [boxes[i]];
      var b, dup, n := boxes[i], false, 0;
      while n < |keep| && !dup
        invariant 0 <= n <= |keep|
        invariant dup == exists m :: 0 <= m < n && Duplicates(b, keep[m], thr)
      {
        if Duplicates(b, keep[n], thr) { dup := true; }
        n := n + 1;
      }
      assert dup == exists k :: k in keep && Duplicates(b, k, thr) by {
        if k :| k in keep && Duplicates(b, k, thr) {
          var m :| 0 <= m < |keep| && keep[m] == k;
        }
      }
      if !dup { keep := keep + [b]; }
    }
    assert boxes[..|boxes|] == boxes;
  }

  /** Whatever is kept was there. */
  lemma {:induction false} KeptFrom(s: seq<Det>, thr: real, aware: bool)
    ensures forall d | d in Greedy(s, thr, aware) :: d in s
  {
    if s != [] {
      KeptFrom(Front(s), thr, aware);
      assert forall d | d in Front(s) :: d in s;
    }
  }

  lemma ByConfidence(sorted: seq<Det>)
    requires Descending(sorted, Confidence())
    ensures forall i, j | 0 <= i < j < |sorted| :: sorted[i].confidence >= sorted[j].confidence
  {
    forall i, j | 0 <= i < j < |sorted| ensures sorted[i].confidence >= sorted[j].confidence {
      assert Confidence()(sorted[i]) >= Confidence()(sorted[j]);
    }
  }

  /** std::sort, then the flag form: segments (by class) and persons (one class). */
  method Suppress(objs: seq<Det>, thr: real, aware: bool) returns (kept: seq<Det>)
    ensures exists sorted: seq<Det> :: && multiset(sorted) == multiset(objs) && kept == Greedy(sorted, thr, aware)
                             && forall i, j | 0 <= i < j < |sorted| :: sorted[i].confidence >= sorted[j].confidence
  {
    var sorted := SortDescending(objs, Confidence());
    kept := FlagForm(sorted, thr, aware);
    ByConfidence(sorted);
  }

  /** std::sort, then the keep-list form. */
  method MergeOverlapping(boxes: seq<Det>, thr: real) returns (keep: seq<Det>)
    ensures exists sorted: seq<Det> :: && multiset(sorted) == multiset(boxes) && keep == KeepGreedy(sorted, thr)
                             && forall i, j | 0 <= i < j < |sorted| :: sorted[i].confidence >= sorted[j].confidence
  {
    var sorted := SortDescending(boxes, Confidence());
    keep := KeepListForm(sorted, thr);
    ByConfidence(sorted);
  }

  // ----- the overlap measure is the common area -----

  /** The points of a box, and those not on its edge. */
  predicate On(d: Det, x: real, y: real) { d.x <= x <= d.x + d.w && d.y <= y <= d.y + d.h }
  predicate Within(d: Det, x: real, y: real) { d.x < x < d.x + d.w && d.y < y < d.y + d.h }

  ghost predicate Meet(a: Det, b: Det) { exists x, y :: Within(a, x, y) && Within(b, x, y) }

  /** c is the common part of a and b: its points are exactly those of both. */
  ghost predicate SharedPart(c: Det, a: Det, b: Det) {
    c.w > 0.0 && c.h > 0.0 && forall x, y :: On(c, x, y) <==> On(a, x, y) && On(b, x, y)
  }

  lemma SharesPoints(c: Det, a: Det, b: Det)
    requires c.w > 0.0 && c.h > 0.0 && c.x == MaxReal(a.x, b.x) && c.y == MaxReal(a.y, b.y)
    requires c.x + c.w == MinReal(a.x + a.w, b.x + b.w) && c.y + c.h == MinReal(a.y + a.h, b.y + b.h)
    ensures SharedPart(c, a, b)
  {}

  predicate Crossing(a: Det, b: Det) {
    && MaxReal(a.x, b.x) < MinReal(a.x + a.w, b.x + b.w)
    && MaxReal(a.y, b.y) < MinReal(a.y + a.h, b.y + b.h)
  }

  lemma SharedBox(a: Det, b: Det) returns (c: Det)
    requires Crossing(a, b)
    ensures SharedPart(c, a, b) && Inter(a, b) == c.w * c.h > 0.0
  {
    var l, r := MaxReal(a.x, b.x), MinReal(a.x + a.w, b.x + b.w);
    var t, u := MaxReal(a.y, b.y), MinReal(a.y + a.h, b.y + b.h);
    c := Det(l, t, r - l, u - t, 0.0, 0, 0);
    assert MaxReal(0.0, r - l) == c.w && MaxReal(0.0, u - t) == c.h;
    hide MaxReal, MinReal, SharedPart;
    PositiveArea(c.w, c.h);
    SharesPoints(c, a, b);
  }

  lemma NoSharedPoint(a: Det, b: Det)
    requires !Crossing(a, b)
    ensures !Meet(a, b)
  {
  }

  lemma NothingCommon(a: Det, b: Det)
    requires !Crossing(a, b)
    ensures Inter(a, b) == 0.0
  {}

  /** Boxes with a size either share no inner point, and the overlap is 0, or they share a box, and it is its area. */
  lemma InterIsArea(a: Det, b: Det)
    requires a.w > 0.0 && a.h > 0.0 && b.w > 0.0 && b.h > 0.0
    ensures !Meet(a, b) ==> Inter(a, b) == 0.0
    ensures Meet(a, b) ==> exists c :: SharedPart(c, a, b) && Inter(a, b) == c.w * c.h > 0.0
  {
    hide Meet, Crossing, Inter, SharedPart;
    if Crossing(a, b) {
      var c := SharedBox(a, b);
      CommonMeets(c, a, b);
    } else {
      NoSharedPoint(a, b);
      NothingCommon(a, b);
    }
  }

  /** The common part is unique, so its area is a number of the two boxes. */
  lemma CommonUnique(c: Det, d: Det, a: Det, b: Det)
    requires SharedPart(c, a, b) && SharedPart(d, a, b)
    ensures c.x == d.x && c.y == d.y && c.w == d.w && c.h == d.h
  {
    assert On(c, c.x, c.y) && On(c, c.x + c.w, c.y + c.h);
    assert On(d, d.x, d.y) && On(d, d.x + d.w, d.y + d.h);
  }

  /** They share more than thr of what they cover together. */
  ghost predicate ShareMore(a: Det, b: Det, thr: real) {
    exists c :: SharedPart(c, a, b) && c.w * c.h > thr * (a.w * a.h + b.w * b.h - c.w * c.h)
  }

  lemma ShareMoreIff(a: Det, b: Det, thr: real)
    requires a.w > 0.0 && a.h > 0.0 && b.w > 0.0 && b.h > 0.0 && thr >= 0.0
    ensures ShareMore(a, b, thr) <==> Inter(a, b) > thr * (a.w * a.h + b.w * b.h - Inter(a, b))
  {
    hide Inter, Meet, SharedPart;
    InterIsArea(a, b);
    if Meet(a, b) {
      var d :| SharedPart(d, a, b) && Inter(a, b) == d.w * d.h > 0.0;
      if ShareMore(a, b, thr) {
        var c :| SharedPart(c, a, b) && c.w * c.h > thr * (a.w * a.h + b.w * b.h - c.w * c.h);
        CommonUnique(c, d, a, b);
      }
    } else {
      if ShareMore(a, b, thr) {
        var c :| SharedPart(c, a, b) && c.w * c.h > thr * (a.w * a.h + b.w * b.h - c.w * c.h);
        CommonMeets(c, a, b);
      }
      PositiveArea(a.w, a.h);
      PositiveArea(b.w, b.h);
      NotNegative(thr, a.w * a.h + b.w * b.h);
    }
  }

  lemma IouIff(a: Det, b: Det, thr: real)
    requires a.w > 0.0 && a.h > 0.0 && b.w > 0.0 && b.h > 0.0
    ensures Iou(a, b) > thr <==> Inter(a, b) > thr * (a.w * a.h + b.w * b.h - Inter(a, b))
  {
    hide Inter;
    InterFits(a, b);
    PositiveArea(b.w, b.h);
    Ratio(Inter(a, b), a.w * a.h + b.w * b.h - Inter(a, b), thr);
  }

  /** On boxes with a size, and a threshold not below 0, the flag form's test says just that, within a class or not. */
  lemma SuppressesIff(a: Det, b: Det, thr: real, aware: bool)
    requires a.w > 0.0 && a.h > 0.0 && b.w > 0.0 && b.h > 0.0 && thr >= 0.0
    ensures Suppresses(a, b, thr, aware) <==> (!aware || a.cls == b.cls) && ShareMore(a, b, thr)
  {
    hide Iou, Inter, ShareMore;
    ShareMoreIff(a, b, thr);
    IouIff(a, b, thr);
  }

  /** And so does the keep-list form's. */
  lemma DuplicatesIff(b: Det, k: Det, thr: real)
    requires b.w > 0.0 && b.h > 0.0 && k.w > 0.0 && k.h > 0.0 && thr >= 0.0
    ensures Duplicates(b, k, thr) <==> k.cls == b.cls && ShareMore(k, b, thr)
  {
    hide Duplicates, Suppresses, ShareMore;
    SameTest(b, k, thr);
    SuppressesIff(k, b, thr, true);
  }

  lemma CommonMeets(c: Det, a: Det, b: Det)
    requires SharedPart(c, a, b)
    ensures Meet(a, b)
  {
    assert On(c, c.x, c.y) && On(c, c.x + c.w, c.y + c.h);
    assert Within(a, c.x + c.w / 2.0, c.y + c.h / 2.0) && Within(b, c.x + c.w / 2.0, c.y + c.h / 2.0);
  }

  lemma Ratio(part: real, whole: real, thr: real)
    requires whole > 0.0
    ensures part / whole > thr <==> part > thr * whole
  {
    assert part == (part / whole) * whole;
    if part / whole > thr { PositiveArea(part / whole - thr, whole); } else { NotNegative(thr - part / whole, whole); }
  }

  /** A box covers itself whole. */
  lemma IouSelf(a: Det)
    requires a.w > 0.0 && a.h > 0.0
    ensures Iou(a, a) == 1.0
  {
    PositiveArea(a.w, a.h);
    assert Inter(a, a) == a.w * a.h;
    Whole(a.w * a.h);
  }

  lemma Whole(v: real)
    requires v > 0.0
    ensures v / v == 1.0
  {}

  /** What is kept, in points: of two kept boxes of a class, or any two without classes, neither shares more than thr of
      what they cover together. */
  lemma KeptShareLittle(s: seq<Det>, thr: real, aware: bool, i: nat, j: nat)
    requires Sized(s) && thr >= 0.0 && i < j < |Greedy(s, thr, aware)|
    ensures var kept := Greedy(s, thr, aware);
      (!aware || kept[i].cls == kept[j].cls) ==> !ShareMore(kept[i], kept[j], thr)
  {
    hide Suppresses, ShareMore;
    var kept := Greedy(s, thr, aware);
    var at := GreedySelects(s, thr, aware);
    assert kept[i] == s[at[i]] && kept[j] == s[at[j]];
    SuppressesIff(kept[i], kept[j], thr, aware);
  }

  /** And what is left out shares more than that with an earlier kept one, of its class if classes matter. */
  lemma LeftOutShareMuch(s: seq<Det>, thr: real, aware: bool, i: nat) returns (k: nat, at: seq<nat>)
    requires Sized(s) && thr >= 0.0 && i < |s|
    ensures Selects(s, Greedy(s, thr, aware), at, thr, aware)
    ensures i !in at ==> k < |at| && at[k] < i && ShareMore(s[at[k]], s[i], thr) && (!aware || s[at[k]].cls == s[i].cls)
  {
    hide Suppresses, ShareMore, Unsuppressed;
    k := 0;
    at := GreedySelects(s, thr, aware);
    var kept := Greedy(s, thr, aware);
    if i !in at {
      assert Outdone(s, i, kept, at, thr, aware);
      k :| k < |at| && at[k] < i && Suppresses(kept[k], s[i], thr, aware);
      SuppressesIff(kept[k], s[i], thr, aware);
    }
  }

  // ----- the overlap measure -----

  lemma InterSymmetric(a: Det, b: Det)
    ensures Inter(a, b) == Inter(b, a)
  {}

  lemma IouSymmetric(a: Det, b: Det)
    ensures Iou(a, b) == Iou(b, a)
  {
    InterSymmetric(a, b);
  }

  lemma Products(a: real, b: real, c: real, d: real)
    requires 0.0 <= a <= c && 0.0 <= b <= d
    ensures 0.0 <= a * b <= c * d
  {
    assert c * d - a * b == (c - a) * d + a * (d - b);
    NotNegative(c - a, d);
    NotNegative(a, d - b);
    NotNegative(a, b);
  }

  /** The intersection is no larger than either box. */
  lemma InterFits(a: Det, b: Det)
    requires a.w > 0.0 && a.h > 0.0
    ensures 0.0 <= Inter(a, b) <= a.w * a.h
  {
    Products(MaxReal(0.0, MinReal(a.x + a.w, b.x + b.w) - MaxReal(a.x, b.x)),
             MaxReal(0.0, MinReal(a.y + a.h, b.y + b.h) - MaxReal(a.y, b.y)), a.w, a.h);
  }

  lemma PositiveArea(w: real, h: real)
    requires w > 0.0 && h > 0.0
    ensures w * h > 0.0
  {}

  /** On boxes with a size the union is not empty, and the two tests are one. */
  lemma SameTest(b: Det, k: Det, thr: real)
    requires b.w > 0.0 && b.h > 0.0 && k.w > 0.0 && k.h > 0.0
    ensures Duplicates(b, k, thr) <==> Suppresses(k, b, thr, true)
  {
    hide Inter;
    InterFits(b, k);
    PositiveArea(k.w, k.h);
    InterSymmetric(b, k);
  }

  /** A box without size meets nothing. */
  lemma NoSizeNoInter(b: Det, k: Det)
    requires b.w <= 0.0 || b.h <= 0.0
    ensures Inter(b, k) == 0.0
  {}

  /** With a threshold that is not negative the tests are one on any boxes. */
  lemma SameTestAlways(b: Det, k: Det, thr: real)
    requires thr >= 0.0
    ensures Duplicates(b, k, thr) <==> Suppresses(k, b, thr, true)
  {
    hide Inter;
    InterSymmetric(b, k);
    if b.w <= 0.0 || b.h <= 0.0 {
      NoSizeNoInter(b, k);
    } else if k.w <= 0.0 || k.h <= 0.0 {
      NoSizeNoInter(k, b);
    } else {
      SameTest(b, k, thr);
    }
  }

  /** On one sorted list the two forms keep the same boxes: always for a threshold that is not negative, and for any
      threshold when every box has a size. */
  lemma {:induction false} FormsAgree(s: seq<Det>, thr: real)
    requires thr >= 0.0 || Sized(s)
    ensures KeepGreedy(s, thr) == Greedy(s, thr, true)
  {
    hide Suppresses, Duplicates;
    if s != [] {
      assert forall d | d in Front(s) :: d in s;
      FormsAgree(Front(s), thr);
      KeptFrom(Front(s), thr, true);
      forall k | k in Greedy(Front(s), thr, true) ensures Duplicates(Last(s), k, thr) <==> Suppresses(k, Last(s), thr, true) {
        assert k in s && Last(s) in s;
        if thr >= 0.0 { SameTestAlways(Last(s), k, thr); } else { SameTest(Last(s), k, thr); }
      }
    }
  }

  /** They agree on every list exactly when the threshold is not negative: below 0 two boxes without size tell them
      apart. */
  lemma FormsAgreeIff(thr: real)
    ensures (forall s: seq<Det> :: KeepGreedy(s, thr) == Greedy(s, thr, true)) <==> thr >= 0.0
  {
    if thr >= 0.0 {
      forall s: seq<Det> ensures KeepGreedy(s, thr) == Greedy(s, thr, true) { FormsAgree(s, thr); }
    } else {
      PointsDiffer(thr);
    }
  }

  lemma PointsDiffer(thr: real)
    requires thr < 0.0
    ensures var d := Det(0.0, 0.0, 0.0, 0.0, 1.0, 0, 0);
      KeepGreedy([d, d], thr) == [d, d] && Greedy([d, d], thr, true) == [d]
  {
    var d := Det(0.0, 0.0, 0.0, 0.0, 1.0, 0, 0);
    assert Front([d, d]) == [d] && Front([d]) == [];
    assert KeepGreedy([d], thr) == [d] && Greedy([d], thr, true) == [d];
    assert d in [d] && Suppresses(d, d, thr, true) && !Duplicates(d, d, thr);
  }

  // ----- what is kept -----

  /** No kept box suppresses another. */
  ghost predicate Unsuppressed(s: seq<Det>, thr: real, aware: bool) {
    forall i, j | 0 <= i < |s| && 0 <= j < |s| && i != j :: !Suppresses(s[i], s[j], thr, aware)
  }

  ghost predicate Increasing(at: seq<nat>) { forall j, k | 0 <= j < k < |at| :: at[j] < at[k] }

  /** An earlier kept box suppresses the one at i. */
  ghost predicate Outdone(s: seq<Det>, i: nat, kept: seq<Det>, at: seq<nat>, thr: real, aware: bool)
    requires i < |s| && |at| == |kept|
  {
    exists k: nat :: k < |at| && at[k] < i && Suppresses(kept[k], s[i], thr, aware)
  }

  /** Non-maximum suppression, place by place: the kept boxes stand at the places `at`, in order; none suppresses another;
      and at every other place an earlier kept box suppresses the one there. */
  ghost predicate Selects(s: seq<Det>, kept: seq<Det>, at: seq<nat>, thr: real, aware: bool) {
    && |at| == |kept| && Increasing(at) && (forall k | 0 <= k < |at| :: at[k] < |s| && kept[k] == s[at[k]])
    && Unsuppressed(kept, thr, aware)
    && (forall i: nat | i < |s| && i !in at :: Outdone(s, i, kept, at, thr, aware))
  }

  /** Greedy selection meets that. */
  lemma {:induction false} GreedySelects(s: seq<Det>, thr: real, aware: bool) returns (at: seq<nat>)
    ensures Selects(s, Greedy(s, thr, aware), at, thr, aware)
  {
    hide Suppresses, Selects;
    if s == [] {
      at := [];
      NothingSelected(thr, aware);
    } else {
      var before := GreedySelects(Front(s), thr, aware);
      var kept, last := Greedy(Front(s), thr, aware), Last(s);
      assert s == Front(s) + [last];
      if SuppressedBy(kept, last, thr, aware) {
        at := before;
        SelectsWithout(Front(s), last, kept, at, thr, aware);
      } else {
        at := before + [|s| - 1];
        SelectsWith(Front(s), last, kept, before, thr, aware);
      }
    }
  }

  lemma NothingSelected(thr: real, aware: bool)
    ensures Selects([], [], [], thr, aware)
  {}

  lemma SelectsWithout(s: seq<Det>, d: Det, kept: seq<Det>, at: seq<nat>, thr: real, aware: bool)
    requires Selects(s, kept, at, thr, aware) && SuppressedBy(kept, d, thr, aware)
    ensures Selects(s + [d], kept, at, thr, aware)
  {
    hide Suppresses, Unsuppressed;
    var more := s + [d];
    var k: nat :| k < |kept| && Suppresses(kept[k], d, thr, aware);
    forall i: nat | i < |more| && i !in at ensures Outdone(more, i, kept, at, thr, aware) {
      if i < |s| {
        assert Outdone(s, i, kept, at, thr, aware);
      } else {
        assert at[k] < i && Suppresses(kept[k], more[i], thr, aware);
      }
    }
  }

  lemma SelectsWith(s: seq<Det>, d: Det, kept: seq<Det>, at: seq<nat>, thr: real, aware: bool)
    requires Selects(s, kept, at, thr, aware) && forall k | k in kept :: !Suppresses(k, d, thr, aware)
    ensures Selects(s + [d], kept + [d], at + [|s|], thr, aware)
  {
    hide Suppresses, Unsuppressed;
    KeepOne(kept, d, thr, aware);
    var more, all, places := s + [d], kept + [d], at + [|s|];
    forall i: nat | i < |more| && i !in places ensures Outdone(more, i, all, places, thr, aware) {
      assert places[|at|] == |s| && forall k | 0 <= k < |at| :: places[k] == at[k];
      assert i < |s| && Outdone(s, i, kept, at, thr, aware);
      var k: nat :| k < |at| && at[k] < i && Suppresses(kept[k], s[i], thr, aware);
      assert places[k] < i && Suppresses(all[k], more[i], thr, aware);
    }
  }

  /** And it is the only selection that does. */
  lemma {:induction false} SelectionIsGreedy(s: seq<Det>, kept: seq<Det>, at: seq<nat>, thr: real, aware: bool)
    requires Selects(s, kept, at, thr, aware)
    ensures kept == Greedy(s, thr, aware)
    decreases |s|
  {
    hide Suppresses, Selects, Outdone, Unsuppressed;
    if s == [] {
      NoPlaces(s, kept, at, thr, aware);
    } else if at != [] && Last(at) == |s| - 1 {
      SelectsFront(s, kept, at, thr, aware);
      SelectionIsGreedy(Front(s), Front(kept), Front(at), thr, aware);
    } else {
      SelectsShorter(s, kept, at, thr, aware);
      SelectionIsGreedy(Front(s), kept, at, thr, aware);
    }
  }

  lemma NoPlaces(s: seq<Det>, kept: seq<Det>, at: seq<nat>, thr: real, aware: bool)
    requires Selects(s, kept, at, thr, aware)
    ensures kept == [] || |s| > 0
  {
    assert |at| > 0 ==> 0 <= at[0] < |s|;
  }

  lemma SelectsShorter(s: seq<Det>, kept: seq<Det>, at: seq<nat>, thr: real, aware: bool)
    requires Selects(s, kept, at, thr, aware) && s != [] && (at == [] || Last(at) != |s| - 1)
    ensures Selects(Front(s), kept, at, thr, aware) && SuppressedBy(kept, Last(s), thr, aware)
  {
    hide Suppresses, Unsuppressed;
    forall k | 0 <= k < |at| ensures at[k] < |s| - 1 { assert at[k] <= Last(at); }
    forall i: nat | i < |Front(s)| && i !in at ensures Outdone(Front(s), i, kept, at, thr, aware) {
      assert Outdone(s, i, kept, at, thr, aware);
    }
    assert Outdone(s, |s| - 1, kept, at, thr, aware);
    var k: nat :| k < |kept| && Suppresses(kept[k], Last(s), thr, aware);
    assert kept[k] in kept;
  }

  lemma SelectsFront(s: seq<Det>, kept: seq<Det>, at: seq<nat>, thr: real, aware: bool)
    requires Selects(s, kept, at, thr, aware) && at != [] && Last(at) == |s| - 1
    ensures Selects(Front(s), Front(kept), Front(at), thr, aware)
    ensures kept == Front(kept) + [Last(s)] && forall k | k in Front(kept) :: !Suppresses(k, Last(s), thr, aware)
  {
    hide Suppresses;
    forall k | k in Front(kept) ensures !Suppresses(k, Last(s), thr, aware) {
      var j :| 0 <= j < |kept| - 1 && kept[j] == k;
    }
    forall k | 0 <= k < |at| - 1 ensures at[k] < |s| - 1 { assert at[k] < at[|at| - 1]; }
    forall i: nat | i < |Front(s)| && i !in Front(at) ensures Outdone(Front(s), i, Front(kept), Front(at), thr, aware) {
      assert at == Front(at) + [Last(at)];
      assert Outdone(s, i, kept, at, thr, aware);
    }
  }

  /** What suppression promises on a list sorted by falling confidence: place by place, and every box left out, equal to a
      kept one or not, is suppressed by an earlier kept one of at least its confidence. */
  lemma GreedyMeetsSpec(s: seq<Det>, thr: real, aware: bool) returns (at: seq<nat>)
    requires Descending(s, Confidence())
    ensures var kept := Greedy(s, thr, aware);
      && Selects(s, kept, at, thr, aware)
      && (forall i: nat | i < |s| && i !in at ::
            exists k: nat :: k < |at| && at[k] < i && Suppresses(kept[k], s[i], thr, aware)
                             && kept[k].confidence >= s[i].confidence)
  {
    hide Suppresses;
    at := GreedySelects(s, thr, aware);
    var kept := Greedy(s, thr, aware);
    forall i: nat | i < |s| && i !in at
      ensures exists k: nat :: k < |at| && at[k] < i && Suppresses(kept[k], s[i], thr, aware)
                               && kept[k].confidence >= s[i].confidence
    {
      assert Outdone(s, i, kept, at, thr, aware);
      var k: nat :| k < |at| && at[k] < i && Suppresses(kept[k], s[i], thr, aware);
      assert Confidence()(s[at[k]]) >= Confidence()(s[i]);
    }
  }

  lemma KeepOne(kept: seq<Det>, d: Det, thr: real, aware: bool)
    requires Unsuppressed(kept, thr, aware) && forall k | k in kept :: !Suppresses(k, d, thr, aware)
    ensures Unsuppressed(kept + [d], thr, aware)
  {
    hide Suppresses;
    forall k | k in kept ensures !Suppresses(d, k, thr, aware) { SuppressesSymmetric(k, d, thr, aware); }
  }

  lemma SuppressesSymmetric(a: Det, b: Det, thr: real, aware: bool)
    ensures Suppresses(a, b, thr, aware) == Suppresses(b, a, thr, aware)
  {
    IouSymmetric(a, b);
  }

  /** A second pass removes nothing. */
  lemma {:induction false} NothingMore(s: seq<Det>, thr: real, aware: bool)
    requires Unsuppressed(s, thr, aware)
    ensures Greedy(s, thr, aware) == s
    decreases |s|
  {
    hide *;
    GreedyStep(s, thr, aware);
    if s != [] {
      FrontAndLast(s);
      LastUnsuppressed(s, thr, aware);
      NothingMore(Front(s), thr, aware);
    }
  }

  lemma GreedyStep(s: seq<Det>, thr: real, aware: bool)
    ensures s == [] ==> Greedy(s, thr, aware) == []
    ensures s != [] ==>
      var kept := Greedy(Front(s), thr, aware);
      Greedy(s, thr, aware) == if SuppressedBy(kept, Last(s), thr, aware) then kept else kept + [Last(s)]
  {
    hide SuppressedBy;
  }

  lemma FrontAndLast(s: seq<Det>)
    requires s != []
    ensures Front(s) + [Last(s)] == s && |Front(s)| < |s|
  {}

  lemma LastUnsuppressed(s: seq<Det>, thr: real, aware: bool)
    requires s != [] && Unsuppressed(s, thr, aware)
    ensures Unsuppressed(Front(s), thr, aware) && !SuppressedBy(Front(s), Last(s), thr, aware)
  {
    hide Suppresses;
    forall k | k in Front(s) ensures !Suppresses(k, Last(s), thr, aware) {
      var i :| 0 <= i < |s| - 1 && s[i] == k;
    }
  }

  lemma SecondPass(s: seq<Det>, thr: real, aware: bool)
    ensures Greedy(Greedy(s, thr, aware), thr, aware) == Greedy(s, thr, aware)
  {
    var at := GreedySelects(s, thr, aware);
    NothingMore(Greedy(s, thr, aware), thr, aware);
  }
}
