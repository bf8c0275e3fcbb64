/** Merging overlapping motion boxes until none overlap, and the cap on their number. */
module BoxMerges {
  import opened Common
  import opened Rois
  import opened Sorting

  predicate Overlaps(a: Roi, b: Roi) {
    !(a.x + a.w <= b.x || b.x + b.w <= a.x || a.y + a.h <= b.y || b.y + b.h <= a.y)
  }

  /** a with its box grown to hold b's, and b's changed cells added. */
  function Hull(a: Roi, b: Roi): Roi {
    var x0, y0, x1, y1 := Min(a.x, b.x), Min(a.y, b.y), Max(a.x + a.w, b.x + b.w), Max(a.y + a.h, b.y + b.h);
    a.(x := x0, y := y0, w := x1 - x0, h := y1 - y0, changed := a.changed + b.changed)
  }

  /** The first overlapping pair at or after (i, k), the first index moving slowest. */
  function Search(rs: seq<Roi>, i: nat, k: nat): (pair: Option<(nat, nat)>)
    requires i < k
    ensures pair.Some? ==> pair.value.0 < pair.value.1 < |rs| && Overlaps(rs[pair.value.0], rs[pair.value.1])
    decreases |rs| - i, |rs| - k
  {
    if i >= |rs| then None
    else if k >= |rs| then Search(rs, i + 1, i + 2)
    else if Overlaps(rs[i], rs[k]) then Some((i, k))
    else Search(rs, i, k + 1)
  }

  function MergePair(rs: seq<Roi>, i: nat, k: nat): (merged: seq<Roi>)
    requires i < k < |rs|
    ensures |merged| == |rs| - 1
  {
    rs[i := Hull(rs[i], rs[k])][..k] + rs[k + 1..]
  }

  /** Merge the first overlapping pair and start again, until there is none. */
  function Merged(rs: seq<Roi>): seq<Roi>
    decreases |rs|
  {
    match Search(rs, 0, 1)
    case None => rs
    case Some((i, k)) => Merged(MergePair(rs, i, k))
  }

  /** The loops as written: `merged` ends both inner loops and asks for another round. */
  method Merge(input: seq<Roi>) returns (regions: seq<Roi>)
    ensures regions == Merged(input)
  {
    regions := input;
    var merged := true;
    while merged
      invariant Merged(regions) == Merged(input)
      invariant !merged ==> Search(regions, 0, 1) == None
      decreases |regions|, merged
    {
      merged := false;
      ghost var was := regions;
      var i := 0;
      while i < |regions| && !merged
        invariant 0 <= i
        invariant merged ==> |regions| < |was| && Merged(regions) == Merged(was)
        invariant !merged ==> regions == was && Search(was, 0, 1) == Search(was, i, i + 1)
        decreases !merged, |regions| - i
      {
        var k := i + 1;
        while k < |regions|
          invariant i < k && i < |regions| && !merged && regions == was && Search(was, 0, 1) == Search(was, i, k)
        {
          if Overlaps(regions[i], regions[k]) {
            regions := MergePair(regions, i, k);
            merged := true;
            break;
          }
          k := k + 1;
        }
        i := i + 1;
      }
    }
  }

  // ----- what merging reaches -----

  /** No two overlap. */
  ghost predicate Apart(rs: seq<Roi>) {
    forall i, k | 0 <= i < k < |rs| :: !Overlaps(rs[i], rs[k])
  }

  ghost predicate Inside(a: Roi, b: Roi) {
    b.x <= a.x && b.y <= a.y && a.x + a.w <= b.x + b.w && a.y + a.h <= b.y + b.h
  }

  ghost predicate Solid(rs: seq<Roi>) {
    forall r | r in rs :: r.w > 0 && r.h > 0
  }

  /** Each of rs lies inside one of `family`. */
  ghost predicate Covered(rs: seq<Roi>, family: seq<Roi>) {
    forall r | r in rs :: exists f :: f in family && Inside(r, f)
  }

  lemma {:induction false} SearchNone(rs: seq<Roi>, i: nat, k: nat)
    requires i < k && Search(rs, i, k) == None
    ensures forall j | k <= j < |rs| && i < |rs| :: !Overlaps(rs[i], rs[j])
    ensures forall h, j | i < h < j < |rs| :: !Overlaps(rs[h], rs[j])
    decreases |rs| - i, |rs| - k
  {
    if i >= |rs| {
    } else if k >= |rs| {
      SearchNone(rs, i + 1, i + 2);
    } else {
      SearchNone(rs, i, k + 1);
    }
  }

  /** The result's boxes are pairwise apart. */
  lemma {:induction false} MergedApart(rs: seq<Roi>)
    ensures Apart(Merged(rs))
    decreases |rs|
  {
    match Search(rs, 0, 1)
    case None => SearchNone(rs, 0, 1);
    case Some((i, k)) => MergedApart(MergePair(rs, i, k));
  }

  lemma InMergePair(rs: seq<Roi>, i: nat, k: nat, r: Roi)
    requires i < k < |rs|
    ensures r in MergePair(rs, i, k) ==> r in rs || r == Hull(rs[i], rs[k])
    ensures r in rs ==> r in MergePair(rs, i, k) || r == rs[i] || r == rs[k]
    ensures Hull(rs[i], rs[k]) in MergePair(rs, i, k)
  {
    var m := MergePair(rs, i, k);
    assert m[i] == Hull(rs[i], rs[k]);
    if r in rs {
      var j :| 0 <= j < |rs| && rs[j] == r;
      assert j < k && j != i ==> m[j] == r;
      assert j > k ==> m[j - 1] == r;
    }
  }

  lemma CoveredTrans(a: seq<Roi>, b: seq<Roi>, c: seq<Roi>)
    requires Covered(a, b) && Covered(b, c)
    ensures Covered(a, c)
  {
    forall r | r in a ensures exists f :: f in c && Inside(r, f) {
      var m :| m in b && Inside(r, m);
      var f :| f in c && Inside(m, f);
    }
  }

  /** Every input box is inside a result, and the changed cells are all still counted. */
  lemma {:induction false} MergedCovers(rs: seq<Roi>)
    ensures Covered(rs, Merged(rs)) && TotalChanged(Merged(rs)) == TotalChanged(rs)
    decreases |rs|
  {
    match Search(rs, 0, 1)
    case None =>
    case Some((i, k)) =>
      var m := MergePair(rs, i, k);
      forall r | r in rs ensures exists f :: f in m && Inside(r, f) {
        InMergePair(rs, i, k, r);
      }
      MergedCovers(m);
      CoveredTrans(rs, m, Merged(rs));
      TotalMergePair(rs, i, k);
  }

  lemma {:induction false} TotalUpdate(rs: seq<Roi>, i: nat, r: Roi)
    requires i < |rs|
    ensures TotalChanged(rs[i := r]) == TotalChanged(rs) - rs[i].changed + r.changed
  {
    if i < |rs| - 1 {
      TotalUpdate(Front(rs), i, r);
      assert Front(rs[i := r]) == Front(rs)[i := r];
    } else {
      assert Front(rs[i := r]) == Front(rs);
    }
  }

  lemma {:induction false} TotalDrop(rs: seq<Roi>, k: nat)
    requires k < |rs|
    ensures TotalChanged(rs[..k] + rs[k + 1..]) == TotalChanged(rs) - rs[k].changed
  {
    if k < |rs| - 1 {
      TotalDrop(Front(rs), k);
      assert Front(rs[..k] + rs[k + 1..]) == Front(rs)[..k] + Front(rs)[k + 1..];
    } else {
      assert rs[..k] + rs[k + 1..] == Front(rs);
    }
  }

  lemma TotalMergePair(rs: seq<Roi>, i: nat, k: nat)
    requires i < k < |rs|
    ensures TotalChanged(MergePair(rs, i, k)) == TotalChanged(rs)
  {
    hide TotalChanged;
    var u := rs[i := Hull(rs[i], rs[k])];
    TotalUpdate(rs, i, Hull(rs[i], rs[k]));
    TotalDrop(u, k);
    assert u[k + 1..] == rs[k + 1..];
  }

  /** Two overlapping boxes inside members of a family of boxes that are apart are inside the same member. */
  lemma HullInside(a: Roi, b: Roi, f: Roi, g: Roi)
    requires a.w > 0 && a.h > 0 && b.w > 0 && b.h > 0 && Overlaps(a, b) && Inside(a, f) && Inside(b, g)
    ensures Overlaps(f, g)
    ensures f == g ==> Inside(Hull(a, b), f)
  {}

  /** The result is the least: every family of boxes that are apart and cover the input covers the result. */
  lemma {:induction false} MergedLeast(rs: seq<Roi>, family: seq<Roi>)
    requires Solid(rs) && Apart(family) && Covered(rs, family)
    ensures Solid(Merged(rs)) && Covered(Merged(rs), family)
    decreases |rs|
  {
    match Search(rs, 0, 1)
    case None =>
    case Some((i, k)) =>
      hide Inside, MergePair;
      PairStays(rs, i, k, family);
      MergedLeast(MergePair(rs, i, k), family);
  }

  lemma SameMember(family: seq<Roi>, f: Roi, g: Roi)
    requires Apart(family) && f in family && g in family && Overlaps(f, g)
    ensures f == g
  {
    var i: nat :| i < |family| && family[i] == f;
    var k: nat :| k < |family| && family[k] == g;
    if i != k { ApartAt(family, i, k); }
  }

  lemma ApartAt(rs: seq<Roi>, i: nat, k: nat)
    requires Apart(rs) && i < |rs| && k < |rs| && i != k
    ensures !Overlaps(rs[i], rs[k])
  {
    assert if i < k then !Overlaps(rs[i], rs[k]) else !Overlaps(rs[k], rs[i]);
  }

  ghost predicate HoldsOne(m: Roi, rs: seq<Roi>) { exists r :: r in rs && Inside(r, m) }

  lemma HoldsOfPair(rs: seq<Roi>, i: nat, k: nat, m: Roi)
    requires i < k < |rs| && HoldsOne(m, MergePair(rs, i, k))
    ensures HoldsOne(m, rs)
  {
    hide MergePair;
    var p :| p in MergePair(rs, i, k) && Inside(p, m);
    InMergePair(rs, i, k, p);
    assert rs[i] in rs && Inside(rs[i], Hull(rs[i], rs[k]));
    if p == Hull(rs[i], rs[k]) { assert Inside(rs[i], m); }
  }

  /** Every result holds an input box whole. */
  lemma {:induction false} MergedHolds(rs: seq<Roi>, m: Roi)
    requires m in Merged(rs)
    ensures exists r :: r in rs && Inside(r, m)
    decreases |rs|
  {
    hide Overlaps, HoldsOne, MergePair;
    match Search(rs, 0, 1)
    case None => assert Inside(m, m);
    case Some((i, k)) =>
      MergedHolds(MergePair(rs, i, k), m);
      HoldsIs(m, MergePair(rs, i, k));
      HoldsOfPair(rs, i, k, m);
      HoldsIs(m, rs);
  }

  lemma HoldsIs(m: Roi, rs: seq<Roi>)
    ensures HoldsOne(m, rs) <==> exists r :: r in rs && Inside(r, m)
  {}

  // ----- in pixels -----

  predicate HasPixel(r: Roi, x: int, y: int) { r.x <= x < r.x + r.w && r.y <= y < r.y + r.h }

  /** Boxes with a size overlap exactly when a pixel lies in both. */
  lemma OverlapsIff(a: Roi, b: Roi)
    requires a.w > 0 && a.h > 0 && b.w > 0 && b.h > 0
    ensures Overlaps(a, b) <==> exists x, y :: HasPixel(a, x, y) && HasPixel(b, x, y)
  {
    var x, y := Max(a.x, b.x), Max(a.y, b.y);
    if Overlaps(a, b) { assert HasPixel(a, x, y) && HasPixel(b, x, y); }
  }

  /** One lies inside the other exactly when all its pixels do. */
  lemma InsideIff(a: Roi, b: Roi)
    requires a.w > 0 && a.h > 0
    ensures Inside(a, b) <==> forall x, y :: HasPixel(a, x, y) ==> HasPixel(b, x, y)
  {
    assert HasPixel(a, a.x, a.y) && HasPixel(a, a.x + a.w - 1, a.y + a.h - 1);
  }

  /** A pixel of an input box lies in exactly one result. */
  lemma PixelInOne(rs: seq<Roi>, r: Roi, x: int, y: int) returns (k: nat)
    requires Solid(rs) && r in rs && HasPixel(r, x, y)
    ensures k < |Merged(rs)| && HasPixel(Merged(rs)[k], x, y)
    ensures forall j: nat | j < |Merged(rs)| && j != k :: !HasPixel(Merged(rs)[j], x, y)
  {
    hide Merged, Overlaps, Apart;
    MergedCovers(rs);
    var f :| f in Merged(rs) && Inside(r, f);
    k :| k < |Merged(rs)| && Merged(rs)[k] == f;
    forall j: nat | j < |Merged(rs)| && j != k ensures !HasPixel(Merged(rs)[j], x, y) { PixelsApart(rs, j, k, x, y); }
  }

  /** No pixel lies in two results. */
  lemma PixelsApart(rs: seq<Roi>, i: nat, k: nat, x: int, y: int)
    requires Solid(rs) && i < |Merged(rs)| && k < |Merged(rs)| && i != k
    ensures !(HasPixel(Merged(rs)[i], x, y) && HasPixel(Merged(rs)[k], x, y))
  {
    hide Merged, Overlaps, Covered, Apart;
    var m := Merged(rs);
    MergedApart(rs);
    MergedCovers(rs);
    MergedLeast(rs, m);
    assert m[i] in m && m[k] in m;
    ApartAt(m, i, k);
    OverlapsIff(m[i], m[k]);
  }

  /** Boxes without a common pixel come back as they were. */
  lemma NothingToMerge(rs: seq<Roi>)
    requires Solid(rs)
    requires forall i, k, x, y | 0 <= i < k < |rs| :: !(HasPixel(rs[i], x, y) && HasPixel(rs[k], x, y))
    ensures Merged(rs) == rs
  {
    match Search(rs, 0, 1)
    case None =>
    case Some((i, k)) =>
      assert rs[i] in rs && rs[k] in rs;
      OverlapsIff(rs[i], rs[k]);
  }

  function RowOf(y: int, x: int, n: nat): (s: set<(int, int)>)
    ensures |s| == n && forall p :: p in s <==> x <= p.0 < x + n && p.1 == y
  {
    if n == 0 then {}
    else
      assert (x + n - 1, y) !in RowOf(y, x, n - 1);
      RowOf(y, x, n - 1) + {(x + n - 1, y)}
  }

  /** The pixels of a box; there are w times h of them. */
  function Pixels(x: int, y: int, w: nat, h: nat): (s: set<(int, int)>)
    ensures |s| == w * h && forall p :: p in s <==> x <= p.0 < x + w && y <= p.1 < y + h
  {
    if h == 0 then {}
    else
      assert Pixels(x, y, w, h - 1) !! RowOf(y + h - 1, x, w);
      Pixels(x, y, w, h - 1) + RowOf(y + h - 1, x, w)
  }

  /** The area is the number of pixels. */
  lemma AreaIsPixels(r: Roi)
    requires r.w >= 0 && r.h >= 0
    ensures |Pixels(r.x, r.y, r.w, r.h)| == Area(r)
    ensures forall x, y :: (x, y) in Pixels(r.x, r.y, r.w, r.h) <==> HasPixel(r, x, y)
  {}

  // ----- any order of merging -----

  predicate SameRectangle(a: Roi, b: Roi) { a.x == b.x && a.y == b.y && a.w == b.w && a.h == b.h }

  ghost predicate RectanglesIn(a: seq<Roi>, b: seq<Roi>) {
    forall r | r in a :: exists q :: q in b && SameRectangle(r, q)
  }

  /** The same rectangles in both lists. */
  ghost predicate SameBoxes(a: seq<Roi>, b: seq<Roi>) { RectanglesIn(a, b) && RectanglesIn(b, a) }

  lemma CoverOf(r: Roi, rs: seq<Roi>, family: seq<Roi>) returns (f: Roi)
    requires Covered(rs, family) && r in rs
    ensures f in family && Inside(r, f)
  {
    hide Inside;
    f :| f in family && Inside(r, f);
  }

  /** Lists that cover each other, one of them of boxes apart: its rectangles are all in the other. */
  lemma EachOther(a: seq<Roi>, b: seq<Roi>)
    requires Solid(a) && Apart(a) && Covered(a, b) && Covered(b, a)
    ensures RectanglesIn(a, b)
  {
    hide Covered, Apart;
    forall r | r in a ensures exists q :: q in b && SameRectangle(r, q) {
      var q := CoverOf(r, a, b);
      var r' := CoverOf(q, b, a);
      assert Overlaps(r, r');
      SameMember(a, r, r');
    }
  }

  /** The result is the only one: any boxes that are apart, cover the input and lie in the result are its boxes. */
  lemma MergedUnique(rs: seq<Roi>, other: seq<Roi>)
    requires Solid(rs) && Solid(other) && Apart(other) && Covered(rs, other) && Covered(other, Merged(rs))
    ensures SameBoxes(other, Merged(rs))
  {
    hide Merged, Covered, RectanglesIn, Apart, Solid;
    MergedLeast(rs, other);
    MergedApart(rs);
    EachOther(other, Merged(rs));
    EachOther(Merged(rs), other);
  }

  /** Merging overlapping pairs in any order; pairs that do not overlap are passed over. */
  function MergedBy(rs: seq<Roi>, pairs: seq<(nat, nat)>): seq<Roi> {
    if pairs == [] then rs
    else
      var before, p := MergedBy(rs, Front(pairs)), Last(pairs);
      if p.0 < p.1 < |before| && Overlaps(before[p.0], before[p.1]) then MergePair(before, p.0, p.1) else before
  }

  /** In whatever order pairs are merged, once none overlap the boxes are the result's. */
  lemma AnyMergingOrder(rs: seq<Roi>, pairs: seq<(nat, nat)>)
    requires Solid(rs) && Apart(MergedBy(rs, pairs))
    ensures SameBoxes(MergedBy(rs, pairs), Merged(rs))
  {
    hide Merged, MergedBy, Covered, SameBoxes, Apart, Solid;
    MergedByStays(rs, pairs);
    MergedUnique(rs, MergedBy(rs, pairs));
  }

  lemma {:induction false} MergedByStays(rs: seq<Roi>, pairs: seq<(nat, nat)>)
    requires Solid(rs)
    ensures var out := MergedBy(rs, pairs); Solid(out) && Covered(rs, out) && Covered(out, Merged(rs))
  {
    hide Merged, Inside, MergePair, Overlaps;
    if pairs == [] {
      MergedCovers(rs);
      CoversItself(rs);
    } else {
      MergedByStays(rs, Front(pairs));
      var before, p := MergedBy(rs, Front(pairs)), Last(pairs);
      if p.0 < p.1 < |before| && Overlaps(before[p.0], before[p.1]) {
        MergedApart(rs);
        PairStays(before, p.0, p.1, Merged(rs));
        CoveredTrans(rs, before, MergePair(before, p.0, p.1));
      }
    }
  }

  lemma CoversItself(rs: seq<Roi>)
    ensures Covered(rs, rs)
  {
    forall r | r in rs ensures exists f :: f in rs && Inside(r, f) { assert Inside(r, r); }
  }

  /** One merge of an overlapping pair stays within any family of boxes apart that covers the list. */
  lemma PairStays(rs: seq<Roi>, i: nat, k: nat, family: seq<Roi>)
    requires i < k < |rs| && Overlaps(rs[i], rs[k]) && Solid(rs) && Apart(family) && Covered(rs, family)
    ensures var m := MergePair(rs, i, k); Solid(m) && Covered(m, family) && Covered(rs, m)
  {
    hide MergePair, Overlaps;
    var m, hull := MergePair(rs, i, k), Hull(rs[i], rs[k]);
    assert rs[i] in rs && rs[k] in rs;
    forall r | r in m ensures r.w > 0 && r.h > 0 && exists f :: f in family && Inside(r, f) {
      InMergePair(rs, i, k, r);
      if r == hull {
        var f :| f in family && Inside(rs[i], f);
        var g :| g in family && Inside(rs[k], g);
        HullInside(rs[i], rs[k], f, g);
        SameMember(family, f, g);
      }
    }
    forall r | r in rs ensures exists f :: f in m && Inside(r, f) {
      InMergePair(rs, i, k, r);
      assert Inside(r, r);
    }
  }

  /** Merging leaves boxes that are in the frame in the frame. */
  lemma MergedInFrame(rs: seq<Roi>, width: int, height: int)
    requires forall r | r in rs :: InFrame(r, width, height)
    ensures forall r | r in Merged(rs) :: InFrame(r, width, height)
  {
    var frame := [Roi(true, 0, 0, width, height, 0)];
    assert frame[0] in frame;
    MergedLeast(rs, frame);
  }

  // ----- the cap -----

  function Area(r: Roi): int { r.w * r.h }

  /** Keep the maxRegions largest, if there are more. A negative limit asks for an impossible size: resize throws. */
  method Cap(regions: seq<Roi>, maxRegions: int) returns (res: Option<seq<Roi>>, ghost dropped: seq<Roi>)
    ensures res.None? <==> maxRegions < 0
    ensures res.Some? ==>
      && multiset(res.value) + multiset(dropped) == multiset(regions)
      && |res.value| == Min(|regions|, maxRegions) && (|regions| <= maxRegions ==> res.value == regions)
      && forall k, d | k in res.value && d in dropped :: d.w * d.h <= k.w * k.h
  {
    var kept := regions;
    dropped := [];
    if |regions| > maxRegions {
      var sorted := SortDescending(regions, (r: Roi) => Area(r) as real);
      if maxRegions < 0 { return None, []; }
      assert sorted == sorted[..maxRegions] + sorted[maxRegions..];
      assert forall r: Roi :: Area(r) == r.w * r.h;
      kept, dropped := sorted[..maxRegions], sorted[maxRegions..];
    }
    res := Some(kept);
  }

  /** Two members of one list, apart, stay apart under any reordering and dropping: boxes that are apart and solid
      differ, so what is kept of them is apart. */
  lemma KeptApart(regions: seq<Roi>, kept: seq<Roi>)
    requires Apart(regions) && Solid(regions) && multiset(kept) <= multiset(regions)
    ensures Apart(kept)
  {
    forall i, k | 0 <= i < k < |kept| ensures !Overlaps(kept[i], kept[k]) {
      assert kept[i] in multiset(kept) && kept[k] in multiset(kept);
      var a :| 0 <= a < |regions| && regions[a] == kept[i];
      if kept[k] == kept[i] {
        TwiceIn(kept, i, k);
        NoTwice(regions, kept[i]);
      } else {
        var b :| 0 <= b < |regions| && regions[b] == kept[k];
        ApartAt(regions, a, b);
      }
    }
  }

  lemma TwiceIn(s: seq<Roi>, i: nat, k: nat)
    requires i < k < |s| && s[i] == s[k]
    ensures multiset(s)[s[i]] >= 2
  {
    assert s == s[..k] + [s[k]] + s[k + 1..];
    assert s[i] in s[..k];
  }

  lemma SolidMeets(s: seq<Roi>, j: nat)
    requires Solid(s) && j < |s|
    ensures Overlaps(s[j], s[j])
  {
    assert s[j] in s;
  }

  lemma {:induction false} NoTwice(s: seq<Roi>, r: Roi)
    requires Apart(s) && Solid(s)
    ensures multiset(s)[r] <= 1
  {
    if s != [] {
      NoTwice(Front(s), r);
      assert s == Front(s) + [Last(s)];
      forall j | 0 <= j < |s| - 1 ensures s[j] != Last(s) {
        ApartAt(s, j, |s| - 1);
        SolidMeets(s, |s| - 1);
      }
    }
  }
}
