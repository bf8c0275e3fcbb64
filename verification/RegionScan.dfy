/** The scan that turns the mask of changed cells into one box for each large enough component. */
module RegionScans {
  import opened Common
  import opened Grids
  import opened Rois
  import opened FloodFills

  /** The cell the scan meets first in its component. */
  ghost predicate First(c: nat, on: set<nat>, sw: nat)
    requires sw > 0
  {
    c in on && forall d | d in Component(c, on, sw) :: c <= d
  }

  /** What the scan is told: the grid, the frame and the smallest component worth a box. */
  datatype Setting = Setting(sw: nat, sh: nat, ds: int, width: int, height: int, minCells: int)

  /** These regions are the boxes of the components met among the first n cells, in order. */
  ghost predicate Describes(regions: seq<Roi>, n: nat, on: set<nat>, s: Setting)
    requires s.sw > 0
  {
    if n == 0 then regions == []
    else if First(n - 1, on, s.sw) && |Component(n - 1, on, s.sw)| >= s.minCells then
      regions != [] && Describes(Front(regions), n - 1, on, s) && BoxesComponent(Last(regions), n - 1, on, s)
    else Describes(regions, n - 1, on, s)
  }

  /** The box of c's component: its tight bounds, grown and cut, and its size. */
  ghost predicate BoxesComponent(r: Roi, c: nat, on: set<nat>, s: Setting)
    requires s.sw > 0
  {
    var cells := Component(c, on, s.sw);
    exists b: Bounds :: Tight(cells, b, s.sw) && r == RoiOf(b, s.ds, s.width, s.height, |cells|)
  }

  /** Everything changed among the first n cells is marked, and marked cells further on were reached from there. */
  ghost predicate Scanned(mask: seq<byte>, n: nat, on: set<nat>, done: set<nat>, sw: nat)
    requires sw > 0
  {
    && MaskIs(mask, on, done) && ClosedIn(done, on, sw)
    && (forall c: nat | c in on && c < n :: c in done)
    && (forall c: nat | c in done && c >= n :: !First(c, on, sw))
  }

  lemma SkipCell(mask: seq<byte>, n: nat, on: set<nat>, done: set<nat>, sw: nat)
    requires sw > 0 && Scanned(mask, n, on, done, sw) && n < |mask| && mask[n] != 1
    ensures Scanned(mask, n + 1, on, done, sw) && !First(n, on, sw)
  {
    hide ClosedIn, Component;
  }

  /** A changed cell still unmarked is the first of its component. */
  lemma MeetsFirst(mask: seq<byte>, n: nat, on: set<nat>, done: set<nat>, sw: nat)
    requires sw > 0 && Scanned(mask, n, on, done, sw) && n < |mask| && mask[n] == 1
    requires done !! Component(n, on, sw)
    ensures First(n, on, sw)
  {}

  lemma AfterFill(mask: seq<byte>, n: nat, on: set<nat>, done: set<nat>, sw: nat)
    requires sw > 0 && n in on
    requires MaskIs(mask, on, done + Component(n, on, sw)) && ClosedIn(done + Component(n, on, sw), on, sw)
    requires forall c: nat | c in on && c < n :: c in done
    requires forall c: nat | c in done && c >= n :: !First(c, on, sw)
    ensures Scanned(mask, n + 1, on, done + Component(n, on, sw), sw)
  {
    hide ClosedIn, MaskIs;
    var comp := Component(n, on, sw);
    Self(n, on, sw);
    forall c: nat | c in comp && c >= n + 1 ensures !First(c, on, sw) {
      Symmetric(n, c, on, sw);
      assert n in Component(c, on, sw);
    }
  }

  lemma ScanBegins(mask: seq<byte>, on: set<nat>, s: Setting)
    requires s.sw > 0 && MaskIs(mask, on, {})
    ensures Cell(0, 0, s.sw) == 0 && Scanned(mask, 0, on, {}, s.sw) && Describes([], 0, on, s)
  {
    hide Component, Adjacent;
  }

  lemma AllScanned(mask: seq<byte>, n: nat, on: set<nat>, done: set<nat>, sw: nat)
    requires sw > 0 && Scanned(mask, n, on, done, sw) && n == |mask|
    ensures done == on && MaskIs(mask, on, on)
  {
    hide ClosedIn, First;
    assert forall c | c in on :: c < n;
  }

  /** The scan: every component of at least minCells cells gets its box, in the order of their first cells. */
  method Scan(mask: array<byte>, s: Setting, ghost on: set<nat>) returns (regions: seq<Roi>)
    requires s.sw > 0 && mask.Length == s.sw * s.sh && MaskIs(mask[..], on, {})
    modifies mask
    ensures Describes(regions, s.sw * s.sh, on, s)
    ensures MaskIs(mask[..], on, on)
    ensures s.minCells <= 1 ==> TotalChanged(regions) == |on|
  {
    hide Scanned, Describes, Cell, MaskIs;
    regions := [];
    ghost var done: set<nat> := {};
    ScanBegins(mask[..], on, s);
    var sw, sh, j := s.sw, s.sh, 0;
    while j < sh
      invariant 0 <= j <= sh && Scanned(mask[..], Cell(0, j, sw), on, done, sw)
      invariant Describes(regions, Cell(0, j, sw), on, s)
      invariant s.minCells <= 1 ==> TotalChanged(regions) == |done|
    {
      var i := 0;
      while i < sw
        invariant 0 <= i <= sw && Scanned(mask[..], Cell(i, j, sw), on, done, sw)
        invariant Describes(regions, Cell(i, j, sw), on, s)
        invariant s.minCells <= 1 ==> TotalChanged(regions) == |done|
      {
        CellInGrid(i, j, sw, sh);
        CellSteps(i, j, sw);
        regions, done := ScanCell(mask, s, Cell(i, j, sw), regions, on, done);
        i := i + 1;
      }
      CellSteps(0, j, sw);
      j := j + 1;
    }
    CellSteps(0, sh, sw);
    AllScanned(mask[..], sw * sh, on, done, sw);
  }

  /** One cell of the scan: fill from it if it is changed and unmarked. */
  method ScanCell(mask: array<byte>, s: Setting, c: nat, before: seq<Roi>, ghost on: set<nat>, ghost done: set<nat>)
    returns (regions: seq<Roi>, ghost done': set<nat>)
    requires s.sw > 0 && mask.Length == s.sw * s.sh && c < mask.Length && Scanned(mask[..], c, on, done, s.sw)
    requires Describes(before, c, on, s)
    requires s.minCells <= 1 ==> TotalChanged(before) == |done|
    modifies mask
    ensures Scanned(mask[..], c + 1, on, done', s.sw) && Describes(regions, c + 1, on, s)
    ensures s.minCells <= 1 ==> TotalChanged(regions) == |done'|
  {
    hide Component, MaskIs, ClosedIn, Tight;
    regions, done' := before, done;
    if mask[c] != 1 {
      SkipCell(mask[..], c, on, done, s.sw);
    } else {
      ghost var was := mask[..];
      var cnt, b := Fill(mask, s.sw, s.sh, c, on, done);
      MeetsFirst(was, c, on, done, s.sw);
      AfterFill(mask[..], c, on, done, s.sw);
      done' := done + Component(c, on, s.sw);
      if cnt >= s.minCells {
        regions := regions + [RoiOf(b, s.ds, s.width, s.height, cnt)];
        assert BoxesComponent(Last(regions), c, on, s);
        assert Front(regions) == before;
      }
    }
  }

  // ----- what the boxes mean -----

  /** Every component has a first cell. */
  lemma {:induction false} HasFirst(c: nat, on: set<nat>, sw: nat) returns (f: nat)
    requires sw > 0 && c in on
    ensures First(f, on, sw) && f in Component(c, on, sw)
    ensures Component(f, on, sw) == Component(c, on, sw)
    decreases c
  {
    hide Connected;
    ComponentsPartition(c, c, on, sw);
    if d: nat :| d in Component(c, on, sw) && d < c {
      f := HasFirst(d, on, sw);
      ComponentsPartition(c, d, on, sw);
    } else {
      f := c;
    }
  }

  /** Components of enough cells whose first cell is among the first n. */
  ghost function Firsts(n: nat, on: set<nat>, s: Setting): set<nat>
    requires s.sw > 0
  {
    set c | c in on && c < n && First(c, on, s.sw) && |Component(c, on, s.sw)| >= s.minCells
  }

  /** The boxes are those of the large enough components, one each, in the order of the components' first cells. */
  lemma {:induction false} OneBoxEach(regions: seq<Roi>, n: nat, on: set<nat>, s: Setting) returns (firsts: seq<nat>)
    requires s.sw > 0 && Describes(regions, n, on, s)
    ensures |firsts| == |regions| && forall k | 0 <= k < |regions| :: BoxesComponent(regions[k], firsts[k], on, s)
    ensures forall j, k | 0 <= j < k < |firsts| :: firsts[j] < firsts[k]
    ensures forall c: nat :: c in firsts <==> c in Firsts(n, on, s)
  {
    hide First, Component, BoxesComponent;
    if n == 0 {
      firsts := [];
    } else if First(n - 1, on, s.sw) && |Component(n - 1, on, s.sw)| >= s.minCells {
      var before := OneBoxEach(Front(regions), n - 1, on, s);
      InOn(n - 1, on, s.sw);
      forall c: nat ensures c in before + [n - 1] <==> c in Firsts(n, on, s) {
        assert c in before + [n - 1] <==> c in before || c == n - 1;
      }
      forall k | 0 <= k < |before| ensures before[k] < n - 1 {
        assert before[k] in before && before[k] in Firsts(n - 1, on, s);
      }
      firsts := before + [n - 1];
    } else {
      firsts := OneBoxEach(regions, n - 1, on, s);
      assert Firsts(n, on, s) == Firsts(n - 1, on, s);
    }
  }

  /** The box of a component is one box. */
  lemma BoxUnique(r: Roi, q: Roi, c: nat, on: set<nat>, s: Setting)
    requires s.sw > 0 && BoxesComponent(r, c, on, s) && BoxesComponent(q, c, on, s)
    ensures r == q
  {
    hide Tight, RoiOf, Component;
    var cells := Component(c, on, s.sw);
    var a: Bounds :| Tight(cells, a, s.sw) && r == RoiOf(a, s.ds, s.width, s.height, |cells|);
    var b: Bounds :| Tight(cells, b, s.sw) && q == RoiOf(b, s.ds, s.width, s.height, |cells|);
    TightUnique(cells, a, b, s.sw);
  }

  /** So the changed cells alone decide the boxes. */
  lemma {:induction false} BoxesDetermined(a: seq<Roi>, b: seq<Roi>, n: nat, on: set<nat>, s: Setting)
    requires s.sw > 0 && Describes(a, n, on, s) && Describes(b, n, on, s)
    ensures a == b
  {
    hide First, Component, BoxesComponent;
    if n > 0 {
      if First(n - 1, on, s.sw) && |Component(n - 1, on, s.sw)| >= s.minCells {
        BoxesDetermined(Front(a), Front(b), n - 1, on, s);
        BoxUnique(Last(a), Last(b), n - 1, on, s);
        assert a == Front(a) + [Last(a)] && b == Front(b) + [Last(b)];
      } else {
        BoxesDetermined(a, b, n - 1, on, s);
      }
    }
  }

  lemma InOn(c: nat, on: set<nat>, sw: nat)
    requires sw > 0 && First(c, on, sw)
    ensures c in on
  {}

  /** Every changed cell of a large enough component lies whole inside the one box of its component, which lies in the
      frame and counts the component. */
  lemma CellsAreBoxed(regions: seq<Roi>, on: set<nat>, s: Setting, c: nat)
    requires s.ds > 0 && s.sw == s.width / s.ds && s.sh == s.height / s.ds && s.sw > 0
    requires forall d | d in on :: d < s.sw * s.sh
    requires Describes(regions, s.sw * s.sh, on, s)
    requires c in on && |Component(c, on, s.sw)| >= s.minCells
    ensures exists r :: (r in regions && r.changed == |Component(c, on, s.sw)| && InFrame(r, s.width, s.height)
                         && HoldsCell(r, Col(c, s.sw), Row(c, s.sw), s.ds))
  {
    hide Connected, Component, Describes, BoxesComponent, Col, Row, First, InFrame, HoldsCell;
    var f := HasFirst(c, on, s.sw);
    InOn(f, on, s.sw);
    var firsts := OneBoxEach(regions, s.sw * s.sh, on, s);
    assert f in Firsts(s.sw * s.sh, on, s);
    var k :| 0 <= k < |firsts| && firsts[k] == f;
    SameBox(regions[k], f, c, on, s);
    BoxHoldsCell(regions[k], c, on, s);
  }

  lemma SameBox(r: Roi, f: nat, c: nat, on: set<nat>, s: Setting)
    requires s.sw > 0 && BoxesComponent(r, f, on, s) && Component(f, on, s.sw) == Component(c, on, s.sw)
    ensures BoxesComponent(r, c, on, s)
  {}

  lemma InComponent(c: nat, on: set<nat>, sw: nat)
    requires sw > 0 && c in on
    ensures c in Component(c, on, sw) && Component(c, on, sw) <= on
  {
    Self(c, on, sw);
  }

  lemma BoundsInGrid(cells: set<nat>, b: Bounds, sw: nat, sh: nat)
    requires sw > 0 && Tight(cells, b, sw) && forall d | d in cells :: d < sw * sh
    ensures 0 <= b.minx && b.maxx < sw && 0 <= b.miny && b.maxy < sh
  {
    hide Row;
    var d: nat :| d in cells && Row(d, sw) == b.maxy;
    RowInGrid(d, sw, sh);
  }

  lemma BoxHoldsCell(r: Roi, c: nat, on: set<nat>, s: Setting)
    requires s.ds > 0 && s.sw == s.width / s.ds && s.sh == s.height / s.ds && s.sw > 0
    requires forall d | d in on :: d < s.sw * s.sh
    requires c in on && BoxesComponent(r, c, on, s)
    ensures r.changed == |Component(c, on, s.sw)| && InFrame(r, s.width, s.height)
    ensures HoldsCell(r, Col(c, s.sw), Row(c, s.sw), s.ds)
  {
    hide Connected, Component, Row, Col;
    InComponent(c, on, s.sw);
    var cells := Component(c, on, s.sw);
    var b: Bounds :| Tight(cells, b, s.sw) && r == RoiOf(b, s.ds, s.width, s.height, |cells|);
    BoundsInGrid(cells, b, s.sw, s.sh);
    RoiHoldsBounds(b, s.ds, s.width, s.height, |cells|, Col(c, s.sw), Row(c, s.sw));
  }
}
