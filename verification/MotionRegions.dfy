/** The motion regions of a frame: mask, flood fill, merge and cap, one after the other, on the grid kept from the
    frame before. */
module MotionRegions {
  import opened Common
  import opened Grids
  import opened Rois
  import opened FloodFills
  import RegionScans
  import opened BoxMerges
  import Gates = MotionGates

  /** The same stream setting as for the one-box gates; minChanged is the smallest component worth a region. */
  function ScanSetting(g: Gates.Setting): RegionScans.Setting
    requires g.Valid()
  {
    RegionScans.Setting(g.Sw(), g.Sh(), g.ds, g.width, g.height, g.minChanged)
  }

  ghost function Moved(g: Gates.Setting, cur: seq<byte>, prev: seq<byte>): set<nat>
    requires |cur| == |prev|
  {
    Gates.MovedCells(cur, prev, |cur|, g.thr)
  }

  method BuildMask(cur: seq<byte>, prev: seq<byte>, thr: int) returns (mask: array<byte>)
    requires |cur| == |prev|
    ensures fresh(mask) && mask.Length == |cur| && MaskIs(mask[..], Gates.MovedCells(cur, prev, |cur|, thr), {})
  {
    mask := new byte[|cur|];
    for k := 0 to |cur|
      invariant forall c | 0 <= c < k :: mask[c] == if Gates.Moved(cur[c], prev[c], thr) then 1 else 0
    {
      Gates.MovedIff(cur[k], prev[k], thr);
      mask[k] := if Gates.Moved(cur[k], prev[k], thr) then 1 else 0;
    }
  }

  /** The luma jump test that suppresses a frame. */
  predicate Jumped(g: Gates.Setting, watch: bool, cur: seq<byte>, st: Gates.HostState) {
    g.jump > 0 && watch && |cur| > 0 && |st.grid| == |cur|
    && (Gates.Mean(cur) - st.mean > g.jump as real || st.mean - Gates.Mean(cur) > g.jump as real)
  }

  class RegionGate {
    var prevGrid: seq<byte>
    var prevMean: real

    ghost function State(): Gates.HostState
      reads this
    {
      Gates.HostState(prevGrid, prevMean)
    }

    constructor ()
      ensures State() == Gates.HostState([], 0.0)
    {
      prevGrid, prevMean := [], 0.0;
    }

    /** One frame. The state moves as the one-box host gate's; a suppressed or first frame has no region; on any other
        the regions are what the cap keeps of the merged boxes of the components, or an exception for a negative cap. */
    method Frame(g: Gates.Setting, watch: bool, cur: seq<byte>, maxRegions: int)
      returns (res: Option<seq<Roi>>, ghost boxes: seq<Roi>, ghost dropped: seq<Roi>)
      requires g.Valid() && |cur| == g.Cells()
      modifies this
      ensures State() == Gates.HostStep(old(State()), g, watch, cur).0
      ensures var compared := !Jumped(g, watch, cur, old(State())) && |old(prevGrid)| == |cur|;
        && (!compared ==> res == Some([]))
        && (compared ==> (res.None? <==> maxRegions < 0))
        && (compared ==> if g.Sw() == 0 then boxes == []
                         else RegionScans.Describes(boxes, |cur|, Moved(g, cur, old(prevGrid)), ScanSetting(g)))
        && (compared && res.Some? ==> Capped(res.value, dropped, Merged(boxes), maxRegions))
    {
      hide Gates.Total, RegionScans.Describes, MaskIs;
      res, boxes, dropped := Some([]), [], [];
      var n := |cur|;
      if g.jump > 0 && watch && n > 0 {
        var sum := Gates.SumCells(cur);
        var mean := sum as real / n as real;
        var lumaJump := |prevGrid| == n && Gates.JumpTest(g, mean, prevMean);
        prevMean := mean;
        if lumaJump {
          prevGrid := cur;
          return;
        }
      }
      if |prevGrid| != n {
        prevGrid := cur;
        return;
      }
      var mask := BuildMask(cur, prevGrid, g.thr);
      ghost var on := Moved(g, cur, prevGrid);
      prevGrid := cur;
      var regions := [];
      if g.Sw() > 0 { regions := RegionScans.Scan(mask, ScanSetting(g), on); }
      boxes := regions;
      regions := Merge(regions);
      res, dropped := Cap(regions, maxRegions);
    }
  }

  /** The cap's choice: the largest, all of them if they are few enough. */
  ghost predicate Capped(regions: seq<Roi>, dropped: seq<Roi>, merged: seq<Roi>, maxRegions: int) {
    && multiset(regions) + multiset(dropped) == multiset(merged)
    && |regions| == Min(|merged|, maxRegions) && (|merged| <= maxRegions ==> regions == merged)
    && forall k, d | k in regions && d in dropped :: d.w * d.h <= k.w * k.h
  }

  /** What the regions of a frame promise. They lie in the frame, none overlaps another, and unless the cap dropped
      some, every moved cell of a large enough component lies whole inside one of them. */
  lemma RegionsHoldMotion(g: Gates.Setting, cur: seq<byte>, prev: seq<byte>, boxes: seq<Roi>, regions: seq<Roi>)
    requires g.Valid() && g.Sw() > 0 && |cur| == |prev| == g.Cells()
    requires RegionScans.Describes(boxes, |cur|, Moved(g, cur, prev), ScanSetting(g))
    requires multiset(regions) <= multiset(Merged(boxes))
    ensures (forall r | r in regions :: InFrame(r, g.width, g.height)) && Apart(regions)
    ensures regions == Merged(boxes) ==>
      forall c | c in Moved(g, cur, prev) && |Component(c, Moved(g, cur, prev), g.Sw())| >= g.minChanged ::
        exists r :: r in regions && HoldsCell(r, Col(c, g.Sw()), Row(c, g.Sw()), g.ds)
  {
    hide RegionScans.Describes, Component, Merged, Col, Row, HoldsCell;
    var on, s := Moved(g, cur, prev), ScanSetting(g);
    forall r | r in boxes ensures InFrame(r, g.width, g.height) {
      BoxesInFrame(boxes, on, s, r);
    }
    MergedInFrame(boxes, g.width, g.height);
    MergedApart(boxes);
    KeptApart(Merged(boxes), regions);
    forall r | r in regions ensures InFrame(r, g.width, g.height) {
      assert r in multiset(regions) && r in multiset(Merged(boxes));
    }
    if regions == Merged(boxes) {
      MergedCovers(boxes);
      forall c | c in on && |Component(c, on, g.Sw())| >= g.minChanged
        ensures exists r :: r in regions && HoldsCell(r, Col(c, g.Sw()), Row(c, g.Sw()), g.ds)
      {
        RegionScans.CellsAreBoxed(boxes, on, s, c);
        var b :| b in boxes && HoldsCell(b, Col(c, g.Sw()), Row(c, g.Sw()), g.ds);
        var r :| r in regions && Inside(b, r);
        StillHolds(b, r, Col(c, g.Sw()), Row(c, g.Sw()), g.ds);
      }
    }
  }

  /** And each region holds a component worth one: no region without enough moved cells side by side. */
  lemma RegionsHaveMotion(g: Gates.Setting, cur: seq<byte>, prev: seq<byte>, boxes: seq<Roi>, r: Roi) returns (c: nat)
    requires g.Valid() && g.Sw() > 0 && |cur| == |prev| == g.Cells()
    requires RegionScans.Describes(boxes, |cur|, Moved(g, cur, prev), ScanSetting(g)) && r in Merged(boxes)
    ensures c in Moved(g, cur, prev) && |Component(c, Moved(g, cur, prev), g.Sw())| >= g.minChanged
    ensures HoldsCell(r, Col(c, g.Sw()), Row(c, g.Sw()), g.ds)
  {
    hide RegionScans.Describes, Component, Merged, Col, Row, HoldsCell, RegionScans.BoxesComponent, RegionScans.First;
    var on, s := Moved(g, cur, prev), ScanSetting(g);
    MergedHolds(boxes, r);
    var b :| b in boxes && Inside(b, r);
    var firsts := RegionScans.OneBoxEach(boxes, |cur|, on, s);
    var k: nat :| k < |boxes| && boxes[k] == b;
    c := firsts[k];
    assert c in firsts && c in RegionScans.Firsts(|cur|, on, s);
    RegionScans.BoxHoldsCell(b, c, on, s);
    StillHolds(b, r, Col(c, g.Sw()), Row(c, g.Sw()), g.ds);
  }

  lemma StillHolds(b: Roi, r: Roi, i: int, j: int, ds: int)
    requires HoldsCell(b, i, j, ds) && Inside(b, r)
    ensures HoldsCell(r, i, j, ds)
  {}

  lemma BoxesInFrame(boxes: seq<Roi>, on: set<nat>, s: RegionScans.Setting, r: Roi)
    requires s.ds > 0 && s.sw == s.width / s.ds && s.sh == s.height / s.ds && s.sw > 0
    requires forall d | d in on :: d < s.sw * s.sh
    requires RegionScans.Describes(boxes, s.sw * s.sh, on, s) && r in boxes
    ensures InFrame(r, s.width, s.height)
  {
    hide Component, RegionScans.Describes, RegionScans.BoxesComponent, RegionScans.First, InFrame, HoldsCell;
    var firsts := RegionScans.OneBoxEach(boxes, s.sw * s.sh, on, s);
    var k: nat :| k < |boxes| && boxes[k] == r;
    assert firsts[k] in firsts && firsts[k] in RegionScans.Firsts(s.sw * s.sh, on, s);
    RegionScans.BoxHoldsCell(r, firsts[k], on, s);
  }
}
