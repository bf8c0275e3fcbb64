/** The motion gates: the plain host gate, the device-resident gate whose verdict is accumulated by atomic operations
    in any order, and VAAPI's in-place scan. The fast forms must answer as the plain one. */
module MotionGates {
  import opened Common
  import opened Grids
  import opened Rois
  import opened Bits
  import opened FloodFills

  function Abs(v: int): int { if v >= 0 then v else -v }
  function AbsReal(v: real): real { if v >= 0.0 then v else -v }

  predicate Moved(a: byte, b: byte, thr: int) { Abs(a - b) > thr }

  /** A cell moved when it got brighter, or darker, by more than the threshold. */
  lemma MovedIff(a: byte, b: byte, thr: int)
    ensures Moved(a, b, thr) <==> a - b > thr || b - a > thr
  {}

  /** What a gate is told, the same for every frame of a stream. */
  datatype Setting = Setting(width: nat, height: nat, ds: nat, thr: int, minChanged: int, jump: int) {
    predicate Valid() { ds > 0 }

    function Sw(): nat
      requires Valid()
    {
      width / ds
    }

    function Sh(): nat
      requires Valid()
    {
      height / ds
    }

    function Cells(): nat
      requires Valid()
    {
      Sw() * Sh()
    }
  }

  datatype Verdict = Verdict(cnt: int, minx: int, miny: int, maxx: int, maxy: int, sum: int)

  function Fresh(sw: int, sh: int): Verdict { Verdict(0, sw, sh, -1, -1, 0) }

  /** The verdict over the first k cells, in row order. */
  function Scan(cur: seq<byte>, prev: seq<byte>, k: nat, sw: nat, sh: nat, thr: int): Verdict
    requires k <= |cur| == |prev| && (k > 0 ==> sw > 0)
  {
    if k == 0 then Fresh(sw, sh)
    else
      var v, c := Scan(cur, prev, k - 1, sw, sh, thr), k - 1;
      var w := v.(sum := v.sum + cur[c]);
      if Moved(cur[c], prev[c], thr)
      then w.(cnt := w.cnt + 1, minx := Min(w.minx, Col(c, sw)), miny := Min(w.miny, Row(c, sw)),
              maxx := Max(w.maxx, Col(c, sw)), maxy := Max(w.maxy, Row(c, sw)))
      else w
  }

  function Total(s: seq<int>): int {
    if s == [] then 0 else Total(Front(s)) + Last(s)
  }

  /** The box of a verdict: none with too few changed cells. */
  function RoiOfVerdict(v: Verdict, g: Setting): Roi {
    if v.cnt >= g.minChanged && v.maxx >= v.minx
    then RoiOf(Bounds(v.minx, v.miny, v.maxx, v.maxy), g.ds, g.width, g.height, v.cnt)
    else NO_ROI.(changed := v.cnt)
  }

  function Mean(s: seq<byte>): real
    requires s != []
  {
    Total(s) as real / |s| as real
  }

  // ----- the host gate -----

  datatype HostState = HostState(grid: seq<byte>, mean: real)

  predicate JumpTest(g: Setting, mean: real, before: real) {
    AbsReal(mean - before) > g.jump as real
  }

  /** The mean jumped up or down by more than the threshold. */
  lemma JumpIff(g: Setting, mean: real, before: real)
    ensures JumpTest(g, mean, before) <==> mean - before > g.jump as real || before - mean > g.jump as real
  {}

  /** One frame of the host gate. `watch`: the caller passes somewhere to keep the mean. */
  function HostStep(st: HostState, g: Setting, watch: bool, cur: seq<byte>): (res: (HostState, Roi))
    requires g.Valid() && |cur| == g.Cells()
  {
    var looks := g.jump > 0 && watch && |cur| > 0;
    var mean := if looks then Mean(cur) else st.mean;
    var same := |st.grid| == |cur|;
    var jumped := looks && same && JumpTest(g, mean, st.mean);
    (HostState(cur, mean),
     if !jumped && same then RoiOfVerdict(Scan(cur, st.grid, |cur|, g.Sw(), g.Sh(), g.thr), g) else NO_ROI)
  }

  class HostGate {
    var prevGrid: seq<byte>
    var prevMean: real

    ghost function State(): HostState
      reads this
    {
      HostState(prevGrid, prevMean)
    }

    constructor ()
      ensures State() == HostState([], 0.0)
    {
      prevGrid, prevMean := [], 0.0;
    }

    method Frame(g: Setting, watch: bool, cur: seq<byte>) returns (m: Roi)
      requires g.Valid() && |cur| == g.Cells()
      modifies this
      ensures (State(), m) == HostStep(old(State()), g, watch, cur)
    {
      hide Scan, RoiOfVerdict, Total;
      var lumaJump, n := false, |cur|;
      if g.jump > 0 && watch && n > 0 {
        var sum := SumCells(cur);
        var mean := sum as real / n as real;
        lumaJump := |prevGrid| == n && JumpTest(g, mean, prevMean);
        prevMean := mean;
      }
      m := NO_ROI;
      if !lumaJump && |prevGrid| == n {
        var v := ScanGrid(cur, prevGrid, g.Sw(), g.Sh(), g.thr);
        SameButSum(v, Scan(cur, prevGrid, n, g.Sw(), g.Sh(), g.thr), g);
        m := RoiOfVerdict(v, g);
      }
      prevGrid := cur;
    }
  }

  /** The box does not depend on the sum. */
  lemma SameButSum(v: Verdict, w: Verdict, g: Setting)
    requires v == w.(sum := 0)
    ensures RoiOfVerdict(v, g) == RoiOfVerdict(w, g)
  {}

  method SumCells(cur: seq<byte>) returns (sum: int)
    ensures sum == Total(cur)
  {
    sum := 0;
    for k := 0 to |cur|
      invariant sum == Total(cur[..k])
    {
      assert Front(cur[..k + 1]) == cur[..k];
      sum := sum + cur[k];
    }
    assert cur[..|cur|] == cur;
  }

  /** The host's double loop. */
  method ScanGrid(cur: seq<byte>, prev: seq<byte>, sw: nat, sh: nat, thr: int) returns (v: Verdict)
    requires |cur| == |prev| == sw * sh
    ensures v == Scan(cur, prev, |cur|, sw, sh, thr).(sum := 0)
  {
    hide Cell;
    var minx, miny, maxx, maxy, cnt := sw as int, sh as int, -1, -1, 0;
    var j := 0;
    CellSteps(0, 0, sw);
    while j < sh
      invariant 0 <= j <= sh && Cell(0, j, sw) <= |cur|
      invariant Verdict(cnt, minx, miny, maxx, maxy, 0) == Scan(cur, prev, Cell(0, j, sw), sw, sh, thr).(sum := 0)
    {
      var i := 0;
      while i < sw
        invariant 0 <= i <= sw && Cell(i, j, sw) <= |cur|
        invariant Verdict(cnt, minx, miny, maxx, maxy, 0) == Scan(cur, prev, Cell(i, j, sw), sw, sh, thr).(sum := 0)
      {
        CellSteps(i, j, sw);
        CellInGrid(i, j, sw, sh);
        CellParts(i, j, sw);
        if Moved(cur[Cell(i, j, sw)], prev[Cell(i, j, sw)], thr) {
          cnt := cnt + 1;
          minx, miny := Min(minx, i), Min(miny, j);
          maxx, maxy := Max(maxx, i), Max(maxy, j);
        }
        i := i + 1;
      }
      CellSteps(0, j, sw);
      j := j + 1;
    }
    CellSteps(0, sh, sw);
    v := Verdict(cnt, minx, miny, maxx, maxy, 0);
  }

  // ----- the diff kernel -----

  /** One atomic operation of a thread on the verdict. */
  datatype Atomic = AddCnt | MinX(v: int) | MinY(v: int) | MaxX(v: int) | MaxY(v: int) | AddSum(v: int)

  function Apply(v: Verdict, a: Atomic): Verdict {
    match a
    case AddCnt => v.(cnt := v.cnt + 1)
    case MinX(x) => v.(minx := Min(v.minx, x))
    case MinY(y) => v.(miny := Min(v.miny, y))
    case MaxX(x) => v.(maxx := Max(v.maxx, x))
    case MaxY(y) => v.(maxy := Max(v.maxy, y))
    case AddSum(x) => v.(sum := v.sum + x)
  }

  function ApplyAll(v: Verdict, ops: seq<Atomic>): Verdict {
    if ops == [] then v else Apply(ApplyAll(v, Front(ops)), Last(ops))
  }

  /** The operations of the threads of the first k cells: five for a changed cell. */
  function CellAtomics(cur: seq<byte>, prev: seq<byte>, k: nat, sw: nat, thr: int): seq<Atomic>
    requires k <= |cur| == |prev| && (k > 0 ==> sw > 0)
  {
    if k == 0 then []
    else
      CellAtomics(cur, prev, k - 1, sw, thr) +
      (if Moved(cur[k - 1], prev[k - 1], thr)
       then [AddCnt, MinX(Col(k - 1, sw)), MinY(Row(k - 1, sw)), MaxX(Col(k - 1, sw)), MaxY(Row(k - 1, sw))]
       else [])
  }

  const BLOCK: nat := 256

  /** The cells of one block of threads. */
  function Block(cur: seq<byte>, b: nat): seq<byte> {
    cur[Min(b * BLOCK, |cur|)..Min(b * BLOCK + BLOCK, |cur|)]
  }

  function Blocks(n: nat): nat { (n + BLOCK - 1) / BLOCK }

  /** Thread 0 of each block adds the block's sum. */
  function BlockAtomics(cur: seq<byte>, b: nat): seq<Atomic> {
    if b == 0 then [] else BlockAtomics(cur, b - 1) + [AddSum(Total(Block(cur, b - 1)))]
  }

  /** All that the launch applies to the verdict. */
  function Launch(cur: seq<byte>, prev: seq<byte>, sw: nat, thr: int): seq<Atomic>
    requires |cur| == |prev| && (|cur| > 0 ==> sw > 0)
  {
    CellAtomics(cur, prev, |cur|, sw, thr) + BlockAtomics(cur, Blocks(|cur|))
  }

  lemma Commute(v: Verdict, a: Atomic, b: Atomic)
    ensures Apply(Apply(v, a), b) == Apply(Apply(v, b), a)
  {}

  lemma {:induction false} ApplyConcat(v: Verdict, a: seq<Atomic>, b: seq<Atomic>)
    ensures ApplyAll(v, a + b) == ApplyAll(ApplyAll(v, a), b)
  {
    if b == [] {
      assert a + b == a;
    } else {
      ApplyConcat(v, a, Front(b));
      assert Front(a + b) == a + Front(b);
    }
  }

  /** An operation may be applied last instead of first. */
  lemma {:induction false} ApplyLast(v: Verdict, a: Atomic, ops: seq<Atomic>)
    ensures ApplyAll(Apply(v, a), ops) == Apply(ApplyAll(v, ops), a)
  {
    if ops != [] {
      ApplyLast(v, a, Front(ops));
      Commute(ApplyAll(v, Front(ops)), a, Last(ops));
    }
  }

  /** The order of atomic operations does not matter. */
  lemma {:induction false} AnyOrder(v: Verdict, a: seq<Atomic>, b: seq<Atomic>)
    requires multiset(a) == multiset(b)
    ensures ApplyAll(v, a) == ApplyAll(v, b)
    decreases |a|
  {
    hide ApplyAll, Apply;
    if a == [] {
      SameLength(a, b);
      assert b == [];
    } else {
      var k := WithoutLast(a, b);
      AnyOrder(v, Front(a), b[..k] + b[k + 1..]);
      MoveLast(v, b[..k], b[k], b[k + 1..]);
      MoveLast(v, Front(a), b[k], []);
      assert Front(a) + [] == Front(a) && Front(a) + [b[k]] + [] == a && b == b[..k] + [b[k]] + b[k + 1..];
    }
  }

  lemma SameLength(a: seq<Atomic>, b: seq<Atomic>)
    requires multiset(a) == multiset(b)
    ensures |a| == |b|
  {
    assert |multiset(a)| == |a| && |multiset(b)| == |b|;
  }

  /** Where b has the last of a, and that the rest are the same. */
  lemma WithoutLast(a: seq<Atomic>, b: seq<Atomic>) returns (k: nat)
    requires a != [] && multiset(a) == multiset(b)
    ensures k < |b| && b[k] == Last(a) && multiset(Front(a)) == multiset(b[..k] + b[k + 1..])
  {
    assert Last(a) in a;
    assert Last(a) in multiset(b);
    k :| 0 <= k < |b| && b[k] == Last(a);
    TakenOut(a, |a| - 1);
    assert Front(a) + a[|a|..] == Front(a);
    TakenOut(b, k);
    SameLess(multiset(Front(a)), multiset(b[..k] + b[k + 1..]), Last(a));
  }

  lemma SameLess(a: multiset<Atomic>, b: multiset<Atomic>, x: Atomic)
    requires a + multiset{x} == b + multiset{x}
    ensures a == b
  {
    assert a == a + multiset{x} - multiset{x} && b == b + multiset{x} - multiset{x};
  }

  lemma MoveLast(v: Verdict, a: seq<Atomic>, x: Atomic, b: seq<Atomic>)
    ensures ApplyAll(v, a + [x] + b) == Apply(ApplyAll(v, a + b), x)
  {
    ApplyConcat(v, a + [x], b);
    ApplyConcat(v, a, b);
    assert Front(a + [x]) == a;
    ApplyLast(ApplyAll(v, a), x, b);
  }

  /** In row order the cells' operations are the scan, but for the sum. */
  lemma {:induction false} CellsScan(cur: seq<byte>, prev: seq<byte>, k: nat, sw: nat, sh: nat, thr: int)
    requires k <= |cur| == |prev| && (k > 0 ==> sw > 0)
    ensures ApplyAll(Fresh(sw, sh), CellAtomics(cur, prev, k, sw, thr)) ==
            Scan(cur, prev, k, sw, sh, thr).(sum := 0)
  {
    if k > 0 {
      CellsScan(cur, prev, k - 1, sw, sh, thr);
      var v, ops := Fresh(sw, sh), CellAtomics(cur, prev, k - 1, sw, thr);
      if Moved(cur[k - 1], prev[k - 1], thr) {
        var x, y := Col(k - 1, sw), Row(k - 1, sw);
        FiveMore(v, ops, x, y);
      } else {
        assert ops + [] == ops;
      }
    }
  }

  lemma FiveMore(v: Verdict, ops: seq<Atomic>, x: int, y: int)
    ensures ApplyAll(v, ops + [AddCnt, MinX(x), MinY(y), MaxX(x), MaxY(y)]) ==
            var w := ApplyAll(v, ops);
            w.(cnt := w.cnt + 1, minx := Min(w.minx, x), miny := Min(w.miny, y), maxx := Max(w.maxx, x),
               maxy := Max(w.maxy, y))
  {
    hide ApplyAll;
    assert [AddCnt, MinX(x), MinY(y), MaxX(x), MaxY(y)] == [AddCnt] + ([MinX(x)] + ([MinY(y)] + ([MaxX(x)] + [MaxY(y)])));
    var w := ApplyAll(v, ops);
    ApplyConcat(v, ops, [AddCnt, MinX(x), MinY(y), MaxX(x), MaxY(y)]);
    OneMore(w, AddCnt, [MinX(x)] + ([MinY(y)] + ([MaxX(x)] + [MaxY(y)])));
    var w1 := Apply(w, AddCnt);
    OneMore(w1, MinX(x), [MinY(y)] + ([MaxX(x)] + [MaxY(y)]));
    var w2 := Apply(w1, MinX(x));
    OneMore(w2, MinY(y), [MaxX(x)] + [MaxY(y)]);
    var w3 := Apply(w2, MinY(y));
    OneMore(w3, MaxX(x), [MaxY(y)]);
    OneMore(Apply(w3, MaxX(x)), MaxY(y), []);
    assert [MaxY(y)] + [] == [MaxY(y)];
    Nothing(Apply(Apply(w3, MaxX(x)), MaxY(y)));
  }

  lemma Nothing(v: Verdict)
    ensures ApplyAll(v, []) == v
  {}

  lemma OneMore(v: Verdict, a: Atomic, rest: seq<Atomic>)
    ensures ApplyAll(v, [a] + rest) == ApplyAll(Apply(v, a), rest)
  {
    ApplyConcat(v, [a], rest);
    assert Front([a]) == [];
  }

  lemma {:induction false} TotalConcat(a: seq<int>, b: seq<int>)
    ensures Total(a + b) == Total(a) + Total(b)
  {
    if b == [] {
      assert a + b == a;
    } else {
      TotalConcat(a, Front(b));
      assert Front(a + b) == a + Front(b);
    }
  }

  lemma ApplySnoc(v: Verdict, ops: seq<Atomic>, x: Atomic)
    ensures ApplyAll(v, ops + [x]) == Apply(ApplyAll(v, ops), x)
  {
    assert Front(ops + [x]) == ops;
  }

  lemma BlocksUpTo(cur: seq<byte>, b: nat)
    requires b > 0
    ensures cur[..Min(b * BLOCK, |cur|)] == cur[..Min((b - 1) * BLOCK, |cur|)] + Block(cur, b - 1)
  {
    assert b * BLOCK == (b - 1) * BLOCK + BLOCK;
  }

  /** The blocks' sums add up to the sum of the cells they hold. */
  lemma {:induction false} BlocksTotal(v: Verdict, cur: seq<byte>, b: nat)
    ensures ApplyAll(v, BlockAtomics(cur, b)) == v.(sum := v.sum + Total(cur[..Min(b * BLOCK, |cur|)]))
  {
    if b == 0 {
      assert cur[..0] == [];
    } else {
      hide Total, ApplyAll, Block;
      BlocksTotal(v, cur, b - 1);
      ApplySnoc(v, BlockAtomics(cur, b - 1), AddSum(Total(Block(cur, b - 1))));
      BlocksUpTo(cur, b);
      TotalConcat(cur[..Min((b - 1) * BLOCK, |cur|)], Block(cur, b - 1));
    }
  }

  lemma {:induction false} ScanSum(cur: seq<byte>, prev: seq<byte>, k: nat, sw: nat, sh: nat, thr: int)
    requires k <= |cur| == |prev| && (k > 0 ==> sw > 0)
    ensures Scan(cur, prev, k, sw, sh, thr).sum == Total(cur[..k])
  {
    if k > 0 {
      ScanSum(cur, prev, k - 1, sw, sh, thr);
      assert Front(cur[..k]) == cur[..k - 1];
    }
  }

  /** Whatever order the device runs the launch in, its verdict is the row-order scan. */
  lemma DeviceVerdict(cur: seq<byte>, prev: seq<byte>, sw: nat, sh: nat, thr: int, schedule: seq<Atomic>)
    requires |cur| == |prev| && (|cur| > 0 ==> sw > 0)
    requires multiset(schedule) == multiset(Launch(cur, prev, sw, thr))
    ensures ApplyAll(Fresh(sw, sh), schedule) == Scan(cur, prev, |cur|, sw, sh, thr)
  {
    hide ApplyAll, CellAtomics, BlockAtomics, Scan, Total;
    var v, cells, blocks := Fresh(sw, sh), CellAtomics(cur, prev, |cur|, sw, thr), BlockAtomics(cur, Blocks(|cur|));
    AnyOrder(v, schedule, cells + blocks);
    ApplyConcat(v, cells, blocks);
    CellsScan(cur, prev, |cur|, sw, sh, thr);
    BlocksTotal(ApplyAll(v, cells), cur, Blocks(|cur|));
    ScanSum(cur, prev, |cur|, sw, sh, thr);
    assert cur[..|cur|] == cur;
  }

  // ----- the sum of one block, by halving -----

  lemma {:induction false} PairSums(a: seq<int>, b: seq<int>, c: seq<int>)
    requires |a| == |b| == |c| && forall t | 0 <= t < |a| :: c[t] == a[t] + b[t]
    ensures Total(c) == Total(a) + Total(b)
  {
    if a != [] { PairSums(Front(a), Front(b), Front(c)); }
  }

  /** The shared-memory reduction of one block: each thread brings its cell, threads off the grid bring 0, and the
      upper half is added to the lower until one value is left. */
  method ReduceBlock(cur: seq<byte>, b: nat) returns (sum: int)
    ensures sum == Total(Block(cur, b))
  {
    var shared := new int[BLOCK](t requires 0 <= t < BLOCK => if b * BLOCK + t < |cur| then cur[b * BLOCK + t] else 0);
    Padded(cur, b, shared[..]);
    var s := BLOCK / 2;
    ghost var w := BLOCK;
    assert shared[..BLOCK] == shared[..];
    assert Pow2(1) && Pow2(2) && Pow2(4) && Pow2(8) && Pow2(16) && Pow2(32) && Pow2(64) && Pow2(128) && Pow2(256);
    while s > 0
      invariant 1 <= w <= BLOCK && Pow2(w) && s == w / 2
      invariant Total(shared[..w]) == Total(Block(cur, b))
      decreases s
    {
      assert w == 2 * s;
      Halve(shared, s);
      w, s := s, s / 2;
    }
    assert shared[..1] == [shared[0]] && Front([shared[0]]) == [];
    sum := shared[0];
  }

  /** One round: thread t adds the value s places on to its own. */
  method Halve(shared: array<int>, s: nat)
    requires 2 * s <= shared.Length
    modifies shared
    ensures Total(shared[..s]) == old(Total(shared[..2 * s]))
  {
    hide Total;
    ghost var was := shared[..];
    for t := 0 to s
      invariant forall u | 0 <= u < t :: shared[u] == was[u] + was[u + s]
      invariant forall u | t <= u < shared.Length :: shared[u] == was[u]
    {
      shared[t] := shared[t] + shared[t + s];
    }
    PairSums(was[..s], was[s..2 * s], shared[..s]);
    TotalConcat(was[..s], was[s..2 * s]);
    assert was[..s] + was[s..2 * s] == was[..2 * s];
  }

  lemma Padded(cur: seq<byte>, b: nat, shared: seq<int>)
    requires |shared| == BLOCK
    requires forall t | 0 <= t < BLOCK :: shared[t] == if b * BLOCK + t < |cur| then cur[b * BLOCK + t] else 0
    ensures Total(shared) == Total(Block(cur, b))
  {
    var block := Block(cur, b);
    var zeros := seq(BLOCK - |block|, t => 0);
    assert shared == block + zeros;
    TotalConcat(block, zeros);
    TotalZeros(BLOCK - |block|);
  }

  lemma {:induction false} TotalZeros(n: nat)
    ensures Total(seq(n, t => 0)) == 0
  {
    if n > 0 {
      assert Front(seq(n, t => 0)) == seq(n - 1, t => 0);
      TotalZeros(n - 1);
    }
  }

  // ----- the device gate -----

  /** Both device buffers, whole: the one the next frame goes to and the one it is compared with. */
  datatype DeviceState = DeviceState(cur: seq<byte>, prev: seq<byte>, hasPrev: bool, mean: Option<real>)

  /** The buffers once a grid is in: made anew if it has more cells than they do, else only their front is overwritten;
      without a previous grid it is also what it will be compared with. */
  function Seeded(st: DeviceState, grid: seq<byte>): (seeded: DeviceState)
    requires |st.cur| == |st.prev|
    ensures |seeded.cur| == |seeded.prev| >= |grid| && seeded.cur[..|grid|] == grid && seeded.hasPrev
  {
    var n := |grid|;
    if n > |st.prev| then DeviceState(grid, grid, true, None)
    else DeviceState(grid + st.cur[n..], if st.hasPrev then st.prev else grid + st.prev[n..], true, st.mean)
  }

  /** The grid a frame is compared with. */
  function Against(st: DeviceState, grid: seq<byte>): (prev: seq<byte>)
    requires |st.cur| == |st.prev|
    ensures |prev| == |grid|
  {
    Seeded(st, grid).prev[..|grid|]
  }

  function DeviceStep(st: DeviceState, g: Setting, grid: seq<byte>): (res: (DeviceState, Roi))
    requires g.Valid() && |grid| == g.Cells() && |st.cur| == |st.prev|
    ensures |res.0.cur| == |res.0.prev|
  {
    var sd := Seeded(st, grid);
    var v := Scan(grid, Against(st, grid), |grid|, g.Sw(), g.Sh(), g.thr);
    var looks := g.jump > 0 && |grid| > 0;
    var jumped := looks && sd.mean.Some? && JumpTest(g, Mean(grid), sd.mean.value);
    (DeviceState(sd.prev, sd.cur, true, if looks then Some(Mean(grid)) else sd.mean),
     if jumped then NO_ROI.(changed := v.cnt) else RoiOfVerdict(v, g))
  }

  /** Two device grids swapped after each frame, and the last mean. */
  class DeviceGate {
    var dCur: array<byte>
    var dPrev: array<byte>
    var cap: nat
    var hasPrev: bool
    var meanValid: bool
    var prevMean: real

    ghost predicate Valid()
      reads this
    {
      dCur != dPrev && dCur.Length == dPrev.Length == cap
    }

    ghost function State(): (st: DeviceState)
      requires Valid()
      reads this, dCur, dPrev
      ensures |st.cur| == |st.prev|
    {
      DeviceState(dCur[..], dPrev[..], hasPrev, if meanValid then Some(prevMean) else None)
    }

    constructor ()
      ensures Valid() && fresh(dCur) && fresh(dPrev) && State() == DeviceState([], [], false, None)
    {
      dCur, dPrev := new byte[0], new byte[0];
      cap, hasPrev, meanValid, prevMean := 0, false, false, 0.0;
    }

    /** Buffers too small are made anew, of any content, and forget the past; others are kept. */
    method Ensure(need: nat)
      requires Valid()
      modifies this
      ensures Valid() && cap == Max(need, old(cap))
      ensures need <= old(cap) ==> dCur == old(dCur) && dPrev == old(dPrev) && State() == old(State())
      ensures need > old(cap) ==> fresh(dCur) && fresh(dPrev) && !hasPrev && !meanValid
    {
      if need > cap {
        dCur, dPrev := new byte[need], new byte[need];
        cap, hasPrev, meanValid := need, false, false;
      }
    }

    /** Put the grid in, and seed the other buffer with it if there is no previous grid. */
    method Seed(grid: seq<byte>)
      requires Valid()
      modifies this, dCur, dPrev
      ensures Valid() && State() == Seeded(old(State()), grid)
      ensures (dCur == old(dCur) && dPrev == old(dPrev)) || (fresh(dCur) && fresh(dPrev))
    {
      var n := |grid|;
      ghost var st := State();
      Ensure(n);
      CopyGrid(grid, dCur);
      if !hasPrev {
        CopyGrid(dCur[..n], dPrev);
        hasPrev := true;
      }
      assert n > |st.prev| ==> dCur[..] == grid && dPrev[..] == grid;
    }

    /** One frame, the launch's atomic operations running in the order of `schedule`. */
    method Frame(g: Setting, grid: seq<byte>, schedule: seq<Atomic>) returns (m: Roi)
      requires Valid() && g.Valid() && |grid| == g.Cells()
      requires multiset(schedule) == multiset(Launch(grid, Against(State(), grid), g.Sw(), g.thr))
      modifies this, dCur, dPrev
      ensures Valid() && (fresh(dCur) || dCur in old({dCur, dPrev})) && (fresh(dPrev) || dPrev in old({dCur, dPrev}))
      ensures (State(), m) == DeviceStep(old(State()), g, grid)
    {
      hide Scan, ApplyAll, Launch, RoiOfVerdict, Total, Seeded;
      ghost var st, against := State(), Against(State(), grid);
      var n := |grid|;
      Seed(grid);
      var v := RunSchedule(Fresh(g.Sw(), g.Sh()), schedule);
      DeviceVerdict(grid, against, g.Sw(), g.Sh(), g.thr, schedule);
      var lumaJump := false;
      if g.jump > 0 && n > 0 {
        ScanSum(grid, against, n, g.Sw(), g.Sh(), g.thr);
        assert grid[..n] == grid;
        var mean := v.sum as real / n as real;
        lumaJump := meanValid && JumpTest(g, mean, prevMean);
        prevMean, meanValid := mean, true;
      }
      m := if lumaJump then NO_ROI.(changed := v.cnt) else RoiOfVerdict(v, g);
      dCur, dPrev := dPrev, dCur;
    }
  }

  /** Copy a grid into the front of a device buffer. */
  method CopyGrid(src: seq<byte>, dst: array<byte>)
    requires |src| <= dst.Length
    modifies dst
    ensures dst[..] == src + old(dst[..])[|src|..]
  {
    ghost var was := dst[..];
    for k := 0 to |src|
      invariant forall i | 0 <= i < k :: dst[i] == src[i]
      invariant forall i | k <= i < dst.Length :: dst[i] == was[i]
    {
      dst[k] := src[k];
    }
  }

  method RunSchedule(init: Verdict, schedule: seq<Atomic>) returns (v: Verdict)
    ensures v == ApplyAll(init, schedule)
  {
    v := init;
    for k := 0 to |schedule|
      invariant v == ApplyAll(init, schedule[..k])
    {
      assert Front(schedule[..k + 1]) == schedule[..k];
      v := Apply(v, schedule[k]);
    }
    assert schedule[..|schedule|] == schedule;
  }

  // ----- what the scan finds -----

  ghost function MovedCells(cur: seq<byte>, prev: seq<byte>, k: nat, thr: int): set<nat>
    requires k <= |cur| == |prev|
  {
    set c: nat | c < k && (cur[c] - prev[c] > thr || prev[c] - cur[c] > thr)
  }

  /** Where and how many cells moved, without the sum of the new grid. */
  function Motion(v: Verdict): Verdict { v.(sum := 0) }

  function Negative(s: seq<byte>): seq<byte> { seq(|s|, i requires 0 <= i < |s| => 255 - s[i]) }

  /** The motion is the same with the two grids exchanged: what got darker counts as what got brighter. */
  lemma {:induction false} ScanExchanged(cur: seq<byte>, prev: seq<byte>, k: nat, sw: nat, sh: nat, thr: int)
    requires k <= |cur| == |prev| && (k > 0 ==> sw > 0)
    ensures Motion(Scan(cur, prev, k, sw, sh, thr)) == Motion(Scan(prev, cur, k, sw, sh, thr))
  {
    hide Col, Row;
    if k > 0 { ScanExchanged(cur, prev, k - 1, sw, sh, thr); }
  }

  /** And with both grids turned to their negatives. */
  lemma {:induction false} ScanNegative(cur: seq<byte>, prev: seq<byte>, k: nat, sw: nat, sh: nat, thr: int)
    requires k <= |cur| == |prev| && (k > 0 ==> sw > 0)
    ensures Motion(Scan(Negative(cur), Negative(prev), k, sw, sh, thr)) == Motion(Scan(cur, prev, k, sw, sh, thr))
  {
    hide Col, Row;
    if k > 0 { ScanNegative(cur, prev, k - 1, sw, sh, thr); }
  }

  /** The scan counts the moved cells and bounds them tightly. */
  lemma {:induction false} ScanIsTight(cur: seq<byte>, prev: seq<byte>, k: nat, sw: nat, sh: nat, thr: int)
    requires k <= |cur| == |prev| && |cur| == sw * sh && (k > 0 ==> sw > 0)
    ensures var v, moved := Scan(cur, prev, k, sw, sh, thr), MovedCells(cur, prev, k, thr);
      v.cnt == |moved| &&
      if v.cnt == 0 then (v.minx, v.miny, v.maxx, v.maxy) == (sw, sh, -1, -1)
      else sw > 0 && Tight(moved, Bounds(v.minx, v.miny, v.maxx, v.maxy), sw)
  {
    hide Tight, Col, Row, Moved;
    if k > 0 {
      MovedIff(cur[k - 1], prev[k - 1], thr);
      var c, was := k - 1, MovedCells(cur, prev, k - 1, thr);
      ScanIsTight(cur, prev, c, sw, sh, thr);
      var v := Scan(cur, prev, c, sw, sh, thr);
      if Moved(cur[c], prev[c], thr) {
        assert MovedCells(cur, prev, k, thr) == was + {c};
        if v.cnt == 0 {
          assert was == {} && was + {c} == {c};
          ColRowBounds(c, sw, sh);
          TightOne(c, sw);
        } else {
          TightWiden(was, Bounds(v.minx, v.miny, v.maxx, v.maxy), c, sw);
        }
      } else {
        assert MovedCells(cur, prev, k, thr) == was;
      }
    }
  }

  lemma ColRowBounds(c: nat, sw: nat, sh: nat)
    requires sw > 0 && c < sw * sh
    ensures 0 <= Col(c, sw) < sw && 0 <= Row(c, sw) < sh
  {
    RowInGrid(c, sw, sh);
  }

  /** With something moved the bounds are ordered and in the grid; with nothing moved they are empty. */
  lemma BoundsOrdered(cur: seq<byte>, prev: seq<byte>, sw: nat, sh: nat, thr: int)
    requires |cur| == |prev| == sw * sh
    ensures var v := Scan(cur, prev, |cur|, sw, sh, thr);
      if v.cnt == 0 then v.maxx == -1 && v.minx == sw
      else 0 <= v.minx <= v.maxx < sw && 0 <= v.miny <= v.maxy < sh
  {
    hide Scan, Col, Row;
    ScanIsTight(cur, prev, |cur|, sw, sh, thr);
    var v, moved := Scan(cur, prev, |cur|, sw, sh, thr), MovedCells(cur, prev, |cur|, thr);
    if v.cnt > 0 {
      var a :| a in moved && Col(a, sw) == v.maxx;
      var b :| b in moved && Row(b, sw) == v.maxy;
      var d :| d in moved && Col(d, sw) == v.minx;
      ColRowBounds(a, sw, sh); ColRowBounds(b, sw, sh); ColRowBounds(d, sw, sh);
    }
  }

  /** An active answer's box lies in the frame and holds every moved cell. */
  lemma ActiveBoxHoldsMotion(g: Setting, cur: seq<byte>, prev: seq<byte>, c: nat)
    requires g.Valid() && |cur| == |prev| == g.Cells() && c < |cur| && Moved(cur[c], prev[c], g.thr) && g.Sw() > 0
    requires RoiOfVerdict(Scan(cur, prev, |cur|, g.Sw(), g.Sh(), g.thr), g).active
    ensures var r := RoiOfVerdict(Scan(cur, prev, |cur|, g.Sw(), g.Sh(), g.thr), g);
      InFrame(r, g.width, g.height) && HoldsCell(r, Col(c, g.Sw()), Row(c, g.Sw()), g.ds)
  {
    hide Scan, Col, Row, RoiOf;
    var sw, sh := g.Sw(), g.Sh();
    var v := Scan(cur, prev, |cur|, sw, sh, g.thr);
    BoundsOrdered(cur, prev, sw, sh, g.thr);
    ScanIsTight(cur, prev, |cur|, sw, sh, g.thr);
    assert c in MovedCells(cur, prev, |cur|, g.thr);
    var b := Bounds(v.minx, v.miny, v.maxx, v.maxy);
    assert Within(c, b, sw);
    RoiHoldsBounds(b, g.ds, g.width, g.height, v.cnt, Col(c, sw), Row(c, sw));
  }

  /** What the host gate says of a frame it compares and does not suppress: how many cells moved, motion when they are at
      least minChanged and at least one, and then the box of their tight bounds. */
  lemma HostAnswers(st: HostState, g: Setting, watch: bool, cur: seq<byte>)
    requires g.Valid() && |cur| == |st.grid| == g.Cells()
    requires !(g.jump > 0 && watch && cur != []
               && (Mean(cur) - st.mean > g.jump as real || st.mean - Mean(cur) > g.jump as real))
    ensures var r, moved := HostStep(st, g, watch, cur).1, MovedCells(cur, st.grid, |cur|, g.thr);
      && r.changed == |moved| && (r.active <==> |moved| >= g.minChanged && |moved| > 0)
      && (!r.active ==> r == Roi(false, 0, 0, 0, 0, |moved|))
      && (r.active ==> g.Sw() > 0 && exists b :: Tight(moved, b, g.Sw()) && r == RoiOf(b, g.ds, g.width, g.height, |moved|))
  {
    hide Scan, Mean, MovedCells, Tight, RoiOf;
    if g.jump > 0 && cur != [] { JumpIff(g, Mean(cur), st.mean); }
    var v := Scan(cur, st.grid, |cur|, g.Sw(), g.Sh(), g.thr);
    ScanIsTight(cur, st.grid, |cur|, g.Sw(), g.Sh(), g.thr);
    BoundsOrdered(cur, st.grid, g.Sw(), g.Sh(), g.thr);
    RoiFlags(Bounds(v.minx, v.miny, v.maxx, v.maxy), g.ds, g.width, g.height, v.cnt);
  }

  /** A frame it does not compare, or suppresses, it answers with nothing. */
  lemma HostSilent(st: HostState, g: Setting, watch: bool, cur: seq<byte>)
    requires g.Valid() && |cur| == g.Cells()
    requires |cur| != |st.grid| || (g.jump > 0 && watch && cur != []
               && (Mean(cur) - st.mean > g.jump as real || st.mean - Mean(cur) > g.jump as real))
    ensures HostStep(st, g, watch, cur).1 == Roi(false, 0, 0, 0, 0, 0)
  {
    hide Scan, Mean, RoiOfVerdict;
    if g.jump > 0 && cur != [] { JumpIff(g, Mean(cur), st.mean); }
  }

  /** The mean lies between the darkest and the brightest cell, and moves with every cell. */
  lemma MeanBetween(s: seq<byte>, lo: int, hi: int)
    requires s != [] && forall b | b in s :: lo <= b <= hi
    ensures lo as real <= Mean(s) <= hi as real
  {
    TotalBetween(s, lo, hi);
    Divided(lo, Total(s), hi, |s|);
  }

  lemma Divided(lo: int, total: int, hi: int, n: nat)
    requires n > 0 && lo * n <= total <= hi * n
    ensures lo as real <= total as real / n as real <= hi as real
  {
    assert (lo * n) as real == lo as real * n as real && (hi * n) as real == hi as real * n as real;
    assert total as real == (total as real / n as real) * n as real;
  }

  lemma {:induction false} TotalBetween(s: seq<int>, lo: int, hi: int)
    requires forall b | b in s :: lo <= b <= hi
    ensures lo * |s| <= Total(s) <= hi * |s|
  {
    if s != [] {
      assert Last(s) in s && forall b | b in Front(s) :: b in s;
      TotalBetween(Front(s), lo, hi);
      OneMoreTime(lo, |s|);
      OneMoreTime(hi, |s|);
    }
  }

  lemma OneMoreTime(v: int, n: nat)
    requires n > 0
    ensures v * n == v * (n - 1) + v
  {}

  /** One cell brighter by d raises the mean by d over the number of cells. */
  lemma MeanMoves(s: seq<byte>, i: nat, b: byte)
    requires i < |s|
    ensures Mean(s[i := b]) == Mean(s) + (b - s[i]) as real / |s| as real
  {
    TotalMoves(s, i, b);
    var n := |s| as real;
    assert (Total(s) + b - s[i]) as real / n == Total(s) as real / n + (b - s[i]) as real / n;
  }

  lemma {:induction false} TotalMoves(s: seq<int>, i: nat, b: int)
    requires i < |s|
    ensures Total(s[i := b]) == Total(s) + b - s[i]
  {
    if i < |s| - 1 {
      TotalMoves(Front(s), i, b);
      assert Front(s[i := b]) == Front(s)[i := b];
    } else {
      assert Front(s[i := b]) == Front(s);
    }
  }

  // ----- the fast gate answers as the plain one -----

  /** A frame: its size and its downsampled grid. The other settings stay the same throughout a stream. */
  datatype Shot = Shot(width: nat, height: nat, grid: seq<byte>)

  function For(g: Setting, s: Shot): Setting { g.(width := s.width, height := s.height) }

  predicate Fitting(g: Setting, shots: seq<Shot>) {
    g.Valid() && forall s | s in shots :: |s.grid| == For(g, s).Cells()
  }

  lemma FittingFront(g: Setting, shots: seq<Shot>)
    requires Fitting(g, shots) && shots != []
    ensures Fitting(g, Front(shots)) && |Last(shots).grid| == For(g, Last(shots)).Cells()
  {
    assert Last(shots) in shots;
    assert forall s | s in Front(shots) :: s in shots;
  }

  function HostAfter(g: Setting, watch: bool, shots: seq<Shot>): HostState
    requires Fitting(g, shots)
    decreases |shots|
  {
    if shots == [] then HostState([], 0.0)
    else
      FittingFront(g, shots);
      HostStep(HostAfter(g, watch, Front(shots)), For(g, Last(shots)), watch, Last(shots).grid).0
  }

  function DeviceAfter(g: Setting, shots: seq<Shot>): (st: DeviceState)
    requires Fitting(g, shots)
    ensures |st.cur| == |st.prev|
    decreases |shots|
  {
    if shots == [] then DeviceState([], [], false, None)
    else
      FittingFront(g, shots);
      DeviceStep(DeviceAfter(g, Front(shots)), For(g, Last(shots)), Last(shots).grid).0
  }

  /** The answers to the last frame of a stream started fresh. */
  function HostAnswer(g: Setting, watch: bool, shots: seq<Shot>): Roi
    requires Fitting(g, shots) && shots != []
  {
    FittingFront(g, shots);
    HostStep(HostAfter(g, watch, Front(shots)), For(g, Last(shots)), watch, Last(shots).grid).1
  }

  function DeviceAnswer(g: Setting, shots: seq<Shot>): Roi
    requires Fitting(g, shots) && shots != []
  {
    FittingFront(g, shots);
    DeviceStep(DeviceAfter(g, Front(shots)), For(g, Last(shots)), Last(shots).grid).1
  }

  /** The grid of the frame before the last, none at the start. */
  function GridBefore(shots: seq<Shot>): seq<byte>
    requires shots != []
  {
    if |shots| > 1 then shots[|shots| - 2].grid else []
  }

  /** The host compares the last frame with the one before: they have as many cells. */
  predicate HostCompares(shots: seq<Shot>)
    requires shots != []
  {
    |GridBefore(shots)| == |Last(shots).grid|
  }

  /** The last frame is suppressed: the mean jumped. */
  predicate Suppressed(g: Setting, shots: seq<Shot>)
    requires shots != []
  {
    && g.jump > 0 && |Last(shots).grid| > 0 && HostCompares(shots)
    && var mean, before := Mean(Last(shots).grid), Mean(GridBefore(shots));
      mean - before > g.jump as real || before - mean > g.jump as real
  }

  /** The grid the device compares the last frame with. */
  function DeviceAgainst(g: Setting, shots: seq<Shot>): (prev: seq<byte>)
    requires Fitting(g, shots) && shots != []
    ensures |prev| == |Last(shots).grid|
  {
    FittingFront(g, shots);
    Against(DeviceAfter(g, Front(shots)), Last(shots).grid)
  }

  /** Both gates keep the last frame, and its mean if they watch for jumps. */
  lemma Remembers(g: Setting, watch: bool, shots: seq<Shot>)
    requires Fitting(g, shots) && shots != []
    ensures var h, d, grid := HostAfter(g, watch, shots), DeviceAfter(g, shots), Last(shots).grid;
      && h.grid == grid && d.hasPrev && |grid| <= |d.prev| && d.prev[..|grid|] == grid
      && (g.jump > 0 && watch && |grid| > 0 ==> h.mean == Mean(grid) && d.mean == Some(Mean(grid)))
  {
    hide Scan, RoiOfVerdict, Mean;
    FittingFront(g, shots);
  }

  // ----- what the device's buffers hold, by the frames alone -----

  /** The most cells a frame had. */
  function Largest(shots: seq<Shot>): nat {
    if shots == [] then 0 else Max(Largest(Front(shots)), |Last(shots).grid|)
  }

  /** The last frame is the first or has more cells than any before: buffers are seeded with it. */
  predicate Seeds(shots: seq<Shot>)
    requires shots != []
  {
    |shots| == 1 || |Last(shots).grid| > Largest(Front(shots))
  }

  /** The buffer the last frame was put in: its cells, and after them what the buffer held before. */
  function Buffer(shots: seq<Shot>): (b: seq<byte>)
    requires shots != []
    ensures |b| == Largest(shots)
    decreases |shots|
  {
    var grid := Last(shots).grid;
    if Seeds(shots) then grid else grid + OtherBuffer(Front(shots))[|grid|..]
  }

  /** The other buffer: the one of the frame before, or, just seeded, the frame too. */
  function OtherBuffer(shots: seq<Shot>): (b: seq<byte>)
    requires shots != []
    ensures |b| == Largest(shots)
    decreases |shots|
  {
    if Seeds(shots) then Last(shots).grid else Buffer(Front(shots))
  }

  lemma {:induction false} BuffersHold(g: Setting, shots: seq<Shot>)
    requires Fitting(g, shots) && shots != []
    ensures var d := DeviceAfter(g, shots); d.prev == Buffer(shots) && d.cur == OtherBuffer(shots) && d.hasPrev
    decreases |shots|
  {
    hide Scan, RoiOfVerdict, Mean, JumpTest;
    FittingFront(g, shots);
    if |shots| == 1 {
      assert Front(shots) == [];
    } else {
      BuffersHold(g, Front(shots));
    }
  }

  /** What the last frame is compared with: itself if it seeds the buffers, else the front of the buffer of the frame
      before. */
  function ComparedWith(shots: seq<Shot>): (prev: seq<byte>)
    requires shots != []
    ensures |prev| == |Last(shots).grid|
  {
    if Seeds(shots) then Last(shots).grid else Buffer(Front(shots))[..|Last(shots).grid|]
  }

  lemma DeviceCompares(g: Setting, shots: seq<Shot>)
    requires Fitting(g, shots) && shots != []
    ensures DeviceAgainst(g, shots) == ComparedWith(shots)
  {
    hide Buffer, OtherBuffer, DeviceStep;
    FittingFront(g, shots);
    if |shots| == 1 { assert Front(shots) == []; } else { BuffersHold(g, Front(shots)); }
  }

  /** With no more cells than the frame before, a frame is compared with that many of its cells: the whole of it if they
      have as many, a stale front of it if there are fewer. */
  lemma ComparesFront(g: Setting, shots: seq<Shot>)
    requires Fitting(g, shots) && |shots| > 1 && |Last(shots).grid| <= |GridBefore(shots)|
    ensures DeviceAgainst(g, shots) == GridBefore(shots)[..|Last(shots).grid|]
  {
    hide OtherBuffer;
    DeviceCompares(g, shots);
    assert Last(Front(shots)).grid == GridBefore(shots);
  }

  /** With more cells than any frame before, or at the start, it is compared with itself. */
  lemma ComparesItself(g: Setting, shots: seq<Shot>)
    requires Fitting(g, shots) && shots != []
    requires |shots| == 1 || |Last(shots).grid| > Largest(Front(shots))
    ensures DeviceAgainst(g, shots) == Last(shots).grid
  {
    hide Buffer, OtherBuffer;
    DeviceCompares(g, shots);
  }

  /** Between the two, it is compared with the frame before, followed by the rest of an older buffer. */
  lemma PastFront(shots: seq<Shot>)
    requires |shots| > 1 && |GridBefore(shots)| < |Last(shots).grid| <= Largest(Front(shots))
    ensures |shots| > 2 && Largest(Front(Front(shots))) == Largest(Front(shots))
    ensures var before := GridBefore(shots);
      ComparedWith(shots) == (before + OtherBuffer(Front(Front(shots)))[|before|..])[..|Last(shots).grid|]
  {
    hide OtherBuffer;
    var front := Front(shots);
    assert Last(front).grid == GridBefore(shots);
    if Seeds(front) { SeedIsLargest(front); }
  }

  /** A frame before the one before the last has this cell. */
  ghost predicate InOlder(shots: seq<Shot>, c: nat, v: byte) {
    exists j :: 0 <= j < |shots| - 2 && c < |shots[j].grid| && v == shots[j].grid[c]
  }

  lemma OlderCell(shots: seq<Shot>, c: nat)
    requires |shots| > 1 && |GridBefore(shots)| <= c < |Last(shots).grid| <= Largest(Front(shots))
    ensures InOlder(shots, c, ComparedWith(shots)[c])
  {
    hide OtherBuffer, Largest, ComparedWith;
    PastFront(shots);
    var older := Front(Front(shots));
    var j := CellSource(older, c, true);
    assert older[j] == shots[j] && |older| == |shots| - 2;
  }

  /** With more cells than the frame before but not than every one, it is compared with that frame and, after it, cells
      of frames older than that. */
  lemma ComparesOlder(g: Setting, shots: seq<Shot>)
    requires Fitting(g, shots) && |shots| > 1 && |GridBefore(shots)| < |Last(shots).grid| <= Largest(Front(shots))
    ensures var prev, before := DeviceAgainst(g, shots), GridBefore(shots);
      && prev[..|before|] == before
      && forall c: nat | |before| <= c < |prev| :: InOlder(shots, c, prev[c])
  {
    hide OtherBuffer, Largest, ComparedWith, DeviceAgainst, InOlder, Fitting, Front, Last;
    DeviceCompares(g, shots);
    BeginsWithBefore(shots);
    var prev, before := DeviceAgainst(g, shots), GridBefore(shots);
    forall c: nat | |before| <= c < |prev| ensures InOlder(shots, c, prev[c]) { OlderCell(shots, c); }
  }

  lemma BeginsWithBefore(shots: seq<Shot>)
    requires |shots| > 1 && |GridBefore(shots)| < |Last(shots).grid| <= Largest(Front(shots))
    ensures ComparedWith(shots)[..|GridBefore(shots)|] == GridBefore(shots)
  {
    hide OtherBuffer, Largest, ComparedWith;
    PastFront(shots);
  }

  lemma SeedIsLargest(shots: seq<Shot>)
    requires shots != [] && Seeds(shots)
    ensures |Last(shots).grid| == Largest(shots)
  {
    if |shots| == 1 { assert Front(shots) == []; }
  }

  /** Every cell of a buffer comes from some frame. */
  lemma {:induction false} CellSource(shots: seq<Shot>, c: nat, other: bool) returns (j: nat)
    requires shots != [] && c < Largest(shots)
    ensures j < |shots| && c < |shots[j].grid|
    ensures (if other then OtherBuffer(shots) else Buffer(shots))[c] == shots[j].grid[c]
    decreases |shots|
  {
    hide Largest;
    if c < |Last(shots).grid| && (Seeds(shots) || !other) {
      j := |shots| - 1;
    } else {
      SeedsUnless(shots, c);
      j := CellSource(Front(shots), c, !other);
    }
  }

  /** A cell past a frame's own lies in buffers that frame did not seed. */
  lemma SeedsUnless(shots: seq<Shot>, c: nat)
    requires shots != [] && c < Largest(shots) && (c >= |Last(shots).grid| || !Seeds(shots))
    ensures !Seeds(shots) && Front(shots) != [] && c < Largest(Front(shots)) == Largest(shots)
  {
    if Seeds(shots) { SeedIsLargest(shots); }
  }

  /** Compared with itself a frame has no changed cell, or, under a negative threshold, only changed ones. */
  lemma MovedSelf(grid: seq<byte>, thr: int)
    ensures MovedCells(grid, grid, |grid|, thr) == {} <==> thr >= 0 || grid == []
  {
    if thr < 0 && grid != [] { assert 0 in MovedCells(grid, grid, |grid|, thr); }
  }

  /** A verdict of no moved cell answers nothing; one of some moved cells never does. */
  lemma NothingIff(g: Setting, cur: seq<byte>, prev: seq<byte>)
    requires g.Valid() && |cur| == |prev| == g.Cells()
    ensures var v := Scan(cur, prev, |cur|, g.Sw(), g.Sh(), g.thr);
      && (v.cnt == 0 <==> MovedCells(cur, prev, |cur|, g.thr) == {})
      && (RoiOfVerdict(v, g) == NO_ROI <==> v.cnt == 0)
  {
    hide Scan, RoiOf, MovedCells;
    var v := Scan(cur, prev, |cur|, g.Sw(), g.Sh(), g.thr);
    ScanIsTight(cur, prev, |cur|, g.Sw(), g.Sh(), g.thr);
    BoundsOrdered(cur, prev, g.Sw(), g.Sh(), g.thr);
    RoiFlags(Bounds(v.minx, v.miny, v.maxx, v.maxy), g.ds, g.width, g.height, v.cnt);
  }

  /** One frame, from states that remember the same frame: when the answers are the same. */
  lemma StepsEqualIff(h: HostState, d: DeviceState, g: Setting, watch: bool, grid: seq<byte>)
    requires g.Valid() && |grid| == g.Cells() && |d.cur| == |d.prev| && (g.jump > 0 ==> watch)
    requires |h.grid| == |grid| > 0 ==> Against(d, grid) == h.grid && (g.jump > 0 ==> Seeded(d, grid).mean == Some(h.mean))
    ensures HostStep(h, g, watch, grid).1 == DeviceStep(d, g, grid).1 <==>
            || (|h.grid| == |grid| && !(g.jump > 0 && grid != [] && JumpTest(g, Mean(grid), h.mean)))
            || MovedCells(grid, Against(d, grid), |grid|, g.thr) == {}
  {
    hide Scan, Mean, RoiOfVerdict, MovedCells, Seeded, JumpTest, Against;
    NothingIff(g, grid, Against(d, grid));
    if grid == [] {
      assert Against(d, grid) == [] && (|h.grid| == |grid| ==> h.grid == []);
    }
  }

  /** On every frame of every stream, of whatever sizes, the device gate and the host gate that watches the mean answer
      the same if and only if the host compares the frame and does not suppress it, or no cell moved against what the
      device compares it with. */
  lemma GatesEqualIff(g: Setting, watch: bool, shots: seq<Shot>)
    requires Fitting(g, shots) && shots != [] && (g.jump > 0 ==> watch)
    ensures HostAnswer(g, watch, shots) == DeviceAnswer(g, shots) <==>
            || (HostCompares(shots) && !Suppressed(g, shots))
            || MovedCells(Last(shots).grid, ComparedWith(shots), |Last(shots).grid|, g.thr) == {}
  {
    hide HostStep, DeviceStep, Mean, MovedCells, Seeded, JumpTest, Against, ComparedWith, Suppressed;
    FittingFront(g, shots);
    SuppressedIff(g, shots);
    DeviceCompares(g, shots);
    StatesAgree(g, watch, shots);
    StepsEqualIff(HostAfter(g, watch, Front(shots)), DeviceAfter(g, Front(shots)), For(g, Last(shots)), watch, Last(shots).grid);
    SameJumpTest(g, Last(shots));
  }

  /** The frame is suppressed when the gates' own test says so. */
  lemma SuppressedIff(g: Setting, shots: seq<Shot>)
    requires shots != []
    ensures Suppressed(g, shots) <==>
      && g.jump > 0 && |Last(shots).grid| > 0 && HostCompares(shots)
      && JumpTest(g, Mean(Last(shots).grid), Mean(GridBefore(shots)))
  {
    hide Mean;
    if Last(shots).grid != [] && GridBefore(shots) != [] { JumpIff(g, Mean(Last(shots).grid), Mean(GridBefore(shots))); }
  }

  lemma SameJumpTest(g: Setting, s: Shot)
    ensures forall a, b :: JumpTest(For(g, s), a, b) == JumpTest(g, a, b)
  {}

  /** Before each frame both gates remember the frame before. */
  lemma StatesAgree(g: Setting, watch: bool, shots: seq<Shot>)
    requires Fitting(g, shots) && shots != [] && (g.jump > 0 ==> watch)
    ensures Fitting(g, Front(shots))
    ensures var h, d, grid, before := HostAfter(g, watch, Front(shots)), DeviceAfter(g, Front(shots)), Last(shots).grid, GridBefore(shots);
      && h.grid == before
      && (|before| == |grid| > 0 ==> Against(d, grid) == before
                                     && (g.jump > 0 ==> h.mean == Mean(before) && Seeded(d, grid).mean == Some(h.mean)))
  {
    hide HostStep, DeviceStep, Mean, Seeded;
    FittingFront(g, shots);
    if |shots| == 1 {
      assert Front(shots) == [];
    } else {
      assert Last(Front(shots)).grid == GridBefore(shots);
      Remembers(g, watch, Front(shots));
      if |GridBefore(shots)| == |Last(shots).grid| {
        ComparesFront(g, shots);
        assert GridBefore(shots)[..|Last(shots).grid|] == GridBefore(shots);
        SeededMean(DeviceAfter(g, Front(shots)), Last(shots).grid);
      }
    }
  }

  lemma SeededMean(st: DeviceState, grid: seq<byte>)
    requires |st.cur| == |st.prev| && |grid| <= |st.prev|
    ensures Seeded(st, grid).mean == st.mean
  {}

  predicate OneGeometry(shots: seq<Shot>) {
    forall i, j | 0 <= i < |shots| && 0 <= j < |shots| :: shots[i].width == shots[j].width && shots[i].height == shots[j].height
  }

  /** Frames of one size: the answers are the same if and only if it is not the first frame, or the threshold is not
      negative, or there is no cell, and no cell moved if the frame is suppressed. */
  lemma SameSizeEqualIff(g: Setting, watch: bool, shots: seq<Shot>)
    requires Fitting(g, shots) && shots != [] && OneGeometry(shots) && (g.jump > 0 ==> watch)
    ensures HostAnswer(g, watch, shots) == DeviceAnswer(g, shots) <==>
            && (|shots| > 1 || g.thr >= 0 || Last(shots).grid == [])
            && (Suppressed(g, shots) ==> MovedCells(Last(shots).grid, GridBefore(shots), |Last(shots).grid|, g.thr) == {})
  {
    hide HostAnswer, DeviceAnswer, JumpTest, Mean, MovedCells, DeviceAgainst, ComparedWith;
    GatesEqualIff(g, watch, shots);
    DeviceCompares(g, shots);
    if |shots| == 1 {
      ComparesItself(g, shots);
      MovedSelf(Last(shots).grid, g.thr);
    } else {
      SameCells(g, shots);
      ComparesFront(g, shots);
      assert GridBefore(shots)[..|Last(shots).grid|] == GridBefore(shots);
    }
  }

  lemma SameCells(g: Setting, shots: seq<Shot>)
    requires Fitting(g, shots) && |shots| > 1 && OneGeometry(shots)
    ensures HostCompares(shots)
  {
    var a, b := shots[|shots| - 2], shots[|shots| - 1];
    assert a in shots && b in shots;
  }

  /** They agree: on everything, or on a suppressed frame on everything but the changed count. */
  predicate Agree(g: Setting, watch: bool, shots: seq<Shot>)
    requires Fitting(g, shots) && shots != []
  {
    var h, d := HostAnswer(g, watch, shots), DeviceAnswer(g, shots);
    if Suppressed(g, shots) then h == d.(changed := 0) && !d.active else h == d
  }

  /** So for frames of one size they agree on motion and box on every frame, and on the changed count on every frame not
      suppressed, but for the first frame under a negative threshold: the host sees nothing, the device everything. */
  lemma GatesAgreeIff(g: Setting, watch: bool, shots: seq<Shot>)
    requires Fitting(g, shots) && shots != [] && OneGeometry(shots) && (g.jump > 0 ==> watch)
    ensures Agree(g, watch, shots) <==> |shots| > 1 || g.thr >= 0 || Last(shots).grid == []
  {
    hide JumpTest, Mean, MovedCells, DeviceAgainst, HostAnswer, DeviceAnswer;
    SameSizeEqualIff(g, watch, shots);
    if Suppressed(g, shots) { SuppressedQuiet(g, watch, shots); }
  }

  /** On a suppressed frame neither sees motion, and the device still counts. */
  lemma SuppressedQuiet(g: Setting, watch: bool, shots: seq<Shot>)
    requires Fitting(g, shots) && shots != [] && (g.jump > 0 ==> watch) && Suppressed(g, shots)
    ensures HostAnswer(g, watch, shots) == NO_ROI
    ensures DeviceAnswer(g, shots) == NO_ROI.(changed := DeviceAnswer(g, shots).changed)
  {
    hide JumpTest, Mean, Scan, RoiOfVerdict, Seeded, Against, HostAfter, DeviceAfter, Suppressed;
    SuppressedIff(g, shots);
    StatesAgree(g, watch, shots);
    SameJumpTest(g, Last(shots));
  }

  // ----- streams on which they differ -----

  /** A suppressed frame: one cell jumps from black to white. The device reports one changed cell, the host none. */
  lemma SuppressedDiffers()
    ensures var g, shots := Setting(1, 1, 1, 10, 1, 5), [Shot(1, 1, [0]), Shot(1, 1, [255])];
      && Fitting(g, shots) && OneGeometry(shots) && Suppressed(g, shots)
      && HostAnswer(g, true, shots) != DeviceAnswer(g, shots)
  {
    var g, shots := Setting(1, 1, 1, 10, 1, 5), [Shot(1, 1, [0]), Shot(1, 1, [255])];
    TotalOfOne(0);
    TotalOfOne(255);
    assert 0 in MovedCells([255], [0], 1, 10);
    SameSizeEqualIff(g, true, shots);
  }

  lemma TotalOfOne(b: byte)
    ensures Mean([b]) == b as real
  {
    var s: seq<int> := [b];
    assert Front(s) == [] && Total(s) == b as int;
    assert (b as int) as real / 1.0 == b as real;
  }

  /** A smaller frame: the device compares its one cell with the first of the two before it, the host with nothing. */
  lemma SmallerDiffers()
    ensures var g, shots := Setting(2, 1, 1, 10, 1, 0), [Shot(2, 1, [0, 0]), Shot(1, 1, [255])];
      Fitting(g, shots) && !HostCompares(shots) && HostAnswer(g, true, shots) != DeviceAnswer(g, shots)
  {
    var g, shots := Setting(2, 1, 1, 10, 1, 0), [Shot(2, 1, [0, 0]), Shot(1, 1, [255])];
    ComparesFront(g, shots);
    assert 0 in MovedCells([255], [0, 0][..1], 1, 10);
    DeviceCompares(g, shots);
    GatesEqualIff(g, true, shots);
  }

  // ----- VAAPI's scan in place -----

  datatype GridMotion = GridMotion(active: bool, x0: int, y0: int, x1: int, y1: int, changed: int)

  const NO_MOTION := GridMotion(false, 0, 0, 0, 0, 0)

  /** Cell i of row j in a picture whose rows are `stride` apart. */
  function Pixel(i: nat, j: nat, stride: nat): nat { j * stride + i }

  predicate Fits(cur: seq<byte>, stride: nat, gw: nat, gh: nat) {
    gw <= stride && (gh > 0 && gw > 0 ==> Pixel(gw - 1, gh - 1, stride) < |cur|)
  }

  lemma PixelFits(cur: seq<byte>, stride: nat, gw: nat, gh: nat, i: nat, j: nat)
    requires Fits(cur, stride, gw, gh) && i < gw && j < gh
    ensures Pixel(i, j, stride) < |cur|
  {
    assert (gh - 1 - j) * stride >= 0;
    assert (gh - 1) * stride == j * stride + (gh - 1 - j) * stride;
  }

  function CellPixel(cur: seq<byte>, stride: nat, gw: nat, gh: nat, c: nat): byte
    requires Fits(cur, stride, gw, gh) && gw > 0 && c < gw * gh
  {
    RowInGrid(c, gw, gh);
    PixelFits(cur, stride, gw, gh, Col(c, gw), Row(c, gw));
    cur[Pixel(Col(c, gw), Row(c, gw), stride)]
  }

  /** The picture's cells, row by row, the padding left out. */
  function Plane(cur: seq<byte>, stride: nat, gw: nat, gh: nat): (plane: seq<byte>)
    requires Fits(cur, stride, gw, gh)
    ensures |plane| == gw * gh
    ensures forall c | 0 <= c < gw * gh :: gw > 0 && plane[c] == CellPixel(cur, stride, gw, gh, c)
  {
    if gw == 0 then []
    else seq(gw * gh, c requires 0 <= c < gw * gh => CellPixel(cur, stride, gw, gh, c))
  }

  lemma PlaneAt(cur: seq<byte>, stride: nat, gw: nat, gh: nat, i: nat, j: nat)
    requires Fits(cur, stride, gw, gh) && i < gw && j < gh
    ensures Cell(i, j, gw) < gw * gh && Pixel(i, j, stride) < |cur|
    ensures Plane(cur, stride, gw, gh)[Cell(i, j, gw)] == cur[Pixel(i, j, stride)]
  {
    CellInGrid(i, j, gw, gh);
    CellParts(i, j, gw);
    PixelFits(cur, stride, gw, gh, i, j);
  }

  /** The answer on the plane, against the grid kept from the frame before. */
  function VaapiAnswer(prev: seq<byte>, plane: seq<byte>, gw: nat, gh: nat, thr: int, minCells: int): GridMotion
    requires |plane| == gw * gh
  {
    if |prev| != gw * gh then NO_MOTION
    else
      var v := Scan(plane, prev, |plane|, gw, gh, thr);
      if v.cnt >= minCells && v.maxx >= 0 then GridMotion(true, v.minx, v.miny, v.maxx, v.maxy, v.cnt)
      else NO_MOTION.(changed := v.cnt)
  }

  class VaapiGrid {
    var prev: array<byte>

    constructor ()
      ensures fresh(prev) && prev[..] == []
    {
      prev := new byte[0];
    }

    /** The scan overwrites each cell it has just compared. */
    method GridDiffBbox(cur: seq<byte>, stride: nat, gw: nat, gh: nat, thr: int, minCells: int) returns (m: GridMotion)
      requires Fits(cur, stride, gw, gh)
      modifies this, prev
      ensures prev[..] == Plane(cur, stride, gw, gh) && (prev == old(prev) || fresh(prev))
      ensures m == VaapiAnswer(old(prev[..]), Plane(cur, stride, gw, gh), gw, gh, thr, minCells)
    {
      hide Scan, Cell, Pixel, Plane, Fits;
      if prev.Length != gw * gh {
        prev := new byte[gw * gh];
        Prime(cur, stride, gw, gh, prev);
        return NO_MOTION;
      }
      var v := Rescan(cur, stride, gw, gh, thr, prev);
      m := if v.cnt >= minCells && v.maxx >= 0 then GridMotion(true, v.minx, v.miny, v.maxx, v.maxy, v.cnt)
           else NO_MOTION.(changed := v.cnt);
    }
  }

  /** The first frame is only copied. */
  method Prime(cur: seq<byte>, stride: nat, gw: nat, gh: nat, prev: array<byte>)
    requires Fits(cur, stride, gw, gh) && prev.Length == gw * gh
    modifies prev
    ensures prev[..] == Plane(cur, stride, gw, gh)
  {
    hide Cell, Pixel, Plane, Fits;
    ghost var plane := Plane(cur, stride, gw, gh);
    var j := 0;
    CellSteps(0, 0, gw);
    while j < gh
      invariant 0 <= j <= gh && Cell(0, j, gw) <= gw * gh && prev[..Cell(0, j, gw)] == plane[..Cell(0, j, gw)]
    {
      var i := 0;
      while i < gw
        invariant 0 <= i <= gw && Cell(i, j, gw) <= gw * gh && prev[..Cell(i, j, gw)] == plane[..Cell(i, j, gw)]
      {
        CellSteps(i, j, gw);
        PlaneAt(cur, stride, gw, gh, i, j);
        prev[Cell(i, j, gw)] := cur[Pixel(i, j, stride)];
        i := i + 1;
      }
      CellSteps(0, j, gw);
      j := j + 1;
    }
    CellSteps(0, gh, gw);
  }

  method Rescan(cur: seq<byte>, stride: nat, gw: nat, gh: nat, thr: int, prev: array<byte>) returns (v: Verdict)
    requires Fits(cur, stride, gw, gh) && prev.Length == gw * gh
    modifies prev
    ensures prev[..] == Plane(cur, stride, gw, gh)
    ensures v == Scan(Plane(cur, stride, gw, gh), old(prev[..]), gw * gh, gw, gh, thr).(sum := 0)
  {
    hide Cell, Pixel, Plane, Fits, Col, Row, Scan, Rescanned, Fresh;
    ghost var plane, was := Plane(cur, stride, gw, gh), prev[..];
    v := Fresh(gw, gh);
    var j := 0;
    CellSteps(0, 0, gw);
    NoneRescanned(plane, was, gw, gh, thr);
    while j < gh
      invariant 0 <= j <= gh && Cell(0, j, gw) <= gw * gh
      invariant Rescanned(prev[..], v, plane, was, Cell(0, j, gw), gw, gh, thr)
    {
      var i := 0;
      while i < gw
        invariant 0 <= i <= gw && Cell(i, j, gw) <= gw * gh
        invariant Rescanned(prev[..], v, plane, was, Cell(i, j, gw), gw, gh, thr)
      {
        CellSteps(i, j, gw);
        CellParts(i, j, gw);
        PlaneAt(cur, stride, gw, gh, i, j);
        v := RescanCell(cur[Pixel(i, j, stride)], prev, Cell(i, j, gw), i, j, v, gw, gh, thr, plane, was);
        i := i + 1;
      }
      CellSteps(0, j, gw);
      j := j + 1;
    }
    CellSteps(0, gh, gw);
    AllRescanned(prev[..], v, plane, was, gw, gh, thr);
  }

  /** k cells are compared and overwritten. */
  ghost predicate Rescanned(now: seq<byte>, v: Verdict, plane: seq<byte>, was: seq<byte>, k: nat, gw: nat, gh: nat,
                            thr: int)
    requires k <= |plane| == |was| && (k > 0 ==> gw > 0)
  {
    now == plane[..k] + was[k..] && v == Scan(plane, was, k, gw, gh, thr).(sum := 0)
  }

  lemma NoneRescanned(plane: seq<byte>, was: seq<byte>, gw: nat, gh: nat, thr: int)
    requires |plane| == |was|
    ensures Rescanned(was, Fresh(gw, gh), plane, was, 0, gw, gh, thr)
  {}

  lemma AllRescanned(now: seq<byte>, v: Verdict, plane: seq<byte>, was: seq<byte>, gw: nat, gh: nat, thr: int)
    requires |plane| == |was| && (|plane| > 0 ==> gw > 0) && Rescanned(now, v, plane, was, |plane|, gw, gh, thr)
    ensures now == plane && v == Scan(plane, was, |plane|, gw, gh, thr).(sum := 0)
  {}

  /** Compare one cell with the frame before, then overwrite it. */
  method RescanCell(c: byte, prev: array<byte>, k: nat, i: nat, j: nat, v: Verdict, gw: nat, gh: nat, thr: int,
                    ghost plane: seq<byte>, ghost was: seq<byte>) returns (w: Verdict)
    requires gw > 0 && k < |plane| == |was| == prev.Length && Rescanned(prev[..], v, plane, was, k, gw, gh, thr)
    requires c == plane[k] && Col(k, gw) == i && Row(k, gw) == j
    modifies prev
    ensures Rescanned(prev[..], w, plane, was, k + 1, gw, gh, thr)
  {
    hide Col, Row;
    w := v;
    assert prev[..][k] == was[k];
    if Moved(c, prev[k], thr) {
      w := v.(cnt := v.cnt + 1, minx := Min(v.minx, i), miny := Min(v.miny, j), maxx := Max(v.maxx, i),
              maxy := Max(v.maxy, j));
    }
    prev[k] := c;
  }

  /** VAAPI and the host, given the same grids and the host no place to keep a mean, agree on whether there is motion, on
      the changed cells and on the box. */
  lemma VaapiAgrees(g: Setting, prev: seq<byte>, plane: seq<byte>, mean: real)
    requires g.Valid() && |plane| == g.Cells()
    ensures var h := HostStep(HostState(prev, mean), g, false, plane).1;
      var m := VaapiAnswer(prev, plane, g.Sw(), g.Sh(), g.thr, g.minChanged);
      && h.active == m.active && h.changed == m.changed
      && (h.active ==> h == RoiOf(Bounds(m.x0, m.y0, m.x1, m.y1), g.ds, g.width, g.height, m.changed))
  {
    hide Scan, RoiOf;
    var v := VaapiAnswer(prev, plane, g.Sw(), g.Sh(), g.thr, g.minChanged);
    RoiFlags(Bounds(v.x0, v.y0, v.x1, v.y1), g.ds, g.width, g.height, v.changed);
    if |prev| == |plane| { BoundsOrdered(plane, prev, g.Sw(), g.Sh(), g.thr); }
  }
}
