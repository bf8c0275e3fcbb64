/** The flood fill of the motion regions: the mask is rewritten in place with an explicit stack, and each fill must
    mark exactly one 4-connected component of the changed cells. */
module FloodFills {
  import opened Common
  import opened Grids
  import opened Rois

  /** Side by side, in one row or one column. */
  predicate Adjacent(c: nat, d: nat, sw: nat)
    requires sw > 0
  {
    || (Row(c, sw) == Row(d, sw) && (Col(d, sw) == Col(c, sw) + 1 || Col(c, sw) == Col(d, sw) + 1))
    || (Col(c, sw) == Col(d, sw) && (Row(d, sw) == Row(c, sw) + 1 || Row(c, sw) == Row(d, sw) + 1))
  }

  // ----- connected components -----

  /** A walk over changed cells, each step to a neighbour. */
  ghost predicate Path(p: seq<nat>, on: set<nat>, sw: nat)
    requires sw > 0
  {
    p != [] && (forall k | 0 <= k < |p| :: p[k] in on) && forall k | 0 < k < |p| :: Adjacent(p[k - 1], p[k], sw)
  }

  ghost predicate Connected(a: nat, b: nat, on: set<nat>, sw: nat)
    requires sw > 0
  {
    exists p: seq<nat> :: Path(p, on, sw) && p[0] == a && Last(p) == b
  }

  ghost function Component(a: nat, on: set<nat>, sw: nat): set<nat>
    requires sw > 0
  {
    set c | c in on && Connected(a, c, on, sw)
  }

  lemma Self(a: nat, on: set<nat>, sw: nat)
    requires sw > 0 && a in on
    ensures Connected(a, a, on, sw)
  {
    assert Path([a], on, sw) && Last([a]) == a;
  }

  lemma Extend(a: nat, c: nat, d: nat, on: set<nat>, sw: nat)
    requires sw > 0 && Connected(a, c, on, sw) && d in on && Adjacent(c, d, sw)
    ensures Connected(a, d, on, sw)
  {
    var p: seq<nat> :| Path(p, on, sw) && p[0] == a && Last(p) == c;
    var q := p + [d];
    assert Path(q, on, sw) && q[0] == a && Last(q) == d;
  }

  lemma {:induction false} Symmetric(a: nat, b: nat, on: set<nat>, sw: nat)
    requires sw > 0 && Connected(a, b, on, sw)
    ensures Connected(b, a, on, sw)
  {
    var p: seq<nat> :| Path(p, on, sw) && p[0] == a && Last(p) == b;
    var q: seq<nat> := seq(|p|, k requires 0 <= k < |p| => p[|p| - 1 - k]);
    forall k | 0 < k < |q| ensures Adjacent(q[k - 1], q[k], sw) {
      assert Adjacent(p[|p| - 1 - k], p[|p| - k], sw);
    }
    assert Path(q, on, sw) && q[0] == b && Last(q) == a;
  }

  lemma Transitive(a: nat, b: nat, c: nat, on: set<nat>, sw: nat)
    requires sw > 0 && Connected(a, b, on, sw) && Connected(b, c, on, sw)
    ensures Connected(a, c, on, sw)
  {
    var p: seq<nat> :| Path(p, on, sw) && p[0] == a && Last(p) == b;
    var q: seq<nat> :| Path(q, on, sw) && q[0] == b && Last(q) == c;
    var r := p + q[1..];
    forall k | 0 < k < |r| ensures Adjacent(r[k - 1], r[k], sw) {
      if k < |p| {
      } else {
        assert r[k] == q[k - |p| + 1] && r[k - 1] == q[k - |p|];
      }
    }
    assert Last(r) == c;
    assert Path(r, on, sw) && r[0] == a;
  }

  /** Components partition the changed cells. */
  lemma ComponentsPartition(a: nat, b: nat, on: set<nat>, sw: nat)
    requires sw > 0 && a in on && b in on
    ensures a in Component(a, on, sw)
    ensures Component(a, on, sw) == Component(b, on, sw) || Component(a, on, sw) !! Component(b, on, sw)
    ensures b in Component(a, on, sw) <==> Component(a, on, sw) == Component(b, on, sw)
  {
    Self(a, on, sw); Self(b, on, sw);
    var ca, cb := Component(a, on, sw), Component(b, on, sw);
    if c: nat :| c in ca && c in cb {
      Symmetric(b, c, on, sw);
      Transitive(a, c, b, on, sw);
      Symmetric(a, b, on, sw);
      forall x: nat ensures x in ca <==> x in cb {
        if x in ca { Transitive(b, a, x, on, sw); }
        if x in cb { Transitive(a, b, x, on, sw); }
      }
      assert ca == cb;
    }
  }

  /** A set with the seed that no neighbour leaves holds the whole component. */
  lemma Closed(a: nat, marked: set<nat>, on: set<nat>, sw: nat)
    requires sw > 0 && a in marked
    requires forall c, d | c in marked && d in on && Adjacent(c, d, sw) :: d in marked
    ensures Component(a, on, sw) <= marked
  {
    forall c | c in Component(a, on, sw) ensures c in marked {
      var p: seq<nat> :| Path(p, on, sw) && p[0] == a && Last(p) == c;
      var k := 0;
      while k < |p| - 1
        invariant 0 <= k < |p| && p[k] in marked
      {
        k := k + 1;
        assert Adjacent(p[k - 1], p[k], sw);
      }
    }
  }

  // ----- one fill -----

  /** The k-th neighbour in the order tried: right, left, below, above; none off the grid. */
  function Beside(c: nat, k: nat, sw: nat, sh: nat): (m: Option<nat>)
    requires sw > 0 && k < 4
  {
    var ni := Col(c, sw) + (if k == 0 then 1 else if k == 1 then -1 else 0);
    var nj := Row(c, sw) + (if k == 2 then 1 else if k == 3 then -1 else 0);
    if ni < 0 || nj < 0 || ni >= sw || nj >= sh then None else Some(Cell(ni, nj, sw))
  }

  lemma BesideIsAdjacent(c: nat, k: nat, sw: nat, sh: nat)
    requires sw > 0 && k < 4 && Beside(c, k, sw, sh).Some?
    ensures var m := Beside(c, k, sw, sh).value; m < sw * sh && Adjacent(c, m, sw)
  {
    hide Col, Row, Cell;
    var ni := Col(c, sw) + (if k == 0 then 1 else if k == 1 then -1 else 0);
    var nj := Row(c, sw) + (if k == 2 then 1 else if k == 3 then -1 else 0);
    CellParts(ni, nj, sw);
    CellInGrid(ni, nj, sw, sh);
  }

  lemma AdjacentIsBeside(c: nat, m: nat, sw: nat, sh: nat)
    requires sw > 0 && c < sw * sh && m < sw * sh && Adjacent(c, m, sw)
    ensures exists k: nat | k < 4 :: Beside(c, k, sw, sh) == Some(m)
  {
    hide Cell, Row;
    CellWhole(m, sw);
    RowInGrid(m, sw, sh);
    assert Col(m, sw) < sw;
    var k := if Row(c, sw) == Row(m, sw) && Col(m, sw) == Col(c, sw) + 1 then 0
             else if Row(c, sw) == Row(m, sw) && Col(c, sw) == Col(m, sw) + 1 then 1
             else if Row(m, sw) == Row(c, sw) + 1 then 2 else 3;
    assert Beside(c, k, sw, sh) == Some(m);
  }

  /** 2 on the marked cells, 1 on the other changed ones, 0 elsewhere. */
  ghost predicate MaskIs(mask: seq<byte>, on: set<nat>, marked: set<nat>) {
    && marked <= on && (forall c | c in on :: c < |mask|)
    && forall c | 0 <= c < |mask| :: mask[c] == if c in marked then 2 else if c in on then 1 else 0
  }

  ghost predicate Distinct(s: seq<nat>) {
    forall i, j | 0 <= i < j < |s| :: s[i] != s[j]
  }

  ghost function Elems(s: seq<nat>): set<nat> { set c | c in s }

  /** What a neighbour loop started on `before` has pushed and marked so far. */
  ghost predicate Spreading(mask: seq<byte>, on: set<nat>, marked: set<nat>, before: seq<nat>, stack: seq<nat>,
                            pushed: set<nat>)
  {
    && pushed !! marked && MaskIs(mask, on, marked + pushed)
    && Distinct(stack) && Elems(stack) == Elems(before) + pushed && |stack| == |before| + |pushed|
  }

  lemma PushOne(mask: seq<byte>, on: set<nat>, marked: set<nat>, before: seq<nat>, stack: seq<nat>, pushed: set<nat>,
                m: nat)
    requires Spreading(mask, on, marked, before, stack, pushed) && Elems(before) <= marked
    requires m < |mask|
    ensures mask[m] == 1 <==> m in on && m !in marked + pushed
    ensures mask[m] == 1 ==> Spreading(mask[m := 2], on, marked, before, stack + [m], pushed + {m})
  {
    hide Distinct, Elems;
    if mask[m] == 1 {
      MarkOne(mask, on, marked + pushed, m);
      assert marked + pushed + {m} == marked + (pushed + {m});
      PushDistinct(stack, m);
    }
  }

  lemma MarkOne(mask: seq<byte>, on: set<nat>, marked: set<nat>, m: nat)
    requires MaskIs(mask, on, marked) && m < |mask| && mask[m] == 1
    ensures MaskIs(mask[m := 2], on, marked + {m}) && m !in marked
  {}

  lemma PushDistinct(stack: seq<nat>, m: nat)
    requires Distinct(stack) && m !in Elems(stack)
    ensures Distinct(stack + [m]) && Elems(stack + [m]) == Elems(stack) + {m}
  {}

  /** Push every changed neighbour of c not yet marked, marking it. */
  method Spread(mask: array<byte>, sw: nat, sh: nat, c: nat, before: seq<nat>, ghost on: set<nat>, ghost marked: set<nat>)
    returns (stack: seq<nat>, ghost pushed: set<nat>)
    requires sw > 0 && mask.Length == sw * sh && c < mask.Length
    requires Spreading(mask[..], on, marked, before, before, {}) && Elems(before) <= marked
    modifies mask
    ensures Spreading(mask[..], on, marked, before, stack, pushed)
    ensures forall m | m in on && Adjacent(c, m, sw) :: m in marked + pushed
    ensures forall m | m in pushed :: m in on && Adjacent(c, m, sw)
  {
    hide Col, Row, Cell, Beside, Adjacent, Spreading;
    stack, pushed := before, {};
    var k := 0;
    while k < 4
      invariant 0 <= k <= 4
      invariant Spreading(mask[..], on, marked, before, stack, pushed)
      invariant forall e: nat | e < k && Beside(c, e, sw, sh).Some? && Beside(c, e, sw, sh).value in on ::
          Beside(c, e, sw, sh).value in marked + pushed
      invariant forall m | m in pushed :: m in on && Adjacent(c, m, sw)
      decreases 4 - k
    {
      var beside := Beside(c, k, sw, sh);
      if beside.Some? {
        var m := beside.value;
        BesideIsAdjacent(c, k, sw, sh);
        PushOne(mask[..], on, marked, before, stack, pushed, m);
        if mask[m] == 1 {
          ghost var was := mask[..];
          mask[m] := 2;
          assert mask[..] == was[m := 2];
          stack, pushed := stack + [m], pushed + {m};
        }
      }
      k := k + 1;
    }
    forall m | m in on && Adjacent(c, m, sw) ensures m in marked + pushed {
      InMask(mask[..], on, marked, before, stack, pushed, m);
      AdjacentIsBeside(c, m, sw, sh);
    }
  }

  lemma InMask(mask: seq<byte>, on: set<nat>, marked: set<nat>, before: seq<nat>, stack: seq<nat>, pushed: set<nat>,
               m: nat)
    requires Spreading(mask, on, marked, before, stack, pushed) && m in on
    ensures m < |mask|
  {}

  predicate Within(c: nat, b: Bounds, sw: nat)
    requires sw > 0
  {
    b.minx <= Col(c, sw) <= b.maxx && b.miny <= Row(c, sw) <= b.maxy
  }

  /** The smallest bounds that hold every cell. */
  ghost predicate Tight(cells: set<nat>, b: Bounds, sw: nat)
    requires sw > 0
  {
    && (forall c | c in cells :: Within(c, b, sw))
    && (exists c :: c in cells && Col(c, sw) == b.minx) && (exists c :: c in cells && Col(c, sw) == b.maxx)
    && (exists c :: c in cells && Row(c, sw) == b.miny) && (exists c :: c in cells && Row(c, sw) == b.maxy)
  }

  function Widen(b: Bounds, c: nat, sw: nat): Bounds
    requires sw > 0
  {
    Bounds(Min(b.minx, Col(c, sw)), Min(b.miny, Row(c, sw)), Max(b.maxx, Col(c, sw)), Max(b.maxy, Row(c, sw)))
  }

  lemma TightOne(c: nat, sw: nat)
    requires sw > 0
    ensures Tight({c}, Bounds(Col(c, sw), Row(c, sw), Col(c, sw), Row(c, sw)), sw)
  {
    hide Col, Row;
    assert c in {c};
  }

  lemma TightWiden(cells: set<nat>, b: Bounds, c: nat, sw: nat)
    requires sw > 0 && Tight(cells, b, sw)
    ensures Tight(cells + {c}, Widen(b, c, sw), sw)
  {
    hide Col, Row;
    var b', more := Widen(b, c, sw), cells + {c};
    var w :| w in cells && Col(w, sw) == b.minx;
    var e :| e in cells && Col(e, sw) == b.maxx;
    var n :| n in cells && Row(n, sw) == b.miny;
    var s :| s in cells && Row(s, sw) == b.maxy;
    assert w in more && e in more && n in more && s in more && c in more;
  }

  /** Tight bounds are unique. */
  lemma TightUnique(cells: set<nat>, a: Bounds, b: Bounds, sw: nat)
    requires sw > 0 && Tight(cells, a, sw) && Tight(cells, b, sw)
    ensures a == b
  {
    hide Col, Row;
  }

  /** No changed neighbour of a done cell is left out. */
  ghost predicate ClosedIn(done: set<nat>, on: set<nat>, sw: nat)
    requires sw > 0
  {
    forall c, d | c in done && d in on && Adjacent(c, d, sw) :: d in done
  }

  /** Where a fill is: visited cells were popped, those on the stack are marked and wait. */
  ghost predicate Filling(mask: seq<byte>, on: set<nat>, done: set<nat>, visited: set<nat>, stack: seq<nat>, seed: nat,
                          sw: nat)
    requires sw > 0
  {
    && MaskIs(mask, on, done + visited + Elems(stack)) && Distinct(stack)
    && visited !! Elems(stack) && done !! visited && done !! Elems(stack) && seed in visited + Elems(stack)
    && (forall c | c in visited + Elems(stack) :: Connected(seed, c, on, sw))
    && (forall c, d | c in visited && d in on && Adjacent(c, d, sw) :: d in done + visited + Elems(stack))
  }

  lemma BeginFill(mask: seq<byte>, on: set<nat>, done: set<nat>, seed: nat, sw: nat)
    requires sw > 0 && MaskIs(mask, on, done) && seed < |mask| && mask[seed] == 1
    ensures Filling(mask[seed := 2], on, done, {}, [seed], seed, sw)
  {
    hide Connected, Adjacent;
    Self(seed, on, sw);
    assert Elems([seed]) == {seed};
  }

  lemma BeforeSpread(mask: seq<byte>, on: set<nat>, done: set<nat>, visited: set<nat>, stack: seq<nat>, seed: nat,
                     sw: nat)
    requires sw > 0 && Filling(mask, on, done, visited, stack, seed, sw) && stack != []
    ensures Elems(Front(stack)) == Elems(stack) - {Last(stack)} && Last(stack) in Elems(stack)
    ensures Last(stack) < |mask| && Last(stack) !in visited && Elems(Front(stack)) <= done + visited + Elems(stack)
    ensures Spreading(mask, on, done + visited + Elems(stack), Front(stack), Front(stack), {})
  {
    hide Connected, Adjacent;
    assert stack == Front(stack) + [Last(stack)];
    assert done + visited + Elems(stack) + {} == done + visited + Elems(stack);
    assert Elems(Front(stack)) + {} == Elems(Front(stack));
  }

  lemma AfterSpread(was: seq<byte>, mask: seq<byte>, on: set<nat>, done: set<nat>, visited: set<nat>, stack: seq<nat>,
                    stack': seq<nat>, pushed: set<nat>, seed: nat, sw: nat)
    requires sw > 0 && Filling(was, on, done, visited, stack, seed, sw) && stack != []
    requires Elems(Front(stack)) == Elems(stack) - {Last(stack)} && Last(stack) in Elems(stack)
    requires Spreading(mask, on, done + visited + Elems(stack), Front(stack), stack', pushed)
    requires forall m | m in on && Adjacent(Last(stack), m, sw) :: m in done + visited + Elems(stack) + pushed
    requires forall m | m in pushed :: m in on && Adjacent(Last(stack), m, sw)
    ensures Filling(mask, on, done, visited + {Last(stack)}, stack', seed, sw)
    ensures done + (visited + {Last(stack)}) + Elems(stack') == done + visited + Elems(stack) + pushed
  {
    hide Connected, Adjacent, MaskIs, Distinct, Elems, Last, Front;
    var c := Last(stack);
    assert visited + {c} + Elems(stack') == visited + Elems(stack) + pushed;
    assert done + (visited + {c}) + Elems(stack') == done + visited + Elems(stack) + pushed;
    forall d | d in pushed ensures Connected(seed, d, on, sw) { Extend(seed, c, d, on, sw); }
    assert forall d, e | d in visited + {c} && e in on && Adjacent(d, e, sw) :: e in done + visited + Elems(stack) + pushed;
  }

  /** One fill from a changed cell not yet marked, when the cells marked before are whole components: it ends, marks
      exactly the seed's component, counts it and bounds it tightly. */
  method Fill(mask: array<byte>, sw: nat, sh: nat, seed: nat, ghost on: set<nat>, ghost done: set<nat>)
    returns (cnt: nat, bounds: Bounds)
    requires sw > 0 && mask.Length == sw * sh && MaskIs(mask[..], on, done) && ClosedIn(done, on, sw)
    requires seed < mask.Length && mask[seed] == 1
    modifies mask
    ensures MaskIs(mask[..], on, done + Component(seed, on, sw))
    ensures cnt == |Component(seed, on, sw)| && Tight(Component(seed, on, sw), bounds, sw)
    ensures done !! Component(seed, on, sw) && ClosedIn(done + Component(seed, on, sw), on, sw)
  {
    hide Col, Row, Cell, Filling, Component, Connected, Spreading, Adjacent, Tight, Widen, MaskIs, ClosedIn, Elems;
    bounds, cnt := Bounds(Col(seed, sw), Row(seed, sw), Col(seed, sw), Row(seed, sw)), 0;
    var stack := [seed];
    BeginFill(mask[..], on, done, seed, sw);
    mask[seed] := 2;
    assert mask[..] == old(mask[..])[seed := 2];
    ghost var visited: set<nat> := {};
    TightOne(seed, sw);
    assert visited + {seed} == {seed};
    while stack != []
      invariant Filling(mask[..], on, done, visited, stack, seed, sw)
      invariant cnt == |visited| && Tight(visited + {seed}, bounds, sw)
      decreases on - (done + visited + Elems(stack)), |stack|
    {
      var c := Last(stack);
      ghost var was, marked := mask[..], done + visited + Elems(stack);
      BeforeSpread(was, on, done, visited, stack, seed, sw);
      TightWiden(visited + {seed}, bounds, c, sw);
      cnt, bounds := cnt + 1, Widen(bounds, c, sw);
      assert visited + {seed} + {c} == visited + {c} + {seed};
      var stack', pushed := Spread(mask, sw, sh, c, Front(stack), on, marked);
      AfterSpread(was, mask[..], on, done, visited, stack, stack', pushed, seed, sw);
      SmallerMeasure(was, mask[..], on, marked, Front(stack), stack', pushed);
      stack, visited := stack', visited + {c};
    }
    EndFill(mask[..], on, done, visited, seed, sw);
  }

  /** Either something new was marked or the stack got shorter. */
  lemma SmallerMeasure(was: seq<byte>, mask: seq<byte>, on: set<nat>, marked: set<nat>, before: seq<nat>,
                       stack: seq<nat>, pushed: set<nat>)
    requires Spreading(mask, on, marked, before, stack, pushed)
    ensures on - (marked + pushed) < on - marked || (pushed == {} && |stack| == |before|)
  {
    if pushed != {} {
      var m :| m in pushed;
      assert m in on - marked && m !in on - (marked + pushed);
    }
  }

  lemma EndFill(mask: seq<byte>, on: set<nat>, done: set<nat>, visited: set<nat>, seed: nat, sw: nat)
    requires sw > 0 && Filling(mask, on, done, visited, [], seed, sw) && ClosedIn(done, on, sw)
    ensures visited == Component(seed, on, sw) && done !! visited && visited + {seed} == visited
    ensures MaskIs(mask, on, done + visited) && ClosedIn(done + visited, on, sw)
  {
    hide Connected, Adjacent, Component, ClosedIn;
    assert done + visited + Elems([]) == done + visited;
    WholeComponent(seed, visited, done, on, sw);
  }

  lemma WholeComponent(seed: nat, visited: set<nat>, done: set<nat>, on: set<nat>, sw: nat)
    requires sw > 0 && done !! visited && seed in visited && visited <= on && ClosedIn(done, on, sw)
    requires forall c | c in visited :: Connected(seed, c, on, sw)
    requires forall c, d | c in visited && d in on && Adjacent(c, d, sw) :: d in done + visited
    ensures visited == Component(seed, on, sw) && ClosedIn(done + visited, on, sw)
  {
    hide Adjacent, Connected;
    Closed(seed, done + visited, on, sw);
    forall c | c in Component(seed, on, sw) ensures c in visited {
      Symmetric(seed, c, on, sw);
      assert seed in Component(c, on, sw);
      if c in done { Closed(c, done, on, sw); }
    }
  }
}
