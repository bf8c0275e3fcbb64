/** The in-place radix-2 FFT: bit-reversal swaps, then butterflies, over exact complex numbers. */
module Ffts {
  import opened Common
  import opened Bits
  import opened Grids

  // ----- complex numbers -----

  datatype Cx = Cx(re: real, im: real)

  const ZERO := Cx(0.0, 0.0)
  const ONE := Cx(1.0, 0.0)

  function Add(a: Cx, b: Cx): Cx { Cx(a.re + b.re, a.im + b.im) }
  function Sub(a: Cx, b: Cx): Cx { Cx(a.re - b.re, a.im - b.im) }
  function Neg(a: Cx): Cx { Cx(-a.re, -a.im) }
  function Mul(a: Cx, b: Cx): Cx { Cx(a.re * b.re - a.im * b.im, a.re * b.im + a.im * b.re) }

  /** The square of the absolute value. */
  function Norm(a: Cx): real { a.re * a.re + a.im * a.im }

  /** The multiplication is that of the complex numbers: i squared is -1, and norms multiply. */
  lemma MulIsComplex(a: Cx, b: Cx)
    ensures Mul(Cx(0.0, 1.0), Cx(0.0, 1.0)) == Cx(-1.0, 0.0)
    ensures Norm(Mul(a, b)) == Norm(a) * Norm(b)
  {
    ImaginaryUnit();
    NormOfMul(a, b);
  }

  lemma ImaginaryUnit()
    ensures Mul(Cx(0.0, 1.0), Cx(0.0, 1.0)) == Cx(-1.0, 0.0)
  {}

  lemma NormOfMul(a: Cx, b: Cx)
    ensures Norm(Mul(a, b)) == Norm(a) * Norm(b)
  {
    NormsMultiply(a.re, a.im, b.re, b.im);
  }

  /** Brahmagupta's identity. */
  lemma NormsMultiply(p: real, q: real, r: real, s: real)
    ensures (p * r - q * s) * (p * r - q * s) + (p * s + q * r) * (p * s + q * r) == (p * p + q * q) * (r * r + s * s)
  {
    Square(p * r, q * s);
    Square(p * s, -(q * r));
    Swapped4(p, q, r, s);
    Pairs(p, r); Pairs(q, s); Pairs(p, s); Pairs(q, r);
    Spread(p * p, q * q, r * r, s * s);
  }

  lemma Swapped4(p: real, q: real, r: real, s: real)
    ensures (p * r) * (q * s) == (p * s) * (q * r)
  {}

  lemma Pairs(a: real, b: real)
    ensures (a * b) * (a * b) == (a * a) * (b * b) && (-(a * b)) * (-(a * b)) == (a * a) * (b * b)
  {}

  lemma Spread(a: real, b: real, c: real, d: real)
    ensures (a + b) * (c + d) == a * c + a * d + b * c + b * d
  {}

  lemma Square(a: real, b: real)
    ensures (a - b) * (a - b) == a * a - 2.0 * (a * b) + b * b
  {}

  function Pow(z: Cx, n: nat): Cx {
    if n == 0 then ONE else Mul(Pow(z, n - 1), z)
  }

  lemma MulCommutes(a: Cx, b: Cx)
    ensures Mul(a, b) == Mul(b, a)
  {}

  lemma MulAssoc(a: Cx, b: Cx, c: Cx)
    ensures Mul(Mul(a, b), c) == Mul(a, Mul(b, c))
  {}

  lemma MulAdd(a: Cx, b: Cx, c: Cx)
    ensures Mul(a, Add(b, c)) == Add(Mul(a, b), Mul(a, c))
  {}

  lemma MulOne(a: Cx)
    ensures Mul(ONE, a) == a == Mul(a, ONE)
  {}

  lemma {:induction false} PowAdd(z: Cx, m: nat, n: nat)
    ensures Pow(z, m + n) == Mul(Pow(z, m), Pow(z, n))
  {
    hide Mul;
    if n == 0 {
      MulOne(Pow(z, m));
    } else {
      PowAdd(z, m, n - 1);
      MulAssoc(Pow(z, m), Pow(z, n - 1), z);
    }
  }

  lemma {:induction false} PowMul(z: Cx, m: nat, n: nat)
    ensures Pow(z, m * n) == Pow(Pow(z, m), n)
  {
    hide Mul;
    if n == 0 {
    } else {
      PowMul(z, m, n - 1);
      assert m * n == m * (n - 1) + m;
      PowAdd(z, m * (n - 1), m);
    }
  }

  // ----- the transform -----

  /** Sum over n of x[n] * w^(n*k): the discrete Fourier transform at k, by its definition. */
  function Dft(x: seq<Cx>, w: Cx, k: nat): Cx {
    if x == [] then ZERO else Add(Dft(Front(x), w, k), Mul(Last(x), Pow(w, (|x| - 1) * k)))
  }

  /** The polynomial with coefficients x at z, by Horner's rule. */
  function Poly(x: seq<Cx>, z: Cx): Cx {
    if x == [] then ZERO else Add(x[0], Mul(z, Poly(x[1..], z)))
  }

  lemma AddAssoc(a: Cx, b: Cx, c: Cx)
    ensures Add(Add(a, b), c) == Add(a, Add(b, c))
  {}

  lemma {:induction false} PolySnoc(x: seq<Cx>, y: Cx, z: Cx)
    ensures Poly(x + [y], z) == Add(Poly(x, z), Mul(y, Pow(z, |x|)))
  {
    hide Mul, Add;
    if x == [] {
      assert [y][1..] == [];
      assert Poly([y], z) == Add(y, Mul(z, ZERO));
      ZeroFacts(y, z);
    } else {
      assert (x + [y])[1..] == x[1..] + [y];
      PolySnoc(x[1..], y, z);
      var p, q := Poly(x[1..], z), Mul(y, Pow(z, |x| - 1));
      MulAdd(z, p, q);
      AddAssoc(x[0], Mul(z, p), Mul(z, q));
      MulCommutes(z, q);
      MulAssoc(y, Pow(z, |x| - 1), z);
    }
  }

  lemma ZeroFacts(y: Cx, z: Cx)
    ensures Mul(z, ZERO) == ZERO && Add(y, ZERO) == y == Add(ZERO, y) && Mul(y, ONE) == y
  {}

  /** The transform at k is the polynomial at w^k. */
  lemma {:induction false} DftIsPoly(x: seq<Cx>, w: Cx, k: nat)
    ensures Dft(x, w, k) == Poly(x, Pow(w, k))
  {
    hide Mul, Add;
    if x != [] {
      DftIsPoly(Front(x), w, k);
      assert x == Front(x) + [Last(x)];
      PolySnoc(Front(x), Last(x), Pow(w, k));
      assert (|x| - 1) * k == k * (|x| - 1);
      PowMul(w, k, |x| - 1);
    }
  }

  function Evens(x: seq<Cx>): seq<Cx>
    requires |x| % 2 == 0
  {
    seq(|x| / 2, n requires 0 <= n < |x| / 2 => x[2 * n])
  }

  function Odds(x: seq<Cx>): seq<Cx>
    requires |x| % 2 == 0
  {
    seq(|x| / 2, n requires 0 <= n < |x| / 2 => x[2 * n + 1])
  }

  /** Decimation in time: the even part and z times the odd part, both at z squared. */
  lemma {:induction false} Decimate(x: seq<Cx>, z: Cx)
    requires |x| % 2 == 0
    ensures Poly(x, z) == Add(Poly(Evens(x), Mul(z, z)), Mul(z, Poly(Odds(x), Mul(z, z))))
  {
    hide Mul, Add;
    if x == [] {
      ZeroFacts(ZERO, z);
    } else {
      var y := x[2..];
      assert Evens(x) == [x[0]] + Evens(y) && Odds(x) == [x[1]] + Odds(y);
      assert Evens(x)[1..] == Evens(y) && Odds(x)[1..] == Odds(y);
      assert x[1..][1..] == y;
      Decimate(y, z);
      Regroup(x[0], x[1], z, Poly(Evens(y), Mul(z, z)), Poly(Odds(y), Mul(z, z)));
    }
  }

  lemma Regroup(a: Cx, b: Cx, z: Cx, e: Cx, o: Cx)
    ensures Add(a, Mul(z, Add(b, Mul(z, Add(e, Mul(z, o)))))) ==
            Add(Add(a, Mul(Mul(z, z), e)), Mul(z, Add(b, Mul(Mul(z, z), o))))
  {
    hide Mul, Add;
    var s := Mul(z, z);
    MulAdd(z, e, Mul(z, o));
    MulAdd(z, b, Add(Mul(z, e), Mul(z, Mul(z, o))));
    MulAdd(z, Mul(z, e), Mul(z, Mul(z, o)));
    MulAdd(z, b, Mul(s, o));
    MulAssoc(z, z, e);
    MulAssoc(z, z, o);
    Shuffle(a, Mul(z, b), Mul(s, e), Mul(z, Mul(s, o)));
  }

  lemma Shuffle(a: Cx, b: Cx, c: Cx, d: Cx)
    ensures Add(a, Add(b, Add(c, d))) == Add(Add(a, c), Add(b, d))
  {}

  // ----- bit reversal -----

  /** i with its log2(n) bits in reverse order. */
  function Rev(i: nat, n: nat): (r: nat)
    requires Pow2(n) && i < n
    ensures r < n
  {
    if n == 1 then 0 else (if i % 2 == 1 then n / 2 else 0) + Rev(i / 2, n / 2)
  }

  /** Reversed, the top bit is the low one. */
  lemma {:induction false} RevTop(i: nat, top: bool, n: nat)
    requires Pow2(n) && n > 1 && i < n / 2
    ensures Rev((if top then n / 2 else 0) + i, n) == 2 * Rev(i, n / 2) + if top then 1 else 0
  {
    if n > 2 {
      var h, q := n / 2, n / 4;
      assert Pow2(h) && h == 2 * q && Pow2(q);
      RevTop(i / 2, top, h);
      var t := (if top then h else 0) + i;
      assert t % 2 == i % 2 && t / 2 == (if top then q else 0) + i / 2;
    }
  }

  /** Reversing twice changes nothing. */
  lemma {:induction false} RevInvolution(i: nat, n: nat)
    requires Pow2(n) && i < n
    ensures Rev(Rev(i, n), n) == i
  {
    if n > 1 {
      RevInvolution(i / 2, n / 2);
      RevTop(Rev(i / 2, n / 2), i % 2 == 1, n);
    }
  }

  /** Clear top bits from `bit` down until one is clear, and set that. */
  function Carry(j: nat, bit: nat): nat
    decreases bit
  {
    if And(j, bit) != 0 && bit > 0 then Carry(Xor(j, bit), bit / 2) else Xor(j, bit)
  }

  /** That loop counts in reversed bits. */
  lemma {:induction false} CarryCounts(i: nat, n: nat)
    requires Pow2(n) && i + 1 < n
    ensures Carry(Rev(i, n), n / 2) == Rev(i + 1, n)
  {
    hide And, Xor;
    var bit, j := n / 2, Rev(i, n);
    assert Pow2(bit) && n == 2 * bit;
    TopBit(j, bit);
    if i % 2 == 1 {
      assert j == bit + Rev(i / 2, bit) && (i + 1) / 2 == i / 2 + 1;
      assert Carry(j, bit) == Carry(Rev(i / 2, bit), bit / 2);
      CarryCounts(i / 2, bit);
    } else {
      assert j == Rev(i / 2, bit) && (i + 1) / 2 == i / 2;
    }
  }

  // ----- the arrays -----

  ghost function Zip(re: seq<real>, im: seq<real>): (x: seq<Cx>)
    requires |re| == |im|
    ensures |x| == |re| && forall k | 0 <= k < |x| :: x[k] == Cx(re[k], im[k])
  {
    seq(|re|, k requires 0 <= k < |re| => Cx(re[k], im[k]))
  }

  function Permuted(x: seq<Cx>): (p: seq<Cx>)
    requires Pow2(|x|)
    ensures |p| == |x| && forall m | 0 <= m < |x| :: p[m] == x[Rev(m, |x|)]
  {
    seq(|x|, m requires 0 <= m < |x| => x[Rev(m, |x|)])
  }

  /** Where the swaps have got to when the places before i have been tried. */
  ghost predicate Swapped(now: seq<Cx>, was: seq<Cx>, i: nat)
    requires Pow2(|was|)
  {
    |now| == |was| && forall m: nat | m < |was| ::
      now[m] == if m < i || Rev(m, |was|) < i then was[Rev(m, |was|)] else was[m]
  }

  lemma SwapOne(now: seq<Cx>, was: seq<Cx>, i: nat)
    requires Pow2(|was|) && i < |was| && Swapped(now, was, i)
    ensures var j := Rev(i, |was|);
      Swapped(if i < j then now[i := now[j]][j := now[i]] else now, was, i + 1)
  {
    var n, j := |was|, Rev(i, |was|);
    RevInvolution(i, n);
    forall m: nat | m < n && Rev(m, n) == i ensures m == j { RevInvolution(m, n); }
  }

  lemma SwapsBegin(was: seq<Cx>)
    requires Pow2(|was|)
    ensures Rev(0, |was|) == 0 && Swapped(was, was, 1)
  {
    RevZero(|was|);
    forall m: nat | m < |was| && Rev(m, |was|) < 1 ensures m == 0 { RevInvolution(m, |was|); }
  }

  lemma SwapsEnd(now: seq<Cx>, was: seq<Cx>)
    requires Pow2(|was|) && Swapped(now, was, |was|)
    ensures now == Permuted(was)
  {}

  /** The first phase: every pair of places whose numbers are each other's bit reversal is swapped. */
  method BitReverse(re: array<real>, im: array<real>)
    requires re != im && re.Length == im.Length && Pow2(re.Length)
    modifies re, im
    ensures Zip(re[..], im[..]) == Permuted(old(Zip(re[..], im[..])))
  {
    hide Rev, Swapped, Permuted, Pow2, Carry;
    ghost var was := Zip(re[..], im[..]);
    var N, i, j := re.Length, 1, 0;
    SwapsBegin(was);
    while i < N
      invariant 1 <= i <= N && j == Rev(i - 1, N)
      invariant Swapped(Zip(re[..], im[..]), was, i)
    {
      CarryCounts(i - 1, N);
      j := NextReversed(j, N);
      SwapOne(Zip(re[..], im[..]), was, i);
      if i < j { SwapPlaces(re, im, i, j); }
      i := i + 1;
    }
    SwapsEnd(Zip(re[..], im[..]), was);
  }

  method SwapPlaces(re: array<real>, im: array<real>, i: nat, j: nat)
    requires re != im && re.Length == im.Length && i < re.Length && j < re.Length
    modifies re, im
    ensures var was := old(Zip(re[..], im[..])); Zip(re[..], im[..]) == was[i := was[j]][j := was[i]]
  {
    re[i], re[j] := re[j], re[i];
    im[i], im[j] := im[j], im[i];
  }

  lemma {:induction false} RevZero(n: nat)
    requires Pow2(n)
    ensures Rev(0, n) == 0
  {
    if n > 1 { RevZero(n / 2); }
  }

  /** The inner loop of the first phase. */
  method NextReversed(j0: nat, N: nat) returns (j: nat)
    ensures j == Carry(j0, N / 2)
  {
    j := j0;
    var bit: nat := N / 2;
    while And(j, bit) != 0
      invariant Carry(j, bit) == Carry(j0, N / 2)
      decreases bit
    {
      assert bit > 0;
      j := Xor(j, bit);
      bit := bit / 2;
    }
    j := Xor(j, bit);
  }

  // ----- butterflies -----

  /** Place m once the first k of h pairs of the block at i are combined: lower halves hold sums, upper differences. */
  ghost function CombinedAt(x: seq<Cx>, i: nat, h: nat, k: nat, w: Cx, m: nat): Cx
    requires i + 2 * h <= |x| && k <= h && m < |x|
  {
    if i <= m < i + k then Add(x[m], Mul(x[m + h], Pow(w, m - i)))
    else if i + h <= m < i + h + k then Sub(x[m - h], Mul(x[m], Pow(w, m - h - i)))
    else x[m]
  }

  ghost function Combining(x: seq<Cx>, i: nat, h: nat, k: nat, w: Cx): (y: seq<Cx>)
    requires i + 2 * h <= |x| && k <= h
    ensures |y| == |x| && forall m | 0 <= m < |x| :: y[m] == CombinedAt(x, i, h, k, w, m)
  {
    seq(|x|, m requires 0 <= m < |x| => CombinedAt(x, i, h, k, w, m))
  }

  /** The block at i, of two halves of h, with all its pairs combined. */
  ghost function Combined(x: seq<Cx>, i: nat, h: nat, w: Cx): (y: seq<Cx>)
    requires i + 2 * h <= |x|
    ensures |y| == |x|
  {
    Combining(x, i, h, h, w)
  }

  lemma CombineOne(x: seq<Cx>, i: nat, h: nat, k: nat, w: Cx)
    requires i + 2 * h <= |x| && k < h
    ensures var now := Combining(x, i, h, k, w); var v := Mul(now[i + k + h], Pow(w, k));
      now[i + k := Add(now[i + k], v)][i + k + h := Sub(now[i + k], v)] == Combining(x, i, h, k + 1, w)
  {
    hide Add, Sub, Mul, Pow, Combining;
    var now, next := Combining(x, i, h, k, w), Combining(x, i, h, k + 1, w);
    var v := Mul(now[i + k + h], Pow(w, k));
    forall m: nat | m < |x| ensures next[m] == now[i + k := Add(now[i + k], v)][i + k + h := Sub(now[i + k], v)][m] {
      if m == i + k || m == i + k + h {} else { assert CombinedAt(x, i, h, k + 1, w, m) == CombinedAt(x, i, h, k, w, m); }
    }
  }

  lemma CombineNone(x: seq<Cx>, i: nat, h: nat, w: Cx)
    requires i + 2 * h <= |x|
    ensures Combining(x, i, h, 0, w) == x
  {
    hide Add, Sub, Mul, Pow;
  }

  /** The innermost loop: k runs over half a block, the factor is multiplied up as it goes. */
  method CombineBlock(re: array<real>, im: array<real>, i: nat, len: nat, w: Cx)
    requires re != im && re.Length == im.Length && len % 2 == 0 && i + len <= re.Length
    modifies re, im
    ensures Zip(re[..], im[..]) == Combined(old(Zip(re[..], im[..])), i, len / 2, w)
  {
    hide Add, Sub, Mul, Combining, Zip;
    var h, k, cwr, cwi := len / 2, 0, 1.0, 0.0;
    ghost var x := Zip(re[..], im[..]);
    CombineNone(x, i, h, w);
    while k < h
      invariant 0 <= k <= h && Cx(cwr, cwi) == Pow(w, k)
      invariant Zip(re[..], im[..]) == Combining(x, i, h, k, w)
    {
      CombineOne(x, i, h, k, w);
      Butterfly(re, im, i + k, i + k + h, cwr, cwi);
      NextFactor(cwr, cwi, w);
      var ncwr := cwr * w.re - cwi * w.im;
      cwi := cwr * w.im + cwi * w.re;
      cwr := ncwr;
      k := k + 1;
    }
  }

  lemma NextFactor(cwr: real, cwi: real, w: Cx)
    ensures Mul(Cx(cwr, cwi), w) == Cx(cwr * w.re - cwi * w.im, cwr * w.im + cwi * w.re)
  {}

  /** One butterfly. */
  method Butterfly(re: array<real>, im: array<real>, a: nat, b: nat, cwr: real, cwi: real)
    requires re != im && re.Length == im.Length && a < b < re.Length
    modifies re, im
    ensures var was := old(Zip(re[..], im[..])); var v := Mul(was[b], Cx(cwr, cwi));
      Zip(re[..], im[..]) == was[a := Add(was[a], v)][b := Sub(was[a], v)]
  {
    hide Mul, Zip;
    var ur, ui := re[a], im[a];
    var vr := re[b] * cwr - im[b] * cwi;
    var vi := re[b] * cwi + im[b] * cwr;
    ghost var v := Mul(Cx(re[b], im[b]), Cx(cwr, cwi));
    MulParts(Cx(re[b], im[b]), Cx(cwr, cwi));
    assert v == Cx(vr, vi);
    re[a], im[a] := ur + vr, ui + vi;
    re[b], im[b] := ur - vr, ui - vi;
    ghost var r0, m0 := old(re[..]), old(im[..]);
    ghost var was := Zip(r0, m0);
    assert was[a] == Cx(ur, ui) && was[b] == Cx(r0[b], m0[b]);
    assert v == Mul(was[b], Cx(cwr, cwi));
    assert re[..] == r0[a := ur + vr][b := ur - vr] && im[..] == m0[a := ui + vi][b := ui - vi];
    ZipUpdate(r0, m0, a, ur + vr, ui + vi);
    ZipUpdate(r0[a := ur + vr], m0[a := ui + vi], b, ur - vr, ui - vi);
    assert Zip(re[..], im[..]) == was[a := Cx(ur + vr, ui + vi)][b := Cx(ur - vr, ui - vi)];
  }

  lemma MulParts(a: Cx, b: Cx)
    ensures Mul(a, b) == Cx(a.re * b.re - a.im * b.im, a.re * b.im + a.im * b.re)
  {}

  lemma ZipUpdate(re: seq<real>, im: seq<real>, a: nat, r: real, m: real)
    requires |re| == |im| && a < |re|
    ensures Zip(re[a := r], im[a := m]) == Zip(re, im)[a := Cx(r, m)]
  {}

  /** a is the transform of x, whose places are still bit-reversed. */
  ghost predicate Transformed(a: seq<Cx>, x: seq<Cx>, w: Cx)
  {
    |a| == |x| && Pow2(|x|) && forall k | 0 <= k < |x| :: a[k] == Poly(Permuted(x), Pow(w, k))
  }

  /** Bit-reversed places split into the bit-reversed places of the even and of the odd part. */
  lemma PermutedHalves(x: seq<Cx>, h: nat)
    requires |x| == 2 * h && Pow2(h) && Pow2(|x|)
    ensures Evens(Permuted(x)) == Permuted(x[..h]) && Odds(Permuted(x)) == Permuted(x[h..])
  {
    hide Rev, Pow2, Permuted;
    var y := Permuted(x);
    forall n: nat | n < h ensures Evens(y)[n] == Permuted(x[..h])[n] && Odds(y)[n] == Permuted(x[h..])[n] {
      PermutedHalf(x, h, n);
    }
  }

  lemma PermutedHalf(x: seq<Cx>, h: nat, n: nat)
    requires |x| == 2 * h && Pow2(h) && Pow2(|x|) && n < h
    ensures |Evens(Permuted(x))| == |Odds(Permuted(x))| == h
    ensures Evens(Permuted(x))[n] == Permuted(x[..h])[n] && Odds(Permuted(x))[n] == Permuted(x[h..])[n]
  {
    hide Rev, Pow2, Permuted, Evens, Odds;
    RevDouble(n, h);
    EvenOdd(Permuted(x), n);
    assert x[Rev(2 * n, 2 * h)] == x[..h][Rev(n, h)];
    assert x[Rev(2 * n + 1, 2 * h)] == x[h..][Rev(n, h)];
  }

  lemma EvenOdd(y: seq<Cx>, n: nat)
    requires |y| % 2 == 0 && n < |y| / 2
    ensures |Evens(y)| == |Odds(y)| == |y| / 2 && Evens(y)[n] == y[2 * n] && Odds(y)[n] == y[2 * n + 1]
  {}

  lemma RevDouble(n: nat, h: nat)
    requires Pow2(h) && Pow2(2 * h) && n < h
    ensures Rev(2 * n, 2 * h) == Rev(n, h) && Rev(2 * n + 1, 2 * h) == h + Rev(n, h)
  {
    assert (2 * n) / 2 == n && (2 * n + 1) / 2 == n && (2 * h) / 2 == h;
  }

  /** What the butterfly computes: from the transforms of the halves, that of the whole. */
  lemma CombineTransforms(a: seq<Cx>, x: seq<Cx>, h: nat, w: Cx)
    requires |a| == |x| == 2 * h && Pow2(h) && Pow(w, h) == Neg(ONE)
    requires Transformed(a[..h], x[..h], Mul(w, w)) && Transformed(a[h..], x[h..], Mul(w, w))
    ensures Transformed(Combined(a, 0, h, w), x, w)
  {
    hide Mul, Add, Sub, Neg, Poly, Pow, Pow2, Permuted;
    Pow2Double(h);
    var y, c := Permuted(x), Combined(a, 0, h, w);
    PermutedHalves(x, h);
    forall k: nat | k < 2 * h ensures c[k] == Poly(y, Pow(w, k)) {
      CombineAt(a, x, h, w, if k < h then k else k - h);
    }
  }

  lemma CombineAt(a: seq<Cx>, x: seq<Cx>, h: nat, w: Cx, k: nat)
    requires |a| == |x| == 2 * h && Pow2(h) && Pow2(2 * h) && k < h && Pow(w, h) == Neg(ONE)
    requires Transformed(a[..h], x[..h], Mul(w, w)) && Transformed(a[h..], x[h..], Mul(w, w))
    ensures Combined(a, 0, h, w)[k] == Poly(Permuted(x), Pow(w, k))
    ensures Combined(a, 0, h, w)[h + k] == Poly(Permuted(x), Pow(w, h + k))
  {
    hide Mul, Add, Sub, Neg, Poly, Pow, Pow2, Permuted;
    var y, z, e, o := Permuted(x), Pow(w, k), a[k], a[h + k];
    PermutedHalves(x, h);
    SquarePow(w, k);
    assert a[h..][k] == o && a[..h][k] == e;
    Decimate(y, z);
    MulCommutes(z, o);
    PowAdd(w, h, k);
    Opposite(z);
    Decimate(y, Neg(z));
    SubIsAddNeg(e, z, o);
  }

  lemma SquarePow(w: Cx, k: nat)
    ensures Mul(Pow(w, k), Pow(w, k)) == Pow(Mul(w, w), k)
  {
    hide Mul;
    PowAdd(w, k, k);
    assert k + k == 2 * k;
    PowMul(w, 2, k);
    MulOne(w);
    assert Pow(w, 1) == Mul(Pow(w, 0), w) && Pow(w, 2) == Mul(Pow(w, 1), w);
  }

  lemma Opposite(z: Cx)
    ensures Mul(Neg(ONE), z) == Neg(z) && Mul(Neg(z), Neg(z)) == Mul(z, z)
  {}

  lemma SubIsAddNeg(e: Cx, z: Cx, o: Cx)
    ensures Sub(e, Mul(o, z)) == Add(e, Mul(Neg(z), o))
  {}

  // ----- a stage, and all of them -----

  /** Every block of len places that starts in lo..hi at a multiple of len is transformed. */
  ghost predicate Staged(a: seq<Cx>, x: seq<Cx>, len: nat, w: Cx, lo: nat, hi: nat)
    requires |a| == |x| && len > 0
  {
    forall p: nat | lo <= p < hi && p % len == 0 && p + len <= |a| :: Transformed(a[p..p + len], x[p..p + len], w)
  }

  /** Multiples of len are len apart. */
  lemma MultiplesApart(p: nat, i: nat, len: nat)
    requires len > 0 && p % len == 0 && i % len == 0 && p < i
    ensures p + len <= i
  {
    var q, r := p / len, i / len;
    if r <= q { NoFarther(r, q, len); } else { Farther(q, r, len); }
  }

  lemma NoFarther(r: nat, q: nat, len: nat)
    requires r <= q
    ensures r * len <= q * len
  {}

  lemma HalfMultiple(p: nat, h: nat)
    requires h > 0 && p % (2 * h) == 0
    ensures p % h == 0 && (p + h) % h == 0 && (p + 2 * h) % (2 * h) == 0
  {
    var q := p / (2 * h);
    WholeQuotient(p, 2 * h);
    Halved(q, h);
    Multiple(2 * q, h);
    Multiple(2 * q + 1, h);
    Multiple(q + 1, 2 * h);
  }

  lemma WholeQuotient(p: nat, m: nat)
    requires m > 0 && p % m == 0
    ensures p == p / m * m
  {}

  lemma Halved(q: nat, h: nat)
    ensures q * (2 * h) == (2 * q) * h && (2 * q + 1) * h == q * (2 * h) + h && (q + 1) * (2 * h) == q * (2 * h) + 2 * h
  {}

  lemma Multiple(q: nat, h: nat)
    requires h > 0
    ensures (q * h) % h == 0
  {
    var c := q * h;
    assert c == (c / h) * h + c % h;
    DivisionIsUnique(q, 0, c / h, c % h, h);
  }

  /** Combining the block at i moves the frontier past it. */
  lemma StageStep(a: seq<Cx>, x: seq<Cx>, i: nat, h: nat, w: Cx)
    requires |a| == |x| && Pow2(h) && i % (2 * h) == 0 && i + 2 * h <= |a| && Pow(w, h) == Neg(ONE)
    requires Staged(a, x, 2 * h, w, 0, i) && Staged(a, x, h, Mul(w, w), i, |a|)
    ensures var b := Combined(a, i, h, w);
      Staged(b, x, 2 * h, w, 0, i + 2 * h) && Staged(b, x, h, Mul(w, w), i + 2 * h, |a|)
  {
    hide Transformed, Mul, Pow, Neg, Add, Sub;
    var b, len := Combined(a, i, h, w), 2 * h;
    HalfMultiple(i, h);
    var sa, sx := a[i..i + len], x[i..i + len];
    assert sa[..h] == a[i..i + h] && sx[..h] == x[i..i + h];
    assert sa[h..] == a[i + h..i + h + h] && sx[h..] == x[i + h..i + h + h];
    CombineTransforms(sa, sx, h, w);
    assert b[i..i + len] == Combined(sa, 0, h, w);
    forall p: nat | p < i + len && p % len == 0 && p + len <= |a| ensures Transformed(b[p..p + len], x[p..p + len], w) {
      if p < i {
        MultiplesApart(p, i, len);
        assert b[p..p + len] == a[p..p + len];
      } else if p > i {
        MultiplesApart(i, p, len);
      }
    }
    forall p: nat | i + len <= p < |a| && p % h == 0 && p + h <= |a|
      ensures Transformed(b[p..p + h], x[p..p + h], Mul(w, w))
    {
      assert b[p..p + h] == a[p..p + h];
    }
  }

  /** One stage: the blocks are combined from left to right. */
  method Stage(re: array<real>, im: array<real>, len: nat, w: Cx, ghost x: seq<Cx>)
    requires re != im && re.Length == im.Length == |x| && len >= 2 && len % 2 == 0 && Pow2(len / 2)
    requires |x| % len == 0 && Pow(w, len / 2) == Neg(ONE)
    requires Staged(Zip(re[..], im[..]), x, len / 2, Mul(w, w), 0, |x|)
    modifies re, im
    ensures Staged(Zip(re[..], im[..]), x, len, w, 0, |x|)
  {
    hide Zip, Transformed, Mul, Pow, Neg, Combined, Pow2, Staged;
    var i, h := 0, len / 2;
    NothingStaged(Zip(re[..], im[..]), x, len, w);
    assert len == 2 * h;
    while i < re.Length
      invariant 0 <= i <= re.Length && i % len == 0
      invariant Staged(Zip(re[..], im[..]), x, len, w, 0, i)
      invariant Staged(Zip(re[..], im[..]), x, h, Mul(w, w), i, |x|)
      decreases re.Length - i
    {
      MultiplesApart(i, re.Length, len);
      HalfMultiple(i, h);
      StageStep(Zip(re[..], im[..]), x, i, h, w);
      CombineBlock(re, im, i, len, w);
      i := i + len;
    }
  }

  lemma NothingStaged(a: seq<Cx>, x: seq<Cx>, len: nat, w: Cx)
    requires |a| == |x| && len > 0
    ensures Staged(a, x, len, w, 0, 0)
  {}

  /** The laws of the factors exp(-2 pi i / len): the second is -1, and each is the square of the next. */
  ghost predicate Roots(w: nat -> Cx) {
    w(2) == Neg(ONE) && forall len: nat | Pow2(len) && len >= 2 :: Mul(w(2 * len), w(2 * len)) == w(len)
  }

  /** Half a turn is -1. */
  lemma {:induction false} HalfTurn(w: nat -> Cx, h: nat)
    requires Roots(w) && Pow2(h)
    ensures Pow(w(2 * h), h) == Neg(ONE)
  {
    hide Mul;
    if h == 1 {
      assert Pow(w(2), 1) == Mul(ONE, w(2));
      MulOne(w(2));
    } else {
      var g := h / 2;
      HalfTurn(w, g);
      assert Pow2(h) && h == 2 * g && Mul(w(2 * h), w(2 * h)) == w(h);
      SquarePow(w(2 * h), g);
      PowAdd(w(2 * h), g, g);
    }
  }

  lemma BlocksOfOne(a: seq<Cx>, w: Cx)
    ensures Staged(a, a, 1, w, 0, |a|)
  {
    hide Transformed;
    forall p: nat | 0 <= p < |a| && p % 1 == 0 && p + 1 <= |a| ensures Transformed(a[p..p + 1], a[p..p + 1], w) {
      OneTransformed(a[p..p + 1], w);
    }
  }

  lemma OneTransformed(s: seq<Cx>, w: Cx)
    requires |s| == 1
    ensures Transformed(s, s, w)
  {
    hide Mul, Add;
    assert Pow2(1) && Permuted(s) == s && s[1..] == [];
    var z := Pow(w, 0);
    ZeroFacts(s[0], z);
    assert Poly(s[1..], z) == ZERO && Poly(s, z) == Add(s[0], Mul(z, ZERO)) == s[0];
  }

  /** The whole: on a power-of-two length, what is left at k is the sum over n of x[n] * w^(n*k), w the factor of that
      length. */
  method FftPow2(re: array<real>, im: array<real>, w: nat -> Cx)
    requires re != im && re.Length == im.Length && (re.Length == 0 || Pow2(re.Length)) && Roots(w)
    modifies re, im
    ensures forall k | 0 <= k < re.Length :: Cx(re[k], im[k]) == Dft(old(Zip(re[..], im[..])), w(re.Length), k)
  {
    hide Mul, Pow, Neg, Transformed, Staged, Dft, Permuted, Pow2, Roots;
    var N := re.Length;
    ghost var x0 := Zip(re[..], im[..]);
    if N < 2 {
      ShortTransform(x0, w(N));
      return;
    }
    BitReverse(re, im);
    ghost var x := Zip(re[..], im[..]);
    var len := 2;
    SmallestPow2();
    BlocksOfOne(x, Mul(w(2), w(2)));
    while len <= N
      invariant len >= 2 && Pow2(len) && Pow2(len / 2) && len == 2 * (len / 2) && len / 2 <= N
      invariant Staged(Zip(re[..], im[..]), x, len / 2, Mul(w(len), w(len)), 0, N)
      decreases N + 1 - len
    {
      HalfTurn(w, len / 2);
      DividesLength(len, N);
      Stage(re, im, len, w(len), x);
      NextRoot(w, len);
      len := 2 * len;
    }
    LastStage(len, N);
    NextRoot(w, N);
    assert len == 2 * N;
    WholeTransform(Zip(re[..], im[..]), x0, w(N));
  }

  lemma ShortTransform(x: seq<Cx>, w: Cx)
    requires |x| < 2
    ensures forall k | 0 <= k < |x| :: x[k] == Dft(x, w, k)
  {
    hide Mul, Add;
    if |x| == 1 { ZeroFacts(x[0], w); }
  }

  lemma SmallestPow2()
    ensures Pow2(1) && Pow2(2)
  {}

  lemma DividesLength(len: nat, n: nat)
    requires Pow2(len) && Pow2(n) && 2 <= len <= n
    ensures n % len == 0
  {
    if len < n {
      var q := Pow2Divides(len, n);
      assert n == (2 * q) * len;
      Multiple(2 * q, len);
    }
  }

  lemma LastStage(len: nat, n: nat)
    requires Pow2(len / 2) && Pow2(n) && len / 2 <= n < len && len == 2 * (len / 2)
    ensures len / 2 == n
  {
    if len / 2 < n {
      var q := Pow2Divides(len / 2, n);
      NoFarther(1, q, len);
    }
  }

  lemma NextRoot(w: nat -> Cx, len: nat)
    requires Roots(w) && Pow2(len) && len >= 2
    ensures Pow2(2 * len) && (2 * len) / 2 == len && Mul(w(2 * len), w(2 * len)) == w(len)
  {
    Pow2Double(len);
  }

  lemma WholeTransform(a: seq<Cx>, x0: seq<Cx>, w: Cx)
    requires |a| == |x0| && Pow2(|x0|) && Staged(a, Permuted(x0), |x0|, w, 0, |x0|)
    ensures forall k | 0 <= k < |a| :: a[k] == Dft(x0, w, k)
  {
    hide Mul, Add, Pow, Dft, Poly, Rev;
    var n, x := |x0|, Permuted(x0);
    assert 0 % n == 0;
    assert a[0..0 + n] == a && x[0..0 + n] == x;
    assert Transformed(a, x, w);
    forall m: nat | m < n ensures Permuted(x)[m] == x0[m] { RevInvolution(m, n); }
    assert Permuted(x) == x0;
    forall k | 0 <= k < n ensures a[k] == Dft(x0, w, k) { DftIsPoly(x0, w, k); }
  }
}
