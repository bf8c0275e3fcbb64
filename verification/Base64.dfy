/** Base64: the encoder, and the decoder whose 32-bit accumulator is never masked. */
module Base64 {
  import opened Common
  import opened Grids

  type digit = v: nat | v < 64

  /** The alphabet: A-Z, a-z, 0-9, + and /. */
  function CharOf(v: digit): char {
    if v < 26 then ('A' as int + v) as char
    else if v < 52 then ('a' as int + v - 26) as char
    else if v < 62 then ('0' as int + v - 52) as char
    else if v == 62 then '+'
    else '/'
  }

  /** The value of a character, none for one off the alphabet. */
  function Val(c: char): Option<digit> {
    if 'A' <= c <= 'Z' then Some((c as int - 'A' as int) as digit)
    else if 'a' <= c <= 'z' then Some((c as int - 'a' as int + 26) as digit)
    else if '0' <= c <= '9' then Some((c as int - '0' as int + 52) as digit)
    else if c == '+' then Some(62)
    else if c == '/' then Some(63)
    else None
  }

  lemma ValOfChar(v: digit)
    ensures Val(CharOf(v)) == Some(v) && CharOf(v) != '='
  {}

    const UPPER: string := "ABCDEFGHIJKLMNOPQRSTUVWXYZ"
  const LOWER: string := "abcdefghijklmnopqrstuvwxyz"
  const NUMERALS: string := "0123456789"
  const ALPHABET: string := UPPER + LOWER + NUMERALS + "+/"

  lemma UpperAt(i: nat)
    requires i < 26
    ensures |UPPER| == 26 && UPPER[i] == ('A' as int + i) as char
  {}

  lemma LowerAt(i: nat)
    requires i < 26
    ensures |LOWER| == 26 && LOWER[i] == ('a' as int + i) as char
  {}

  lemma NumeralAt(i: nat)
    requires i < 10
    ensures |NUMERALS| == 10 && NUMERALS[i] == ('0' as int + i) as char
  {}

  /** Each value is written as the character at its place. */
  lemma CharAtPlace(v: digit)
    ensures |ALPHABET| == 64 && CharOf(v) == ALPHABET[v]
  {
    UpperAt(if v < 26 then v else 0);
    LowerAt(if 26 <= v < 52 then v - 26 else 0);
    NumeralAt(if 52 <= v < 62 then v - 52 else 0);
    hide UPPER, LOWER, NUMERALS;
  }

  /** A character has a value exactly when it stands in the alphabet, its place there. */
  lemma ValIff(c: char)
    ensures Val(c).Some? <==> c in ALPHABET
    ensures forall v: digit :: Val(c) == Some(v) <==> ALPHABET[v] == c
  {
    hide ALPHABET;
    forall v: digit ensures |ALPHABET| == 64 && CharOf(v) == ALPHABET[v] && Val(ALPHABET[v]) == Some(v) {
      CharAtPlace(v);
      ValOfChar(v);
    }
    if Val(c).Some? { CharOfVal(c); }
    if c in ALPHABET {
      CharAtPlace(0);
      var i: nat :| i < |ALPHABET| && ALPHABET[i] == c;
      assert Val(ALPHABET[i as digit]) == Some(i as digit);
    }
  }

  lemma CharOfVal(c: char)
    requires Val(c).Some?
    ensures CharOf(Val(c).value) == c
  {}

  // ----- encoding -----

  /** Three bytes as four digits of six bits. */
  function Quad(a: byte, b: byte, c: byte): seq<digit> {
    [a / 4, a % 4 * 16 + b / 16, b % 16 * 4 + c / 64, c % 64]
  }

  function Chars(ds: seq<digit>): string { seq(|ds|, i requires 0 <= i < |ds| => CharOf(ds[i])) }

  function Encode(data: seq<byte>): string {
    if |data| >= 3 then Chars(Quad(data[0], data[1], data[2])) + Encode(data[3..])
    else if |data| == 2 then Chars(Quad(data[0], data[1], 0)[..3]) + "="
    else if |data| == 1 then Chars(Quad(data[0], 0, 0)[..2]) + "=="
    else ""
  }

  /** Three bytes side by side. */
  function Group(a: nat, b: nat, c: nat): nat { a * 0x1_0000 + b * 0x100 + c }

  /** The group in pieces of six bits. */
  lemma Shifts(a: byte, b: byte, c: byte)
    ensures var n, q := Group(a, b, c), Quad(a, b, c);
      n / 0x4_0000 % 64 == q[0] && n / 0x1000 % 64 == q[1] && n / 64 % 64 == q[2] && n % 64 == q[3]
  {
    var a1: nat, a0: nat, b1: nat, b0: nat, c1: nat, c0: nat := a / 4, a % 4, b / 16, b % 16, c / 64, c % 64;
    assert Group(a, b, c) == a1 * 0x4_0000 + (a0 * 16 + b1) * 0x1000 + (b0 * 4 + c1) * 64 + c0;
    FourDigits(a1, a0 * 16 + b1, b0 * 4 + c1, c0);
  }

  lemma FourDigits(x: nat, y: nat, z: nat, w: nat)
    requires x < 64 && y < 64 && z < 64 && w < 64
    ensures var n := x * 0x4_0000 + y * 0x1000 + z * 64 + w;
      n / 0x4_0000 % 64 == x && n / 0x1000 % 64 == y && n / 64 % 64 == z && n % 64 == w
  {
    var n := x * 0x4_0000 + y * 0x1000 + z * 64 + w;
    assert n / 64 == x * 0x1000 + y * 64 + z;
    assert n / 0x1000 == x * 64 + y;
    assert n / 0x4_0000 == x;
  }

  /** The encoder's loop over groups of three, and its tail. */
  method EncodeLoop(data: seq<byte>) returns (out: string)
    ensures out == Encode(data)
  {
    hide CharOf, Group, Quad, Encode, Chars;
    assert data[0..] == data;
    out := "";
    var i := 0;
    while i + 3 <= |data|
      invariant 0 <= i <= |data| && out + Encode(data[i..]) == Encode(data)
    {
      var n := Group(data[i], data[i + 1], data[i + 2]);
      var four := [CharOf(n / 0x4_0000 % 64), CharOf(n / 0x1000 % 64), CharOf(n / 64 % 64), CharOf(n % 64)];
      FourChars(data[i], data[i + 1], data[i + 2]);
      EncodeGroup(data[i..]);
      assert data[i..][3..] == data[i + 3..];
      out := out + four;
      i := i + 3;
    }
    EncodeTail(data[i..]);
    if i < |data| {
      var rem := |data| - i;
      var second: byte := if rem == 2 then data[i + 1] else 0;
      var n := Group(data[i], second, 0);
      FourChars(data[i], second, 0);
      var two := [CharOf(n / 0x4_0000 % 64), CharOf(n / 0x1000 % 64)];
      out := out + two + [if rem == 2 then CharOf(n / 64 % 64) else '='] + "=";
    }
  }

  lemma EncodeGroup(data: seq<byte>)
    requires |data| >= 3
    ensures Encode(data) == Chars(Quad(data[0], data[1], data[2])) + Encode(data[3..])
  {}

  lemma EncodeTail(data: seq<byte>)
    ensures data == [] ==> Encode(data) == ""
    ensures |data| == 1 ==> |Quad(data[0], 0, 0)| == 4 && Encode(data) == Chars(Quad(data[0], 0, 0)[..2]) + "=="
    ensures |data| == 2 ==> |Quad(data[0], data[1], 0)| == 4 && Encode(data) == Chars(Quad(data[0], data[1], 0)[..3]) + "="
  {}

  /** The four characters of a group, and of its first two and three digits. */
  lemma FourChars(a: byte, b: byte, c: byte)
    ensures var n, cs := Group(a, b, c), Chars(Quad(a, b, c));
      var x, y, z, w := CharOf(n / 0x4_0000 % 64), CharOf(n / 0x1000 % 64), CharOf(n / 64 % 64), CharOf(n % 64);
      |Quad(a, b, c)| == 4 && cs == [x, y, z, w] && Chars(Quad(a, b, c)[..3]) == [x, y, z]
      && Chars(Quad(a, b, c)[..2]) == [x, y]
  {
    hide CharOf, Group;
    Shifts(a, b, c);
  }

  // ----- decoding -----

  /** 2 to the number of bits left over. */
  function Room(bits: nat): (r: nat)
    requires bits in {0, 2, 4, 6}
    ensures r > 0
  {
    if bits == 0 then 1 else if bits == 2 then 4 else if bits == 4 then 16 else 64
  }

  /** Decoding with `bits` bits of value `left` waiting: characters off the alphabet are skipped, '=' ends. */
  function DecodeFrom(s: string, left: nat, bits: nat): seq<byte>
    requires bits in {0, 2, 4, 6} && left < Room(bits)
    decreases |s|
  {
    if s == [] || s[0] == '=' then []
    else match Val(s[0])
      case None => DecodeFrom(s[1..], left, bits)
      case Some(v) =>
        if bits == 0 then DecodeFrom(s[1..], v, 6)
        else
          var n, rest := left * 64 + v, Room(bits - 2);
          [n / rest] + DecodeFrom(s[1..], n % rest, bits - 2)
  }

  function Decode(s: string): seq<byte> { DecodeFrom(s, 0, 0) }

  /** Eight bits cut out at `rest` depend on the bits below them and on themselves only. */
  lemma CutOut(x: nat, rest: nat)
    requires rest in {1, 4, 16}
    ensures x / rest % 256 == x % (256 * rest) / rest && x % rest == x % (256 * rest) % rest
  {
    var m := 256 * rest;
    CutHigh(x / m, x % m, rest);
  }

  lemma CutHigh(q: nat, r: nat, rest: nat)
    requires rest > 0 && r < 256 * rest
    ensures var x := q * (256 * rest) + r; x / rest % 256 == r / rest && x % rest == r % rest
  {
    var x, h, l := q * (256 * rest) + r, r / rest, r % rest;
    assert r == h * rest + l;
    Regroup(q, h, l, rest);
    DivisionIsUnique(256 * q + h, l, x / rest, x % rest, rest);
    if h >= 256 { Farther(255, h, rest); }
  }

  lemma Regroup(q: nat, h: nat, l: nat, rest: nat)
    ensures q * (256 * rest) + (h * rest + l) == (256 * q + h) * rest + l
  {}

  /** Dropping the high bits of the accumulator loses nothing: the eight bits are cut out below the fourteenth. */
  lemma WrapHarmless(buf: nat, v: nat, bits: nat)
    requires bits in {2, 4, 6} && v < 64
    ensures var now := (buf * 64 + v) % 0x1_0000_0000; var n, rest := buf % Room(bits) * 64 + v, Room(bits - 2);
      now / rest % 256 == n / rest && now % rest == n % rest
  {
    var sum, rest := buf * 64 + v, Room(bits - 2);
    CutOut(sum % 0x1_0000_0000, rest);
    Low(sum, 256 * rest);
    LowSix(buf, v, bits);
  }

  lemma LowSix(buf: nat, v: nat, bits: nat)
    requires bits in {2, 4, 6} && v < 64
    ensures (buf * 64 + v) % (256 * Room(bits - 2)) == buf % Room(bits) * 64 + v
  {
    var r := Room(bits);
    assert 256 * Room(bits - 2) == 64 * r;
    Regroup64(buf / r, buf % r, v, r);
    LowOf(buf / r, buf % r * 64 + v, 64 * r);
  }

  lemma Regroup64(q: nat, l: nat, v: nat, r: nat)
    requires r > 0 && l < r && v < 64
    ensures (q * r + l) * 64 + v == q * (64 * r) + (l * 64 + v) && l * 64 + v < 64 * r
  {}

  lemma Low(sum: nat, m: nat)
    requires m in {64, 256, 1024, 4096}
    ensures sum % 0x1_0000_0000 % m == sum % m
  {
    var q, r := sum / 0x1_0000_0000, sum % 0x1_0000_0000;
    if m == 64 { LowOf(q * 0x400_0000, r, 64); }
    else if m == 256 { LowOf(q * 0x100_0000, r, 256); }
    else if m == 1024 { LowOf(q * 0x40_0000, r, 1024); }
    else { LowOf(q * 0x10_0000, r, 4096); }
  }

  lemma LowOf(q: nat, r: nat, m: nat)
    requires m > 0
    ensures (q * m + r) % m == r % m
  {
    var s := q * m + r;
    assert s == (q + r / m) * m + r % m;
    DivisionIsUnique(q + r / m, r % m, s / m, s % m, m);
  }

  /** What is still to come out of s from place k on. */
  ghost function ToCome(s: string, k: nat, buf: nat, bits: nat): seq<byte>
    requires k <= |s| && bits in {0, 2, 4, 6}
  {
    DecodeFrom(s[k..], buf % Room(bits), bits)
  }

  /** One character of the alphabet, on the accumulator that is never masked. */
  lemma StepMatches(s: string, k: nat, buf: u32, bits: nat, v: digit)
    requires bits in {0, 2, 4, 6} && k < |s| && s[k] != '=' && Val(s[k]) == Some(v)
    ensures var now := (buf * 64 + v) % 0x1_0000_0000;
      ToCome(s, k, buf, bits) == if bits == 0 then ToCome(s, k + 1, now, 6)
                                 else [now / Room(bits - 2) % 256] + ToCome(s, k + 1, now, bits - 2)
  {
    assert s[k..][1..] == s[k + 1..];
    if bits == 0 {
      Low(buf * 64 + v, 64);
      LowOf(buf, v, 64);
    } else {
      WrapHarmless(buf, v, bits);
    }
  }

  /** Every other character, and the ends. */
  lemma SkipMatches(s: string, k: nat, buf: nat, bits: nat)
    requires bits in {0, 2, 4, 6} && k <= |s|
    ensures k < |s| && Val(s[k]) == None && s[k] != '=' ==> ToCome(s, k, buf, bits) == ToCome(s, k + 1, buf, bits)
    ensures k == |s| || s[k] == '=' ==> ToCome(s, k, buf, bits) == []
  {
    if k < |s| { assert s[k..][1..] == s[k + 1..]; }
  }

  lemma AllToCome(s: string)
    ensures ToCome(s, 0, 0, 0) == Decode(s)
  {
    assert s[0..] == s;
  }

  /** The decoder's loop: buf = (buf << 6) | v in 32 bits, never masked. */
  method DecodeLoop(s: string) returns (out: seq<byte>)
    ensures out == Decode(s)
  {
    hide Val, ToCome, Decode;
    out := [];
    var buf: u32, bits, k := 0, 0, 0;
    AllToCome(s);
    while k < |s|
      invariant 0 <= k <= |s| && bits in {0, 2, 4, 6}
      invariant out + ToCome(s, k, buf, bits) == Decode(s)
    {
      SkipMatches(s, k, buf, bits);
      if s[k] == '=' { return; }
      var v := Val(s[k]);
      if v.Some? {
        StepMatches(s, k, buf, bits, v.value);
        buf := (buf * 64 + v.value) % 0x1_0000_0000;
        bits := bits + 6;
        if bits >= 8 {
          bits := bits - 8;
          out := out + [buf / Room(bits) % 256];
        }
      }
      k := k + 1;
    }
    SkipMatches(s, k, buf, bits);
  }

  // ----- round trip -----

  lemma DecodeDigit(v: digit, s: string, left: nat, bits: nat)
    requires bits in {0, 2, 4, 6} && left < Room(bits)
    ensures DecodeFrom([CharOf(v)] + s, left, bits) ==
      if bits == 0 then DecodeFrom(s, v, 6)
      else [(left * 64 + v) / Room(bits - 2)] + DecodeFrom(s, (left * 64 + v) % Room(bits - 2), bits - 2)
  {
    ValOfChar(v);
    assert ([CharOf(v)] + s)[1..] == s;
  }

  /** Bits waiting and one more digit. */
  function Join(left: nat, v: nat): nat { left * 64 + v }

  /** The digits of a group give its bytes back, with what is left over in between. */
  lemma QuadSplits(a: byte, b: byte, c: byte)
    ensures var q := Quad(a, b, c);
      && Join(q[0], q[1]) / 16 == a && Join(q[0], q[1]) % 16 == b / 16
      && Join(b / 16, q[2]) / 4 == b && Join(b / 16, q[2]) % 4 == c / 64
      && Join(c / 64, q[3]) == c
  {
    var q := Quad(a, b, c);
    assert Join(q[0], q[1]) == a as int * 16 + b / 16;
    assert Join(b / 16, q[2]) == b as int * 4 + c / 64;
  }

  /** Four digits in a row. */
  lemma DecodeFour(x: digit, y: digit, z: digit, w: digit, s: string)
    ensures Decode([CharOf(x), CharOf(y), CharOf(z), CharOf(w)] + s) ==
      [Join(x, y) / 16, Join(Join(x, y) % 16, z) / 4, Join(Join(Join(x, y) % 16, z) % 4, w)] + Decode(s)
  {
    hide DecodeFrom, CharOf;
    var s3 := [CharOf(w)] + s;
    var s2 := [CharOf(z)] + s3;
    var s1 := [CharOf(y)] + s2;
    assert [CharOf(x), CharOf(y), CharOf(z), CharOf(w)] + s == [CharOf(x)] + s1;
    DecodeDigit(x, s1, 0, 0);
    DecodeDigit(y, s2, x, 6);
    DecodeDigit(z, s3, Join(x, y) % 16, 4);
    DecodeDigit(w, s, Join(Join(x, y) % 16, z) % 4, 2);
  }

  lemma DecodeQuad(a: byte, b: byte, c: byte, s: string)
    ensures Decode(Chars(Quad(a, b, c)) + s) == [a, b, c] + Decode(s)
  {
    hide Decode, CharOf, Quad, Join;
    var q := Quad(a, b, c);
    FourOf(a, b, c);
    QuadSplits(a, b, c);
    DecodeFour(q[0], q[1], q[2], q[3], s);
    assert Chars(q) == [CharOf(q[0]), CharOf(q[1]), CharOf(q[2]), CharOf(q[3])];
  }

  lemma FourOf(a: byte, b: byte, c: byte)
    ensures |Quad(a, b, c)| == 4
  {}

  /** Decoding what the encoder made gives the bytes back. */
  lemma {:induction false} RoundTrip(data: seq<byte>)
    ensures Decode(Encode(data)) == data
  {
    hide DecodeFrom, CharOf;
    if |data| >= 3 {
      DecodeQuad(data[0], data[1], data[2], Encode(data[3..]));
      RoundTrip(data[3..]);
      assert data == [data[0], data[1], data[2]] + data[3..];
    } else if |data| == 2 {
      DecodeThree(data[0], data[1]);
      assert data == [data[0], data[1]];
    } else if |data| == 1 {
      DecodeTwo(data[0]);
      assert data == [data[0]];
    } else {
      PaddingEnds("", 0, 0);
    }
  }

  lemma PaddingEnds(s: string, left: nat, bits: nat)
    requires bits in {0, 2, 4, 6} && left < Room(bits) && (s == "" || s[0] == '=')
    ensures DecodeFrom(s, left, bits) == []
  {}

  lemma DecodeThree(a: byte, b: byte)
    ensures Decode(Chars(Quad(a, b, 0)[..3]) + "=") == [a, b]
  {
    hide DecodeFrom, CharOf, Quad;
    FourOf(a, b, 0);
    QuadSplits(a, b, 0);
    var q := Quad(a, b, 0);
    var s2 := [CharOf(q[2])] + "=";
    var s1 := [CharOf(q[1])] + s2;
    assert Chars(q[..3]) + "=" == [CharOf(q[0])] + s1;
    DecodeDigit(q[0], s1, 0, 0);
    DecodeDigit(q[1], s2, q[0], 6);
    DecodeDigit(q[2], "=", b / 16, 4);
    PaddingEnds("=", 0, 2);
  }

  lemma DecodeTwo(a: byte)
    ensures Decode(Chars(Quad(a, 0, 0)[..2]) + "==") == [a]
  {
    hide DecodeFrom, CharOf, Quad;
    FourOf(a, 0, 0);
    QuadSplits(a, 0, 0);
    var q := Quad(a, 0, 0);
    var s1 := [CharOf(q[1])] + "==";
    assert Chars(q[..2]) + "==" == [CharOf(q[0])] + s1;
    DecodeDigit(q[0], s1, 0, 0);
    DecodeDigit(q[1], "==", q[0], 6);
    PaddingEnds("==", 0, 4);
  }

  /** The text without the characters that are neither of the alphabet nor '='. */
  function Cleaned(s: string): string {
    if s == [] then [] else (if Val(s[0]) == None && s[0] != '=' then [] else [s[0]]) + Cleaned(s[1..])
  }

  lemma {:induction false} CleaningIsHarmless(s: string, left: nat, bits: nat)
    requires bits in {0, 2, 4, 6} && left < Room(bits)
    ensures DecodeFrom(s, left, bits) == DecodeFrom(Cleaned(s), left, bits)
    decreases |s|
  {
    hide Val;
    if s != [] && s[0] != '=' {
      var rest := Cleaned(s[1..]);
      match Val(s[0])
      case None =>
        assert Cleaned(s) == rest;
        CleaningIsHarmless(s[1..], left, bits);
      case Some(v) =>
        assert Cleaned(s) == [s[0]] + rest && Cleaned(s)[1..] == rest;
        if bits == 0 {
          CleaningIsHarmless(s[1..], v, 6);
        } else {
          CleaningIsHarmless(s[1..], (left * 64 + v) % Room(bits - 2), bits - 2);
        }
    }
  }

  /** However many other characters are mixed into an encoding, line breaks say, the bytes come back. */
  lemma DecodesDespiteStrangers(data: seq<byte>, s: string)
    requires Cleaned(s) == Encode(data)
    ensures Decode(s) == data
  {
    hide DecodeFrom, Encode, Cleaned;
    CleaningIsHarmless(s, 0, 0);
    RoundTrip(data);
  }

  /** Nothing after a padding sign is read. */
  lemma {:induction false} StopsAtPadding(a: string, b: string, left: nat, bits: nat)
    requires bits in {0, 2, 4, 6} && left < Room(bits)
    ensures DecodeFrom(a + "=" + b, left, bits) == DecodeFrom(a, left, bits)
    decreases |a|
  {
    var s := a + "=" + b;
    if a == [] {
      assert s[0] == '=';
    } else if a[0] != '=' {
      assert s[0] == a[0] && s[1..] == a[1..] + "=" + b;
      match Val(a[0])
      case None => StopsAtPadding(a[1..], b, left, bits);
      case Some(v) =>
        if bits == 0 { StopsAtPadding(a[1..], b, v, 6); }
        else { StopsAtPadding(a[1..], b, (left * 64 + v) % Room(bits - 2), bits - 2); }
    } else {
      assert s[0] == '=';
    }
  }

  // ----- section 4 of RFC 4648 -----

  /** The bits of a byte, the highest first. */
  function ByteBits(b: nat): seq<nat> {
    [b / 128 % 2, b / 64 % 2, b / 32 % 2, b / 16 % 2, b / 8 % 2, b / 4 % 2, b / 2 % 2, b % 2]
  }

  function BitsOf(data: seq<byte>): seq<nat> {
    if data == [] then [] else ByteBits(data[0]) + BitsOf(data[1..])
  }

  /** The number six bits spell. */
  function Six(bits: seq<nat>): nat
    requires |bits| == 6
  {
    bits[0] * 32 + bits[1] * 16 + bits[2] * 8 + bits[3] * 4 + bits[4] * 2 + bits[5]
  }

  /** The bit string taken six bits at a time, the last group filled with zero bits. */
  function Sextets(bits: seq<nat>): seq<nat> {
    if bits == [] then []
    else if |bits| < 6 then [Six(bits + seq(6 - |bits|, i => 0))]
    else [Six(bits[..6])] + Sextets(bits[6..])
  }

  /** The text is the characters of those numbers, filled with '=' to a multiple of four. */
  ghost predicate FollowsRfc(data: seq<byte>, text: string) {
    var ds := Sextets(BitsOf(data));
    && |text| % 4 == 0 && |ds| <= |text| < |ds| + 4
    && (forall i | 0 <= i < |ds| :: ds[i] < 64 && text[i] == CharOf(ds[i]))
    && (forall i | |ds| <= i < |text| :: text[i] == '=')
  }

  /** Six bits spell the number they are the bits of, whole or in two pieces. */
  lemma SixBits(x: nat)
    requires x < 64
    ensures Six([x / 32 % 2, x / 16 % 2, x / 8 % 2, x / 4 % 2, x / 2 % 2, x % 2]) == x
  {
    assert x / 4 == x / 2 / 2 && x / 8 == x / 4 / 2 && x / 16 == x / 8 / 2 && x / 32 == x / 16 / 2;
  }

  lemma TwoAndFour(p: nat, r: nat)
    requires p < 4 && r < 16
    ensures Six([p / 2, p % 2, r / 8, r / 4 % 2, r / 2 % 2, r % 2]) == p * 16 + r
  {
    assert r / 4 == r / 2 / 2 && r / 8 == r / 4 / 2;
  }

  lemma FourAndTwo(p: nat, r: nat)
    requires p < 16 && r < 4
    ensures Six([p / 8, p / 4 % 2, p / 2 % 2, p % 2, r / 2, r % 2]) == p * 4 + r
  {
    assert p / 4 == p / 2 / 2 && p / 8 == p / 4 / 2;
  }

  /** The bits of the pieces of a byte are bits of the byte. */
  lemma HighSix(a: byte)
    ensures [a / 4 / 32 % 2, a / 4 / 16 % 2, a / 4 / 8 % 2, a / 4 / 4 % 2, a / 4 / 2 % 2, a / 4 % 2] == ByteBits(a)[..6]
  {
    assert a / 4 / 2 == a / 8 && a / 4 / 4 == a / 16 && a / 4 / 8 == a / 32 && a / 4 / 16 == a / 64 && a / 4 / 32 == a / 128;
  }

  lemma LowTwo(a: byte)
    ensures [a % 4 / 2, a % 4 % 2] == ByteBits(a)[6..]
  {}

  lemma HighFour(b: byte)
    ensures [b / 16 / 8, b / 16 / 4 % 2, b / 16 / 2 % 2, b / 16 % 2] == ByteBits(b)[..4]
  {
    assert b / 16 / 2 == b / 32 && b / 16 / 4 == b / 64 && b / 16 / 8 == b / 128;
  }

  lemma LowFour(b: byte)
    ensures [b % 16 / 8, b % 16 / 4 % 2, b % 16 / 2 % 2, b % 16 % 2] == ByteBits(b)[4..]
  {
    LowFourOf(b / 16, b % 16);
  }

  lemma LowFourOf(h: nat, l: nat)
    requires l < 16
    ensures var b := h * 16 + l; b / 8 % 2 == l / 8 && b / 4 % 2 == l / 4 % 2 && b / 2 % 2 == l / 2 % 2 && b % 2 == l % 2
  {
    QuartersOf(h, l);
    SameBit(h * 8, l); SameBit(h * 4, l / 2); SameBit(h * 2, l / 4); SameBit(h, l / 8);
  }

  lemma QuartersOf(h: nat, l: nat)
    ensures var b := h * 16 + l; b / 2 == 2 * (h * 4) + l / 2 && b / 4 == 2 * (h * 2) + l / 4 && b / 8 == 2 * h + l / 8
  {}

  lemma HighTwo(c: byte)
    ensures [c / 64 / 2, c / 64 % 2] == ByteBits(c)[..2]
  {
    assert c / 64 / 2 == c / 128;
  }

  lemma LowSixBits(c: byte)
    ensures [c % 64 / 32 % 2, c % 64 / 16 % 2, c % 64 / 8 % 2, c % 64 / 4 % 2, c % 64 / 2 % 2, c % 64 % 2] == ByteBits(c)[2..]
  {
    var h, l := c / 64, c % 64;
    SameBit(h * 32, l); SameBit(h * 16, l / 2); SameBit(h * 8, l / 4);
    SameBit(h * 4, l / 8); SameBit(h * 2, l / 16); SameBit(h, l / 32);
    HalvesOf(h, l);
  }

  lemma HalvesOf(h: nat, l: nat)
    ensures var c := h * 64 + l;
      c / 2 == 2 * (h * 16) + l / 2 && c / 4 == 2 * (h * 8) + l / 4 && c / 8 == 2 * (h * 4) + l / 8
      && c / 16 == 2 * (h * 2) + l / 16 && c / 32 == 2 * h + l / 32
  {}

  lemma SameBit(h: nat, l: nat)
    ensures (2 * h + l) % 2 == l % 2
  {}

  /** Three bytes' bits, six at a time, are the encoder's four digits. */
  lemma DigitBits(a: byte, b: byte, c: byte)
    ensures var bits, q := ByteBits(a) + ByteBits(b) + ByteBits(c), Quad(a, b, c);
      Six(bits[..6]) == q[0] && Six(bits[6..12]) == q[1] && Six(bits[12..18]) == q[2] && Six(bits[18..]) == q[3]
  {
    hide ByteBits, Six;
    var bits := ByteBits(a) + ByteBits(b) + ByteBits(c);
    Eight(a); Eight(b); Eight(c);
    HighSix(a); SixBits(a / 4);
    LowTwo(a); HighFour(b); TwoAndFour(a % 4, b / 16);
    LowFour(b); HighTwo(c); FourAndTwo(b % 16, c / 64);
    LowSixBits(c); SixBits(c % 64);
    assert bits[..6] == ByteBits(a)[..6];
    assert bits[6..12] == ByteBits(a)[6..] + ByteBits(b)[..4];
    assert bits[12..18] == ByteBits(b)[4..] + ByteBits(c)[..2];
    assert bits[18..] == ByteBits(c)[2..];
    var a4, b16, b15, c64 := a % 4, b / 16, b % 16, c / 64;
    assert [a4 / 2, a4 % 2] + [b16 / 8, b16 / 4 % 2, b16 / 2 % 2, b16 % 2] ==
           [a4 / 2, a4 % 2, b16 / 8, b16 / 4 % 2, b16 / 2 % 2, b16 % 2];
    assert [b15 / 8, b15 / 4 % 2, b15 / 2 % 2, b15 % 2] + [c64 / 2, c64 % 2] ==
           [b15 / 8, b15 / 4 % 2, b15 / 2 % 2, b15 % 2, c64 / 2, c64 % 2];
  }

  lemma Eight(a: nat)
    ensures |ByteBits(a)| == 8
  {}

  lemma SextetsOfGroup(a: byte, b: byte, c: byte, rest: seq<nat>)
    ensures Sextets(ByteBits(a) + ByteBits(b) + ByteBits(c) + rest) == Quad(a, b, c) + Sextets(rest)
  {
    hide ByteBits, Six, Sextets, Quad;
    Eight(a); Eight(b); Eight(c);
    DigitBits(a, b, c);
    FourOf(a, b, c);
    var q := Quad(a, b, c);
    FourSextets(ByteBits(a) + ByteBits(b) + ByteBits(c), rest);
    assert Quad(a, b, c) == [q[0], q[1], q[2], q[3]];
  }

  lemma FourSextets(g: seq<nat>, rest: seq<nat>)
    requires |g| == 24
    ensures Sextets(g + rest) == [Six(g[..6]), Six(g[6..12]), Six(g[12..18]), Six(g[18..])] + Sextets(rest)
  {
    hide Six, Sextets;
    var s0, s1, s2, s3 := g[..6], g[6..12], g[12..18], g[18..];
    assert g + rest == s0 + (s1 + (s2 + (s3 + rest)));
    SixFirst(s0, s1 + (s2 + (s3 + rest)));
    SixFirst(s1, s2 + (s3 + rest));
    SixFirst(s2, s3 + rest);
    SixFirst(s3, rest);
  }

  lemma SixFirst(six: seq<nat>, rest: seq<nat>)
    requires |six| == 6
    ensures Sextets(six + rest) == [Six(six)] + Sextets(rest)
  {
    assert (six + rest)[..6] == six && (six + rest)[6..] == rest;
  }

  /** Two bytes, or one, left over: the digits of the group filled with zero bytes, cut where only filling follows. */
  lemma SextetsOfTwo(a: byte, b: byte)
    ensures Sextets(ByteBits(a) + ByteBits(b)) == Quad(a, b, 0)[..3]
  {
    hide ByteBits, Six;
    Eight(a); Eight(b); Eight(0);
    DigitBits(a, b, 0);
    var g, z := ByteBits(a) + ByteBits(b), ByteBits(0);
    ZeroBits();
    var last := g[12..];
    SixFirst(g[..6], g[6..]);
    SixFirst(g[6..12], last);
    assert g == g[..6] + g[6..] && g[6..] == g[6..12] + last;
    assert (g + z)[..6] == g[..6] && (g + z)[6..12] == g[6..12];
    assert (g + z)[12..18] == last + seq(2, i => 0);
    assert Sextets(last) == [Six(last + seq(2, i => 0))];
  }

  lemma SextetsOfOne(a: byte)
    ensures Sextets(ByteBits(a)) == Quad(a, 0, 0)[..2]
  {
    hide ByteBits, Six;
    Eight(a); Eight(0);
    DigitBits(a, 0, 0);
    var g, z := ByteBits(a), ByteBits(0) + ByteBits(0);
    ZeroBits();
    var last := g[6..];
    SixFirst(g[..6], last);
    assert g == g[..6] + last;
    assert ByteBits(a) + ByteBits(0) + ByteBits(0) == g + z;
    assert (g + z)[..6] == g[..6] && (g + z)[6..12] == last + seq(4, i => 0);
    assert Sextets(last) == [Six(last + seq(4, i => 0))];
  }

  lemma ZeroBits()
    ensures ByteBits(0) == seq(8, i => 0)
  {}

  /** What the encoder writes is the encoding of section 4 of RFC 4648. */
  lemma {:induction false} EncodeFollowsRfc(data: seq<byte>)
    ensures FollowsRfc(data, Encode(data))
  {
    hide ByteBits, Six, CharOf, Sextets, BitsOf;
    if |data| >= 3 {
      var rest := data[3..];
      EncodeFollowsRfc(rest);
      BitsOfThree(data);
      SextetsOfGroup(data[0], data[1], data[2], BitsOf(rest));
    } else if |data| == 2 {
      BitsOfFirst(data); BitsOfFirst(data[1..]); BitsOfNone();
      assert data[1..][1..] == [];
      assert BitsOf(data) == ByteBits(data[0]) + ByteBits(data[1]);
      SextetsOfTwo(data[0], data[1]);
    } else if |data| == 1 {
      BitsOfFirst(data); BitsOfNone();
      assert data[1..] == [];
      assert BitsOf(data) == ByteBits(data[0]);
      SextetsOfOne(data[0]);
    } else {
      BitsOfNone();
      NoSextets();
    }
  }

  lemma NoSextets()
    ensures Sextets([]) == []
  {}

  lemma BitsOfThree(data: seq<byte>)
    requires |data| >= 3
    ensures BitsOf(data) == ByteBits(data[0]) + ByteBits(data[1]) + ByteBits(data[2]) + BitsOf(data[3..])
  {
    hide ByteBits, BitsOf;
    BitsOfFirst(data);
    BitsOfFirst(data[1..]);
    BitsOfFirst(data[2..]);
    assert data[1..][1..] == data[2..] && data[2..][1..] == data[3..];
    Reassociate(ByteBits(data[0]), ByteBits(data[1]), ByteBits(data[2]), BitsOf(data[3..]));
  }

  lemma Reassociate(a: seq<nat>, b: seq<nat>, c: seq<nat>, d: seq<nat>)
    ensures a + (b + (c + d)) == a + b + c + d
  {}

  lemma BitsOfFirst(data: seq<byte>)
    requires data != []
    ensures BitsOf(data) == ByteBits(data[0]) + BitsOf(data[1..])
  {}

  lemma BitsOfNone()
    ensures BitsOf([]) == []
  {}
}
