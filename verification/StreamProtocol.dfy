/** The worker-socket wire format: the 24-byte header and the TLV payloads of HELLO, EVENT and STATS. */
module StreamProtocol {
  import opened Common

  const PROTOCOL_VERSION: byte := 1
  const HEADER_SIZE: nat := 24
  const HEADER_LENGTH_BYTES: u32 := 20
  const MAX_MESSAGE_LENGTH: u32 := 32 * 1024 * 1024
  const CODEC_ID_NONE: u32 := 0

  // Message types
  const HELLO: byte := 0x01
  const MEDIA: byte := 0x02
  const KEYFRAME: byte := 0x03
  const STATS: byte := 0x04
  const EVENT: byte := 0x06
  const SUBSCRIBE: byte := 0x10
  const COMMAND: byte := 0x11
  const RESPONSE: byte := 0x12

  // Stream ids
  const VIDEO: byte := 0
  const AUDIO: byte := 1
  const MONITOR: byte := 2

  const FLAG_KEYFRAME: byte := 1

  // HELLO tags run from CODEC_ID to LEVEL; all are u32 but EXTRADATA.
  const TLV_CODEC_ID: byte := 0x01
  const TLV_EXTRADATA: byte := 0x02
  const TLV_WIDTH: byte := 0x03
  const TLV_HEIGHT: byte := 0x04
  const TLV_FPS_NUM: byte := 0x05
  const TLV_FPS_DEN: byte := 0x06
  const TLV_SAMPLE_RATE: byte := 0x07
  const TLV_CHANNELS: byte := 0x08
  const TLV_PROFILE: byte := 0x09
  const TLV_LEVEL: byte := 0x0A

  // EVENT tags
  const TLV_WALL_CLOCK: byte := 0x01
  const TLV_MESSAGE: byte := 0x02
  const TLV_STATE_ID: byte := 0x03
  const TLV_PREV_STATE_ID: byte := 0x04
  const TLV_DETAIL: byte := 0x05
  const TLV_STATE_NAME: byte := 0x06
  const TLV_HEALTH_CODE: byte := 0x07
  const TLV_JSON_DETAIL: byte := 0x10

  // ----- little-endian integers -----

  function PutU16(v: u16): seq<byte> { [v % 0x100, v / 0x100] }

  function PutU32(v: u32): seq<byte> { [v % 0x100, v / 0x100 % 0x100, v / 0x1_0000 % 0x100, v / 0x100_0000] }

  function PutU64(v: u64): seq<byte> { PutU32(v % 0x1_0000_0000) + PutU32(v / 0x1_0000_0000) }

  function GetU16(s: seq<byte>): u16
    requires |s| >= 2
  {
    s[0] as int + s[1] as int * 0x100
  }

  function GetU32(s: seq<byte>): u32
    requires |s| >= 4
  {
    s[0] as int + s[1] as int * 0x100 + s[2] as int * 0x1_0000 + s[3] as int * 0x100_0000
  }

  function GetU64(s: seq<byte>): u64
    requires |s| >= 8
  {
    GetU32(s) + GetU32(s[4..]) * 0x1_0000_0000
  }

  lemma U16RoundTrip(v: u16, tail: seq<byte>)
    ensures GetU16(PutU16(v) + tail) == v
  {}

  lemma U32RoundTrip(v: u32, tail: seq<byte>)
    ensures GetU32(PutU32(v) + tail) == v
  {
    var a, b, c := v / 0x100, v / 0x1_0000, v / 0x100_0000;
    assert b == a / 0x100 && c == b / 0x100;
  }

  lemma U64RoundTrip(v: u64, tail: seq<byte>)
    ensures GetU64(PutU64(v) + tail) == v
  {
    var lo, hi := v % 0x1_0000_0000, v / 0x1_0000_0000;
    assert PutU64(v) + tail == PutU32(lo) + (PutU32(hi) + tail);
    U32RoundTrip(lo, PutU32(hi) + tail);
    U32RoundTrip(hi, tail);
    assert (PutU64(v) + tail)[4..] == PutU32(hi) + tail;
  }

  lemma U32Surjective(s: seq<byte>)
    requires |s| >= 4
    ensures PutU32(GetU32(s)) == s[..4]
  {
    FourBytes(s[0], s[1], s[2], s[3]);
  }

  lemma FourBytes(a: byte, b: byte, c: byte, d: byte)
    ensures var v := a + b * 0x100 + c * 0x1_0000 + d * 0x100_0000;
      v % 0x100 == a && v / 0x100 % 0x100 == b && v / 0x1_0000 % 0x100 == c && v / 0x100_0000 == d
  {
    var v := a + b * 0x100 + c * 0x1_0000 + d * 0x100_0000;
    assert v / 0x100 == b + c * 0x100 + d * 0x1_0000;
    assert v / 0x1_0000 == c + d * 0x100;
  }

  lemma U64Surjective(s: seq<byte>)
    requires |s| >= 8
    ensures PutU64(GetU64(s)) == s[..8]
  {
    U32Surjective(s);
    U32Surjective(s[4..]);
    assert GetU64(s) % 0x1_0000_0000 == GetU32(s) && GetU64(s) / 0x1_0000_0000 == GetU32(s[4..]);
    assert s[..8] == s[..4] + s[4..][..4];
  }

  // ----- header -----

  datatype Header = Header(length: u32, version: byte, kind: byte, stream: byte, flags: byte,
                           sequence: u32, generation: u32, pts: u64)
  {
    predicate Acceptable() {
      version == PROTOCOL_VERSION && HEADER_LENGTH_BYTES <= length <= MAX_MESSAGE_LENGTH
    }

    function PayloadSize(): nat
      requires Acceptable()
    {
      length - HEADER_LENGTH_BYTES
    }
  }

  function HeaderBytes(h: Header): (s: seq<byte>)
    ensures |s| == HEADER_SIZE
  {
    PutU32(h.length) + [h.version, h.kind, h.stream, h.flags] + PutU32(h.sequence) + PutU32(h.generation) + PutU64(h.pts)
  }

  function HeaderOf(s: seq<byte>): Header
    requires |s| >= HEADER_SIZE
  {
    Header(GetU32(s), s[4], s[5], s[6], s[7], GetU32(s[8..]), GetU32(s[12..]), GetU64(s[16..]))
  }

  function ParseHeader(s: seq<byte>): Option<Header>
    requires |s| >= HEADER_SIZE
  {
    var h := HeaderOf(s);
    if h.Acceptable() then Some(h) else None
  }

  method PutU32At(out: array<byte>, pos: nat, v: u32)
    requires pos + 4 <= out.Length
    modifies out
    ensures out[pos..pos + 4] == PutU32(v)
    ensures forall i | 0 <= i < out.Length && !(pos <= i < pos + 4) :: out[i] == old(out[i])
  {
    out[pos], out[pos + 1], out[pos + 2], out[pos + 3] := v % 0x100, v / 0x100 % 0x100, v / 0x1_0000 % 0x100, v / 0x100_0000;
  }

  method SerializeHeader(h: Header, out: array<byte>)
    requires out.Length >= HEADER_SIZE
    modifies out
    ensures out[..] == HeaderBytes(h) + old(out[HEADER_SIZE..])
  {
    hide PutU32;
    PutU32At(out, 0, h.length);
    out[4], out[5], out[6], out[7] := h.version, h.kind, h.stream, h.flags;
    PutU32At(out, 8, h.sequence);
    PutU32At(out, 12, h.generation);
    PutU32At(out, 16, h.pts % 0x1_0000_0000);
    PutU32At(out, 20, h.pts / 0x1_0000_0000);
    assert out[4..8] == [h.version, h.kind, h.stream, h.flags];
    assert out[..24] == out[0..4] + out[4..8] + out[8..12] + out[12..16] + (out[16..20] + out[20..24]);
    assert out[..] == out[..24] + out[24..];
  }

  /** Parsing what was serialized gives the header back exactly when it is one the parser accepts. */
  lemma HeaderRoundTrip(h: Header, tail: seq<byte>)
    ensures ParseHeader(HeaderBytes(h) + tail) == if h.Acceptable() then Some(h) else None
  {
    var s := HeaderBytes(h) + tail;
    var t16 := PutU64(h.pts) + tail;
    var t12 := PutU32(h.generation) + t16;
    var t8 := PutU32(h.sequence) + t12;
    assert s[8..] == t8 && s[12..] == t12 && s[16..] == t16;
    assert s == PutU32(h.length) + s[4..];
    U32RoundTrip(h.length, s[4..]);
    U32RoundTrip(h.sequence, t12);
    U32RoundTrip(h.generation, t16);
    U64RoundTrip(h.pts, tail);
  }

  /** A number's four bytes, the lowest first. */
  predicate Little(s: seq<byte>, at: nat, v: int)
    requires at + 4 <= |s|
  {
    s[at] as int + s[at + 1] as int * 0x100 + s[at + 2] as int * 0x1_0000 + s[at + 3] as int * 0x100_0000 == v
  }

  lemma PutIsLittle(v: u32)
    ensures Little(PutU32(v), 0, v)
  {
    assert v / 0x100 / 0x100 == v / 0x1_0000 && v / 0x1_0000 / 0x100 == v / 0x100_0000;
  }

  lemma LittleIn(s: seq<byte>, at: nat, bytes: seq<byte>, v: u32)
    requires at + 4 <= |s| && bytes == PutU32(v) && s[at..at + 4] == bytes
    ensures Little(s, at, v)
  {
    PutIsLittle(v);
    assert forall k | 0 <= k < 4 :: s[at + k] == s[at..at + 4][k] == bytes[k];
    assert s[at] == bytes[0] && s[at + 1] == bytes[1] && s[at + 2] == bytes[2] && s[at + 3] == bytes[3];
  }

  /** Where each field lies on the wire. */
  lemma HeaderLayout(h: Header)
    ensures var s := HeaderBytes(h);
      && s[4] == h.version && s[5] == h.kind && s[6] == h.stream && s[7] == h.flags
      && Little(s, 0, h.length) && Little(s, 8, h.sequence) && Little(s, 12, h.generation)
      && Little(s, 16, h.pts % 0x1_0000_0000) && Little(s, 20, h.pts / 0x1_0000_0000)
  {
    hide Little;
    LittleIn(HeaderBytes(h), 0, PutU32(h.length), h.length);
    LittleIn(HeaderBytes(h), 8, PutU32(h.sequence), h.sequence);
    LittleIn(HeaderBytes(h), 12, PutU32(h.generation), h.generation);
    LittleIn(HeaderBytes(h), 16, PutU32(h.pts % 0x1_0000_0000), h.pts % 0x1_0000_0000);
    LittleIn(HeaderBytes(h), 20, PutU32(h.pts / 0x1_0000_0000), h.pts / 0x1_0000_0000);
  }

  /** A header is taken exactly when its version byte is 1 and its length lies between 20 and 32 MiB. */
  lemma AcceptedIff(s: seq<byte>, length: int)
    requires |s| >= 24 && Little(s, 0, length)
    ensures ParseHeader(s).Some? <==> s[4] == 1 && 20 <= length <= 33554432
    ensures ParseHeader(s).Some? ==> ParseHeader(s).value.kind == s[5] && ParseHeader(s).value.PayloadSize() == length - 20
  {}

  /** Every 24 bytes are the serialization of the header read from them. */
  lemma HeaderBytesOfHeader(s: seq<byte>)
    requires |s| >= HEADER_SIZE
    ensures HeaderBytes(HeaderOf(s)) == s[..HEADER_SIZE]
  {
    U32Surjective(s);
    U32Surjective(s[8..]);
    U32Surjective(s[12..]);
    U64Surjective(s[16..]);
    assert s[..24] == s[..4] + s[4..8] + s[8..][..4] + s[12..][..4] + s[16..][..8];
  }

  // ----- TLV lists -----

  datatype Tlv = Tlv(tag: byte, value: seq<byte>) {
    predicate Fits() { |value| <= 0xffff }
  }

  predicate AllFit(ts: seq<Tlv>) { forall t | t in ts :: t.Fits() }

  function EncodeTlv(t: Tlv): seq<byte>
    requires t.Fits()
  {
    [t.tag] + PutU16(|t.value|) + t.value
  }

  /** A TLV on the wire: its tag, its length in two bytes, the lower first, and its value. */
  lemma TlvLayout(t: Tlv)
    requires t.Fits()
    ensures var s := EncodeTlv(t); s[0] == t.tag && s[1] as int + s[2] as int * 0x100 == |t.value| && s[3..] == t.value
  {}

  function EncodeTlvs(ts: seq<Tlv>): seq<byte>
    requires AllFit(ts)
  {
    if ts == [] then [] else EncodeTlv(ts[0]) + EncodeTlvs(ts[1..])
  }

  /** The bytes start with a whole TLV: three bytes of tag and length, then that many bytes of value. */
  predicate Whole(s: seq<byte>) { |s| >= 3 && |s| - 3 >= GetU16(s[1..]) }

  function HeadTlv(s: seq<byte>): Tlv
    requires Whole(s)
  {
    Tlv(s[0], s[3..3 + GetU16(s[1..])])
  }

  function AfterHead(s: seq<byte>): seq<byte>
    requires Whole(s)
  {
    s[3 + GetU16(s[1..])..]
  }

  function Prepend(ts: seq<Tlv>, r: Option<seq<Tlv>>): Option<seq<Tlv>> {
    if r.None? then None else Some(ts + r.value)
  }

  function DecodeTlvs(s: seq<byte>): Option<seq<Tlv>> {
    if s == [] then Some([])
    else if !Whole(s) then None
    else Prepend([HeadTlv(s)], DecodeTlvs(AfterHead(s)))
  }

  lemma {:induction false} EncodeConcat(a: seq<Tlv>, b: seq<Tlv>)
    requires AllFit(a) && AllFit(b)
    ensures AllFit(a + b) && EncodeTlvs(a + b) == EncodeTlvs(a) + EncodeTlvs(b)
  {
    if a == [] {
      assert a + b == b;
    } else {
      EncodeConcat(a[1..], b);
      assert (a + b)[1..] == a[1..] + b;
    }
  }

  lemma EncodeOne(t: Tlv)
    requires t.Fits()
    ensures AllFit([t]) && EncodeTlvs([t]) == EncodeTlv(t)
  {
    assert EncodeTlvs([t]) == EncodeTlv(t) + EncodeTlvs([]);
  }

  lemma HeadOfEncoded(t: Tlv, rest: seq<byte>)
    requires t.Fits()
    ensures var s := EncodeTlv(t) + rest; Whole(s) && HeadTlv(s) == t && AfterHead(s) == rest
  {
    var s := EncodeTlv(t) + rest;
    assert s[1..] == PutU16(|t.value|) + (t.value + rest);
    U16RoundTrip(|t.value|, t.value + rest);
  }

  lemma HeadEncodes(s: seq<byte>)
    requires Whole(s)
    ensures HeadTlv(s).Fits() && s == EncodeTlv(HeadTlv(s)) + AfterHead(s)
  {
    var len := GetU16(s[1..]);
    assert PutU16(len) == s[1..3];
  }

  lemma DecodeCons(t: Tlv, rest: seq<byte>)
    requires t.Fits()
    ensures DecodeTlvs(EncodeTlv(t) + rest) == Prepend([t], DecodeTlvs(rest))
  {
    HeadOfEncoded(t, rest);
  }

  lemma PrependPrepend(a: seq<Tlv>, b: seq<Tlv>, r: Option<seq<Tlv>>)
    ensures Prepend(a, Prepend(b, r)) == Prepend(a + b, r)
  {
    if r.Some? { assert a + (b + r.value) == a + b + r.value; }
  }

  lemma PrependNothing(r: Option<seq<Tlv>>)
    ensures Prepend([], r) == r
  {
    if r.Some? { assert [] + r.value == r.value; }
  }

  lemma {:induction false} DecodeAfter(done: seq<Tlv>, rest: seq<byte>)
    requires AllFit(done)
    ensures DecodeTlvs(EncodeTlvs(done) + rest) == Prepend(done, DecodeTlvs(rest))
  {
    hide DecodeTlvs, EncodeTlv, Prepend;
    if done == [] {
      assert EncodeTlvs(done) + rest == rest;
      PrependNothing(DecodeTlvs(rest));
    } else {
      var first, others := done[0], done[1..];
      DecodeAfter(others, rest);
      DecodeCons(first, EncodeTlvs(others) + rest);
      PrependPrepend([first], others, DecodeTlvs(rest));
      assert [first] + others == done;
      assert EncodeTlvs(done) + rest == EncodeTlv(first) + (EncodeTlvs(others) + rest);
    }
  }

  /** Decoding an encoded list gives the list back ... */
  lemma DecodeEncode(ts: seq<Tlv>)
    requires AllFit(ts)
    ensures DecodeTlvs(EncodeTlvs(ts)) == Some(ts)
  {
    DecodeAfter(ts, []);
    assert EncodeTlvs(ts) + [] == EncodeTlvs(ts) && ts + [] == ts;
  }

  /** ... and whatever bytes decode are the encoding of what they decode to. */
  lemma {:induction false} EncodeDecode(s: seq<byte>)
    requires DecodeTlvs(s).Some?
    ensures AllFit(DecodeTlvs(s).value) && EncodeTlvs(DecodeTlvs(s).value) == s
  {
    if s != [] {
      EncodeDecode(AfterHead(s));
      HeadEncodes(s);
      var rest := DecodeTlvs(AfterHead(s)).value;
      assert DecodeTlvs(s).value[1..] == rest;
    }
  }

  /** The value of the last TLV with this tag: later ones overwrite earlier ones. */
  function LastValue(ts: seq<Tlv>, tag: byte): Option<seq<byte>> {
    if ts == [] then None
    else if Last(ts).tag == tag then Some(Last(ts).value)
    else LastValue(Front(ts), tag)
  }

  lemma {:induction false} LastValueConcat(a: seq<Tlv>, b: seq<Tlv>, tag: byte)
    ensures LastValue(a + b, tag) == if LastValue(b, tag).Some? then LastValue(b, tag) else LastValue(a, tag)
  {
    if b == [] {
      assert a + b == a;
    } else {
      assert Last(a + b) == Last(b) && Front(a + b) == a + Front(b);
      LastValueConcat(a, Front(b), tag);
    }
  }

  // ----- optional fields, at most one per tag -----

  datatype Field = Field(tag: byte, value: Option<seq<byte>>)

  ghost predicate FieldsOk(fs: seq<Field>) {
    && (forall i | 0 <= i < |fs| :: fs[i].value.Some? ==> |fs[i].value.value| <= 0xffff)
    && (forall i, j | 0 <= i < j < |fs| :: fs[i].tag != fs[j].tag)
  }

  /** The TLVs of the fields that are present. */
  function Present(fs: seq<Field>): seq<Tlv> {
    if fs == [] then []
    else Present(Front(fs)) + (match Last(fs).value case None => [] case Some(v) => [Tlv(Last(fs).tag, v)])
  }

  lemma LastValueSnoc(ts: seq<Tlv>, t: Tlv)
    ensures forall tag :: LastValue(ts + [t], tag) == if t.tag == tag then Some(t.value) else LastValue(ts, tag)
  {
    assert Front(ts + [t]) == ts;
  }

  lemma {:induction false} PresentFits(fs: seq<Field>)
    requires FieldsOk(fs)
    ensures AllFit(Present(fs))
  {
    if fs != [] { PresentFits(Front(fs)); }
  }

  lemma {:induction false} AbsentTag(fs: seq<Field>, tag: byte)
    requires forall k | 0 <= k < |fs| :: fs[k].tag != tag
    ensures LastValue(Present(fs), tag) == None
  {
    if fs != [] {
      hide Present, LastValue;
      AbsentTag(Front(fs), tag);
      PresentSnoc(Front(fs), Last(fs));
      assert Front(fs) + [Last(fs)] == fs && fs[|fs| - 1] == Last(fs);
    }
  }

  lemma {:induction false} FieldBack(fs: seq<Field>, k: nat)
    requires FieldsOk(fs) && k < |fs|
    ensures LastValue(Present(fs), fs[k].tag) == fs[k].value
  {
    hide Present, LastValue;
    var before, f := Front(fs), Last(fs);
    PresentSnoc(before, f);
    assert before + [f] == fs;
    if k < |before| { FieldBack(before, k); } else { AbsentTag(before, f.tag); }
  }

  /** Each field is read back from the list, and no other tag is there. */
  lemma PresentValues(fs: seq<Field>)
    requires FieldsOk(fs)
    ensures forall k | 0 <= k < |fs| :: LastValue(Present(fs), fs[k].tag) == fs[k].value
    ensures forall tag | (forall k | 0 <= k < |fs| :: fs[k].tag != tag) :: LastValue(Present(fs), tag) == None
  {
    hide *;
    forall k | 0 <= k < |fs| ensures LastValue(Present(fs), fs[k].tag) == fs[k].value { FieldBack(fs, k); }
    forall tag: byte | forall k | 0 <= k < |fs| :: fs[k].tag != tag ensures LastValue(Present(fs), tag) == None { AbsentTag(fs, tag); }
  }

  lemma PresentSnoc(fs: seq<Field>, f: Field)
    ensures forall tag :: LastValue(Present(fs + [f]), tag) ==
                          (if f.value.Some? && f.tag == tag then f.value else LastValue(Present(fs), tag))
  {
    assert Front(fs + [f]) == fs;
    if f.value.Some? {
      LastValueSnoc(Present(fs), Tlv(f.tag, f.value.value));
    } else {
      assert Present(fs) + [] == Present(fs);
    }
  }

  /** One loop turn of the parsers: the TLV at pos, after those before it were read. */
  lemma DecodeAt(s: seq<byte>, pos: nat, done: seq<Tlv>)
    requires pos < |s| && AllFit(done) && EncodeTlvs(done) == s[..pos]
    ensures !Whole(s[pos..]) ==> DecodeTlvs(s) == None
    ensures Whole(s[pos..]) ==>
      var t := HeadTlv(s[pos..]);
      t.Fits() && AllFit(done + [t]) && EncodeTlvs(done + [t]) == s[..pos + 3 + |t.value|]
  {
    var rest := s[pos..];
    DecodeAfter(done, rest);
    assert s == s[..pos] + rest;
    if Whole(rest) {
      var t := HeadTlv(rest);
      HeadEncodes(rest);
      EncodeOne(t);
      EncodeConcat(done, [t]);
      assert s[..pos + 3 + |t.value|] == s[..pos] + rest[..3 + |t.value|];
    }
  }
}
