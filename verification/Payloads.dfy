/** HELLO, EVENT and STATS payloads: builders and parsers over TLV lists, and their round trips. */
module Payloads {
  import opened Common
  import opened StreamProtocol

  // ----- HELLO -----

  datatype HelloParams = HelloParams(codecId: u32, extradata: seq<byte>, width: u32, height: u32,
                                     fpsNum: u32, fpsDen: u32, sampleRate: u32, channels: u32)

  datatype HelloInfo = HelloInfo(codecId: u32, extradata: seq<byte>, width: u32, height: u32, fpsNum: u32,
                                 fpsDen: u32, sampleRate: u32, channels: u32, profile: u32, level: u32)

  function Clamp(s: seq<byte>): seq<byte> {
    if |s| > 0xffff then s[..0xffff] else s
  }

  function Num(tag: byte, v: u32): Field { Field(tag, Some(PutU32(v))) }

  function NumIf(c: bool, tag: byte, v: u32): Field { Field(tag, if c then Some(PutU32(v)) else None) }

  function TextIfSet(tag: byte, s: seq<byte>): Field { Field(tag, if s != [] then Some(Clamp(s)) else None) }

  /** What a 16-bit length can count is kept: the longest part from the front of at most 65535 bytes. */
  lemma ClampLongest(s: seq<byte>, n: nat)
    requires n <= |s| && n <= 65535
    ensures n <= |Clamp(s)| <= 65535 && Clamp(s) == s[..|Clamp(s)|]
  {}

  function HelloFields(p: HelloParams): (fs: seq<Field>)
    ensures FieldsOk(fs)
  {
    var fps := p.fpsNum > 0 && p.fpsDen > 0;
    [Num(TLV_CODEC_ID, p.codecId), TextIfSet(TLV_EXTRADATA, p.extradata), NumIf(p.width > 0, TLV_WIDTH, p.width),
     NumIf(p.height > 0, TLV_HEIGHT, p.height), NumIf(fps, TLV_FPS_NUM, p.fpsNum), NumIf(fps, TLV_FPS_DEN, p.fpsDen),
     NumIf(p.sampleRate > 0, TLV_SAMPLE_RATE, p.sampleRate), NumIf(p.channels > 0, TLV_CHANNELS, p.channels)]
  }

  /** The tag each parameter is written under. */
  lemma HelloTags(p: HelloParams)
    ensures var ts := Present(HelloFields(p));
      && LastValue(ts, 1) == Some(PutU32(p.codecId))
      && LastValue(ts, 2) == (if p.extradata == [] then None else Some(Clamp(p.extradata)))
      && LastValue(ts, 3) == (if p.width == 0 then None else Some(PutU32(p.width)))
      && LastValue(ts, 4) == (if p.height == 0 then None else Some(PutU32(p.height)))
      && LastValue(ts, 5) == (if p.fpsNum == 0 || p.fpsDen == 0 then None else Some(PutU32(p.fpsNum)))
      && LastValue(ts, 6) == (if p.fpsNum == 0 || p.fpsDen == 0 then None else Some(PutU32(p.fpsDen)))
      && LastValue(ts, 7) == (if p.sampleRate == 0 then None else Some(PutU32(p.sampleRate)))
      && LastValue(ts, 8) == (if p.channels == 0 then None else Some(PutU32(p.channels)))
  {
    hide Present, LastValue, PutU32, Clamp;
    var fs := HelloFields(p);
    PresentValues(fs);
    assert fs[0].tag == 1 && fs[1].tag == 2 && fs[2].tag == 3 && fs[3].tag == 4;
    assert fs[4].tag == 5 && fs[5].tag == 6 && fs[6].tag == 7 && fs[7].tag == 8;
  }

  ghost predicate Holds(out: seq<byte>, fs: seq<Field>) {
    FieldsOk(fs) && AllFit(Present(fs)) && out == EncodeTlvs(Present(fs))
  }

  /** out holds the first n of the fields. */
  ghost predicate Built(out: seq<byte>, fs: seq<Field>, n: nat)
    requires n <= |fs|
  {
    FieldsOk(fs) && Holds(out, fs[..n])
  }

  method AppendTlv(out: seq<byte>, ghost fs: seq<Field>, ghost n: nat, tag: byte, value: seq<byte>) returns (r: seq<byte>)
    requires n < |fs| && Built(out, fs, n) && fs[n] == Field(tag, Some(value))
    ensures Built(r, fs, n + 1)
  {
    r := out + [tag] + PutU16(|value|) + value;
    var t := Tlv(tag, value);
    EncodeOne(t);
    EncodeConcat(Present(fs[..n]), [t]);
    assert r == out + EncodeTlv(t);
    assert Front(fs[..n + 1]) == fs[..n];
  }

  lemma SkipField(out: seq<byte>, fs: seq<Field>, n: nat)
    requires n < |fs| && Built(out, fs, n) && fs[n].value == None
    ensures Built(out, fs, n + 1)
  {
    assert Front(fs[..n + 1]) == fs[..n];
    assert Present(fs[..n + 1]) == Present(fs[..n]);
  }

  method AppendNumIf(out: seq<byte>, ghost fs: seq<Field>, ghost n: nat, c: bool, tag: byte, v: u32) returns (r: seq<byte>)
    requires n < |fs| && Built(out, fs, n) && fs[n] == NumIf(c, tag, v)
    ensures Built(r, fs, n + 1)
  {
    r := out;
    if c { r := AppendTlv(out, fs, n, tag, PutU32(v)); } else { SkipField(out, fs, n); }
  }

  method AppendTextIfSet(out: seq<byte>, ghost fs: seq<Field>, ghost n: nat, tag: byte, s: seq<byte>) returns (r: seq<byte>)
    requires n < |fs| && Built(out, fs, n) && fs[n] == TextIfSet(tag, s)
    ensures Built(r, fs, n + 1)
  {
    r := out;
    if s != [] { r := AppendTlv(out, fs, n, tag, Clamp(s)); } else { SkipField(out, fs, n); }
  }

  lemma NothingBuilt(fs: seq<Field>)
    requires FieldsOk(fs)
    ensures Built([], fs, 0)
  {}

  lemma AllBuilt(out: seq<byte>, fs: seq<Field>)
    requires Built(out, fs, |fs|)
    ensures Holds(out, fs)
  {
    assert fs[..|fs|] == fs;
  }

  method BuildHello(p: HelloParams) returns (out: seq<byte>)
    ensures Holds(out, HelloFields(p))
  {
    hide FieldsOk, Holds, Built, PutU32;
    ghost var fs := HelloFields(p);
    var fps := p.fpsNum > 0 && p.fpsDen > 0;
    NothingBuilt(fs);
    out := AppendTlv([], fs, 0, TLV_CODEC_ID, PutU32(p.codecId));
    out := AppendTextIfSet(out, fs, 1, TLV_EXTRADATA, p.extradata);
    out := AppendNumIf(out, fs, 2, p.width > 0, TLV_WIDTH, p.width);
    out := AppendNumIf(out, fs, 3, p.height > 0, TLV_HEIGHT, p.height);
    out := AppendNumIf(out, fs, 4, fps, TLV_FPS_NUM, p.fpsNum);
    out := AppendNumIf(out, fs, 5, fps, TLV_FPS_DEN, p.fpsDen);
    out := AppendNumIf(out, fs, 6, p.sampleRate > 0, TLV_SAMPLE_RATE, p.sampleRate);
    out := AppendNumIf(out, fs, 7, p.channels > 0, TLV_CHANNELS, p.channels);
    AllBuilt(out, fs);
  }

  /** The width a known numeric tag must have. */
  function HelloWidth(tag: byte): Option<nat> {
    if TLV_CODEC_ID <= tag <= TLV_LEVEL && tag != TLV_EXTRADATA then Some(4) else None
  }

  predicate Sized(ts: seq<Tlv>, width: byte -> Option<nat>) {
    forall t | t in ts :: width(t.tag).Some? ==> |t.value| == width(t.tag).value
  }

  /** The number the last TLV with this tag carries; 0, "not present", when none does. */
  function NumOf(ts: seq<Tlv>, tag: byte): u32 {
    var v := LastValue(ts, tag);
    if v.Some? && |v.value| == 4 then GetU32(v.value) else 0
  }

  function TextOf(ts: seq<Tlv>, tag: byte): seq<byte> {
    var v := LastValue(ts, tag);
    if v.Some? then v.value else []
  }

  function InfoOf(ts: seq<Tlv>): HelloInfo {
    HelloInfo(NumOf(ts, TLV_CODEC_ID), TextOf(ts, TLV_EXTRADATA), NumOf(ts, TLV_WIDTH), NumOf(ts, TLV_HEIGHT),
              NumOf(ts, TLV_FPS_NUM), NumOf(ts, TLV_FPS_DEN), NumOf(ts, TLV_SAMPLE_RATE), NumOf(ts, TLV_CHANNELS),
              NumOf(ts, TLV_PROFILE), NumOf(ts, TLV_LEVEL))
  }

  /** What a HELLO payload means: a TLV list, numbers four bytes wide, later TLVs winning, codec id required. */
  function HelloOf(s: seq<byte>): Option<HelloInfo> {
    match DecodeTlvs(s)
    case None => None
    case Some(ts) => if Sized(ts, HelloWidth) && InfoOf(ts).codecId != CODEC_ID_NONE then Some(InfoOf(ts)) else None
  }

  /** A number under a known tag that is not four bytes wide makes the whole HELLO refused, whatever else it holds. */
  lemma HelloRefusesWidth(ts: seq<Tlv>, t: Tlv)
    requires AllFit(ts) && t in ts && 1 <= t.tag <= 10 && t.tag != 2 && |t.value| != 4
    ensures HelloOf(EncodeTlvs(ts)) == None
  {
    hide InfoOf, EncodeTlvs;
    DecodeEncode(ts);
    assert HelloWidth(t.tag) == Some(4);
  }

  /** One loop turn shared by both parsers: the TLV at pos, or false on a truncated one. */
  method ReadTlv(data: seq<byte>, pos: nat, ghost done: seq<Tlv>) returns (ok: bool, tag: byte, value: seq<byte>, next: nat)
    requires pos < |data| && AllFit(done) && EncodeTlvs(done) == data[..pos]
    ensures !ok ==> DecodeTlvs(data) == None
    ensures ok ==> pos < next <= |data| && AllFit(done + [Tlv(tag, value)]) && EncodeTlvs(done + [Tlv(tag, value)]) == data[..next]
    ensures ok ==> DecodeTlvs(data) == Prepend(done + [Tlv(tag, value)], DecodeTlvs(data[next..]))
  {
    DecodeAt(data, pos, done);
    if |data| - pos < 3 { return false, 0, [], 0; }
    var len: int := GetU16(data[pos + 1..]);
    assert data[pos..][1..] == data[pos + 1..];
    if |data| - pos - 3 < len { return false, 0, [], 0; }
    ok, tag, value, next := true, data[pos], data[pos + 3..pos + 3 + len], pos + 3 + len;
    assert HeadTlv(data[pos..]) == Tlv(tag, value);
    DecodeDone(data, next, done + [Tlv(tag, value)]);
  }

  method ParseHello(data: seq<byte>) returns (ok: bool, info: HelloInfo)
    ensures ok == HelloOf(data).Some?
    ensures ok ==> info == HelloOf(data).value
  {
    info := HelloInfo(CODEC_ID_NONE, [], 0, 0, 0, 0, 0, 0, 0, 0);
    var pos := 0;
    ghost var done: seq<Tlv> := [];
    while pos < |data|
      invariant pos <= |data|
      invariant AllFit(done) && EncodeTlvs(done) == data[..pos]
      invariant Sized(done, HelloWidth) && info == InfoOf(done)
    {
      var whole, tag, value, next := ReadTlv(data, pos, done);
      if !whole { return false, info; }
      if HelloWidth(tag) == Some(4) && |value| != 4 {
        BadSize(data, next, done + [Tlv(tag, value)], Tlv(tag, value), HelloWidth);
        return false, info;
      }
      info := SetHelloField(info, tag, value, done);
      done, pos := done + [Tlv(tag, value)], next;
    }
    DecodeDone(data, pos, done);
    ok := info.codecId != CODEC_ID_NONE;
  }

  method SetHelloField(info: HelloInfo, tag: byte, value: seq<byte>, ghost done: seq<Tlv>) returns (r: HelloInfo)
    requires HelloWidth(tag).Some? ==> |value| == 4
    requires info == InfoOf(done)
    ensures r == InfoOf(done + [Tlv(tag, value)])
  {
    LastValueSnoc(done, Tlv(tag, value));
    r := info;
    if tag == TLV_CODEC_ID { r := info.(codecId := GetU32(value)); }
    else if tag == TLV_EXTRADATA { r := info.(extradata := value); }
    else if tag == TLV_WIDTH { r := info.(width := GetU32(value)); }
    else if tag == TLV_HEIGHT { r := info.(height := GetU32(value)); }
    else if tag == TLV_FPS_NUM { r := info.(fpsNum := GetU32(value)); }
    else if tag == TLV_FPS_DEN { r := info.(fpsDen := GetU32(value)); }
    else if tag == TLV_SAMPLE_RATE { r := info.(sampleRate := GetU32(value)); }
    else if tag == TLV_CHANNELS { r := info.(channels := GetU32(value)); }
    else if tag == TLV_PROFILE { r := info.(profile := GetU32(value)); }
    else if tag == TLV_LEVEL { r := info.(level := GetU32(value)); }
  }

  /** TLVs already read are the first ones of the whole list, if the bytes are a list at all. */
  lemma DecodeDone(data: seq<byte>, pos: nat, done: seq<Tlv>)
    requires pos <= |data| && AllFit(done) && EncodeTlvs(done) == data[..pos]
    ensures DecodeTlvs(data) == Prepend(done, DecodeTlvs(data[pos..]))
    ensures pos == |data| ==> DecodeTlvs(data) == Some(done)
  {
    DecodeAfter(done, data[pos..]);
    assert data == data[..pos] + data[pos..];
    assert done + [] == done;
  }

  lemma BadSize(data: seq<byte>, pos: nat, done: seq<Tlv>, t: Tlv, width: byte -> Option<nat>)
    requires pos <= |data| && DecodeTlvs(data) == Prepend(done, DecodeTlvs(data[pos..]))
    requires t in done && width(t.tag).Some? && |t.value| != width(t.tag).value
    ensures DecodeTlvs(data).Some? ==> !Sized(DecodeTlvs(data).value, width)
  {
    if DecodeTlvs(data).Some? { assert t in DecodeTlvs(data).value; }
  }

  function InfoOfParams(p: HelloParams): HelloInfo {
    HelloInfo(p.codecId, Clamp(p.extradata), p.width, p.height, if p.fpsDen > 0 then p.fpsNum else 0,
              if p.fpsNum > 0 then p.fpsDen else 0, p.sampleRate, p.channels, 0, 0)
  }

  /** Parsing a built HELLO gives every field back: extradata cut to 65535 bytes, fps only as a pair,
      and nothing at all exactly when the codec id is "none". */
  lemma HelloRoundTrip(p: HelloParams)
    ensures AllFit(Present(HelloFields(p)))
    ensures HelloOf(EncodeTlvs(Present(HelloFields(p)))) ==
      if p.codecId == CODEC_ID_NONE then None else Some(InfoOfParams(p))
  {
    PresentFits(HelloFields(p));
    DecodeEncode(Present(HelloFields(p)));
    BuiltSized(p);
    BuiltInfo(p);
  }

  lemma BuiltSized(p: HelloParams)
    ensures Sized(Present(HelloFields(p)), HelloWidth)
  {
    PresentSized(HelloFields(p), HelloWidth);
  }

  lemma BuiltInfo(p: HelloParams)
    ensures InfoOf(Present(HelloFields(p))) == InfoOfParams(p)
  {
    var fs := HelloFields(p);
    var fps := p.fpsNum > 0 && p.fpsDen > 0;
    NumBack(fs, 0, true, TLV_CODEC_ID, p.codecId);
    TextBack(fs, 1, TLV_EXTRADATA, p.extradata);
    NumBack(fs, 2, p.width > 0, TLV_WIDTH, p.width);
    NumBack(fs, 3, p.height > 0, TLV_HEIGHT, p.height);
    NumBack(fs, 4, fps, TLV_FPS_NUM, p.fpsNum);
    NumBack(fs, 5, fps, TLV_FPS_DEN, p.fpsDen);
    NumBack(fs, 6, p.sampleRate > 0, TLV_SAMPLE_RATE, p.sampleRate);
    NumBack(fs, 7, p.channels > 0, TLV_CHANNELS, p.channels);
    Absent(fs, TLV_PROFILE);
    Absent(fs, TLV_LEVEL);
  }

  lemma U32Alone(v: u32)
    ensures GetU32(PutU32(v)) == v
  {
    U32RoundTrip(v, []);
    assert PutU32(v) + [] == PutU32(v);
  }

  lemma NumBack(fs: seq<Field>, k: nat, c: bool, tag: byte, v: u32)
    requires FieldsOk(fs) && k < |fs| && fs[k] == NumIf(c, tag, v)
    ensures NumOf(Present(fs), tag) == if c then v else 0
  {
    PresentValues(fs);
    U32Alone(v);
  }

  lemma TextBack(fs: seq<Field>, k: nat, tag: byte, s: seq<byte>)
    requires FieldsOk(fs) && k < |fs| && fs[k] == TextIfSet(tag, s)
    ensures TextOf(Present(fs), tag) == Clamp(s)
  {
    PresentValues(fs);
  }

  lemma Absent(fs: seq<Field>, tag: byte)
    requires FieldsOk(fs) && forall k | 0 <= k < |fs| :: fs[k].tag != tag
    ensures LastValue(Present(fs), tag) == None
  {
    PresentValues(fs);
  }

  lemma {:induction false} PresentSized(fs: seq<Field>, width: byte -> Option<nat>)
    requires forall f | f in fs :: f.value.Some? && width(f.tag).Some? ==> |f.value.value| == width(f.tag).value
    ensures Sized(Present(fs), width)
  {
    if fs != [] { PresentSized(Front(fs), width); }
  }

  /** A TLV with a tag HELLO does not know changes nothing, wherever it is put. */
  lemma UnknownHelloTlvIgnored(a: seq<Tlv>, t: Tlv, b: seq<Tlv>)
    requires AllFit(a) && AllFit(b) && t.Fits() && !(TLV_CODEC_ID <= t.tag <= TLV_LEVEL)
    ensures HelloOf(EncodeTlvs(a + [t] + b)) == HelloOf(EncodeTlvs(a + b))
  {
    var x, y := a + [t] + b, a + b;
    DecodeEncode(x);
    DecodeEncode(y);
    forall tag | tag != t.tag ensures LastValue(x, tag) == LastValue(y, tag) { SkipTlv(a, t, b, tag); }
    SameInfo(x, y);
    SameSized(a, t, b, HelloWidth);
  }

  lemma SameInfo(x: seq<Tlv>, y: seq<Tlv>)
    requires forall tag | TLV_CODEC_ID <= tag <= TLV_LEVEL :: LastValue(x, tag) == LastValue(y, tag)
    ensures InfoOf(x) == InfoOf(y)
  {
    assert forall tag | TLV_CODEC_ID <= tag <= TLV_LEVEL :: NumOf(x, tag) == NumOf(y, tag);
  }

  lemma SameSized(a: seq<Tlv>, t: Tlv, b: seq<Tlv>, width: byte -> Option<nat>)
    requires width(t.tag) == None
    ensures Sized(a + [t] + b, width) == Sized(a + b, width)
  {
    assert forall u :: u in a + b ==> u in a + [t] + b;
    assert forall u :: u in a + [t] + b ==> u == t || u in a + b;
  }

  lemma SkipTlv(a: seq<Tlv>, t: Tlv, b: seq<Tlv>, tag: byte)
    requires tag != t.tag
    ensures LastValue(a + [t] + b, tag) == LastValue(a + b, tag)
  {
    LastValueConcat(a + [t], b, tag);
    LastValueSnoc(a, t);
    LastValueConcat(a, b, tag);
  }

  // ----- EVENT -----

  /** An absent field has no has_* flag set, or an empty string. */
  datatype MonitorEvent = MonitorEvent(code: u16, wallClock: Option<u64>, message: seq<byte>, stateId: Option<u32>,
                                       prevStateId: Option<u32>, detail: Option<u32>, stateName: seq<byte>,
                                       healthCode: Option<u16>, jsonDetail: seq<byte>)

  function Opt16(tag: byte, o: Option<u16>): Field { Field(tag, if o.Some? then Some(PutU16(o.value)) else None) }
  function Opt32(tag: byte, o: Option<u32>): Field { NumIf(o.Some?, tag, if o.Some? then o.value else 0) }
  function Opt64(tag: byte, o: Option<u64>): Field { Field(tag, if o.Some? then Some(PutU64(o.value)) else None) }

  function EventFields(ev: MonitorEvent): (fs: seq<Field>)
    ensures FieldsOk(fs)
  {
    [Opt64(TLV_WALL_CLOCK, ev.wallClock), TextIfSet(TLV_MESSAGE, ev.message), Opt32(TLV_STATE_ID, ev.stateId),
     Opt32(TLV_PREV_STATE_ID, ev.prevStateId), Opt32(TLV_DETAIL, ev.detail), TextIfSet(TLV_STATE_NAME, ev.stateName),
     Opt16(TLV_HEALTH_CODE, ev.healthCode), TextIfSet(TLV_JSON_DETAIL, ev.jsonDetail)]
  }

  /** The tag each field is written under. */
  lemma EventTags(ev: MonitorEvent)
    ensures var ts := Present(EventFields(ev));
      && LastValue(ts, 1) == (if ev.wallClock.None? then None else Some(PutU64(ev.wallClock.value)))
      && LastValue(ts, 2) == (if ev.message == [] then None else Some(Clamp(ev.message)))
      && LastValue(ts, 3) == (if ev.stateId.None? then None else Some(PutU32(ev.stateId.value)))
      && LastValue(ts, 4) == (if ev.prevStateId.None? then None else Some(PutU32(ev.prevStateId.value)))
      && LastValue(ts, 5) == (if ev.detail.None? then None else Some(PutU32(ev.detail.value)))
      && LastValue(ts, 6) == (if ev.stateName == [] then None else Some(Clamp(ev.stateName)))
      && LastValue(ts, 7) == (if ev.healthCode.None? then None else Some(PutU16(ev.healthCode.value)))
      && LastValue(ts, 16) == (if ev.jsonDetail == [] then None else Some(Clamp(ev.jsonDetail)))
  {
    hide Present, LastValue, PutU16, PutU32, PutU64, Clamp;
    var fs := EventFields(ev);
    PresentValues(fs);
    assert fs[0].tag == 1 && fs[1].tag == 2 && fs[2].tag == 3 && fs[3].tag == 4;
    assert fs[4].tag == 5 && fs[5].tag == 6 && fs[6].tag == 7 && fs[7].tag == 16;
  }

  method AppendOpt(out: seq<byte>, ghost fs: seq<Field>, ghost n: nat, tag: byte, value: Option<seq<byte>>) returns (r: seq<byte>)
    requires n < |fs| && Built(out, fs, n) && fs[n] == Field(tag, value)
    ensures Built(r, fs, n + 1)
  {
    r := out;
    if value.Some? { r := AppendTlv(out, fs, n, tag, value.value); } else { SkipField(out, fs, n); }
  }

  method BuildEvent(ev: MonitorEvent) returns (out: seq<byte>)
    ensures |out| >= 2 && out[..2] == PutU16(ev.code) && Holds(out[2..], EventFields(ev))
  {
    var tail := BuildEventTail(ev);
    out := PutU16(ev.code) + tail;
    assert out[2..] == tail;
  }

  method BuildEventTail(ev: MonitorEvent) returns (out: seq<byte>)
    ensures Holds(out, EventFields(ev))
  {
    hide FieldsOk, Holds, Built, PutU16, PutU32, PutU64;
    ghost var fs := EventFields(ev);
    NothingBuilt(fs);
    out := AppendOpt([], fs, 0, TLV_WALL_CLOCK, Opt64(TLV_WALL_CLOCK, ev.wallClock).value);
    out := AppendTextIfSet(out, fs, 1, TLV_MESSAGE, ev.message);
    out := AppendOpt(out, fs, 2, TLV_STATE_ID, Opt32(TLV_STATE_ID, ev.stateId).value);
    out := AppendOpt(out, fs, 3, TLV_PREV_STATE_ID, Opt32(TLV_PREV_STATE_ID, ev.prevStateId).value);
    out := FinishEventTail(ev, out);
  }

  method FinishEventTail(ev: MonitorEvent, half: seq<byte>) returns (out: seq<byte>)
    requires Built(half, EventFields(ev), 4)
    ensures Holds(out, EventFields(ev))
  {
    hide FieldsOk, Holds, Built, PutU16, PutU32, PutU64;
    ghost var fs := EventFields(ev);
    out := AppendOpt(half, fs, 4, TLV_DETAIL, Opt32(TLV_DETAIL, ev.detail).value);
    out := AppendTextIfSet(out, fs, 5, TLV_STATE_NAME, ev.stateName);
    out := AppendOpt(out, fs, 6, TLV_HEALTH_CODE, Opt16(TLV_HEALTH_CODE, ev.healthCode).value);
    out := AppendTextIfSet(out, fs, 7, TLV_JSON_DETAIL, ev.jsonDetail);
    AllBuilt(out, fs);
  }

  function EventWidth(tag: byte): Option<nat> {
    if tag == TLV_WALL_CLOCK then Some(8)
    else if tag in {TLV_STATE_ID, TLV_PREV_STATE_ID, TLV_DETAIL} then Some(4)
    else if tag == TLV_HEALTH_CODE then Some(2)
    else None
  }

  function Value16(ts: seq<Tlv>, tag: byte): Option<u16> {
    var v := LastValue(ts, tag);
    if v.Some? && |v.value| == 2 then Some(GetU16(v.value)) else None
  }

  function Value32(ts: seq<Tlv>, tag: byte): Option<u32> {
    var v := LastValue(ts, tag);
    if v.Some? && |v.value| == 4 then Some(GetU32(v.value)) else None
  }

  function Value64(ts: seq<Tlv>, tag: byte): Option<u64> {
    var v := LastValue(ts, tag);
    if v.Some? && |v.value| == 8 then Some(GetU64(v.value)) else None
  }

  function EventFrom(code: u16, ts: seq<Tlv>): MonitorEvent {
    MonitorEvent(code, Value64(ts, TLV_WALL_CLOCK), TextOf(ts, TLV_MESSAGE), Value32(ts, TLV_STATE_ID),
                 Value32(ts, TLV_PREV_STATE_ID), Value32(ts, TLV_DETAIL), TextOf(ts, TLV_STATE_NAME),
                 Value16(ts, TLV_HEALTH_CODE), TextOf(ts, TLV_JSON_DETAIL))
  }

  /** What an EVENT payload means: a code, then a TLV list, numbers of their width, later TLVs winning. */
  function EventOf(s: seq<byte>): Option<MonitorEvent> {
    if |s| < 2 then None
    else
      match DecodeTlvs(s[2..])
      case None => None
      case Some(ts) => if Sized(ts, EventWidth) then Some(EventFrom(GetU16(s), ts)) else None
  }

  method ParseEvent(data: seq<byte>) returns (ok: bool, ev: MonitorEvent)
    ensures ok == EventOf(data).Some?
    ensures ok ==> ev == EventOf(data).value
  {
    if |data| < 2 { return false, EventFrom(0, []); }
    ok, ev := ParseEventTlvs(GetU16(data), data[2..]);
  }

  method ParseEventTlvs(code: u16, data: seq<byte>) returns (ok: bool, ev: MonitorEvent)
    ensures ok <==> DecodeTlvs(data).Some? && Sized(DecodeTlvs(data).value, EventWidth)
    ensures ok ==> ev == EventFrom(code, DecodeTlvs(data).value)
  {
    ev := MonitorEvent(code, None, [], None, None, None, [], None, []);
    var pos := 0;
    ghost var done: seq<Tlv> := [];
    while pos < |data|
      invariant pos <= |data|
      invariant AllFit(done) && EncodeTlvs(done) == data[..pos]
      invariant Sized(done, EventWidth) && ev == EventFrom(code, done)
    {
      var whole, tag, value, next := ReadTlv(data, pos, done);
      if !whole { return false, ev; }
      if EventWidth(tag).Some? && |value| != EventWidth(tag).value {
        BadSize(data, next, done + [Tlv(tag, value)], Tlv(tag, value), EventWidth);
        return false, ev;
      }
      ev := SetEventField(ev, tag, value, code, done);
      done, pos := done + [Tlv(tag, value)], next;
    }
    DecodeDone(data, pos, done);
    ok := true;
  }

  method SetEventField(ev: MonitorEvent, tag: byte, value: seq<byte>, ghost code: u16, ghost done: seq<Tlv>) returns (r: MonitorEvent)
    requires EventWidth(tag).Some? ==> |value| == EventWidth(tag).value
    requires ev == EventFrom(code, done)
    ensures r == EventFrom(code, done + [Tlv(tag, value)])
  {
    LastValueSnoc(done, Tlv(tag, value));
    r := ev;
    if tag == TLV_WALL_CLOCK { r := ev.(wallClock := Some(GetU64(value))); }
    else if tag == TLV_MESSAGE { r := ev.(message := value); }
    else if tag == TLV_STATE_ID { r := ev.(stateId := Some(GetU32(value))); }
    else if tag == TLV_PREV_STATE_ID { r := ev.(prevStateId := Some(GetU32(value))); }
    else if tag == TLV_DETAIL { r := ev.(detail := Some(GetU32(value))); }
    else if tag == TLV_STATE_NAME { r := ev.(stateName := value); }
    else if tag == TLV_HEALTH_CODE { r := ev.(healthCode := Some(GetU16(value))); }
    else if tag == TLV_JSON_DETAIL { r := ev.(jsonDetail := value); }
  }

  /** Parsing a built EVENT gives every field back, strings cut to 65535 bytes. */
  lemma EventRoundTrip(ev: MonitorEvent)
    ensures AllFit(Present(EventFields(ev)))
    ensures EventOf(PutU16(ev.code) + EncodeTlvs(Present(EventFields(ev)))) ==
      Some(ev.(message := Clamp(ev.message), stateName := Clamp(ev.stateName), jsonDetail := Clamp(ev.jsonDetail)))
  {
    PresentFits(EventFields(ev));
    EventSized(ev);
    BuiltEvent(ev);
    EventOfEncoded(ev.code, Present(EventFields(ev)));
  }

  /** So does a number in an EVENT that is not as wide as its tag asks: 8 bytes for the time, 4 for the states and the
      detail, 2 for the health code. */
  lemma EventRefusesWidth(code: u16, ts: seq<Tlv>, t: Tlv)
    requires AllFit(ts) && t in ts
    requires (t.tag == 1 && |t.value| != 8) || (3 <= t.tag <= 5 && |t.value| != 4) || (t.tag == 7 && |t.value| != 2)
    ensures EventOf(PutU16(code) + EncodeTlvs(ts)) == None
  {
    hide EventFrom, EncodeTlvs, EventOf;
    EventOfEncoded(code, ts);
    assert EventWidth(t.tag).Some? && |t.value| != EventWidth(t.tag).value;
  }

  lemma EventSized(ev: MonitorEvent)
    ensures Sized(Present(EventFields(ev)), EventWidth)
  {
    PresentSized(EventFields(ev), EventWidth);
  }

  lemma Value32Back(fs: seq<Field>, k: nat, c: bool, tag: byte, v: u32)
    requires FieldsOk(fs) && k < |fs| && fs[k] == NumIf(c, tag, v)
    ensures Value32(Present(fs), tag) == if c then Some(v) else None
  {
    PresentValues(fs);
    U32Alone(v);
  }

  lemma BuiltEvent(ev: MonitorEvent)
    ensures EventFrom(ev.code, Present(EventFields(ev))) ==
      ev.(message := Clamp(ev.message), stateName := Clamp(ev.stateName), jsonDetail := Clamp(ev.jsonDetail))
  {
    var fs := EventFields(ev);
    PresentValues(fs);
    if ev.wallClock.Some? {
      U64RoundTrip(ev.wallClock.value, []);
      assert PutU64(ev.wallClock.value) + [] == PutU64(ev.wallClock.value);
    }
    assert Value64(Present(fs), fs[0].tag) == ev.wallClock;
    TextBack(fs, 1, TLV_MESSAGE, ev.message);
    Value32Back(fs, 2, ev.stateId.Some?, TLV_STATE_ID, if ev.stateId.Some? then ev.stateId.value else 0);
    Value32Back(fs, 3, ev.prevStateId.Some?, TLV_PREV_STATE_ID, if ev.prevStateId.Some? then ev.prevStateId.value else 0);
    Value32Back(fs, 4, ev.detail.Some?, TLV_DETAIL, if ev.detail.Some? then ev.detail.value else 0);
    TextBack(fs, 5, TLV_STATE_NAME, ev.stateName);
    if ev.healthCode.Some? {
      U16RoundTrip(ev.healthCode.value, []);
      assert PutU16(ev.healthCode.value) + [] == PutU16(ev.healthCode.value);
    }
    assert Value16(Present(fs), fs[6].tag) == ev.healthCode;
    TextBack(fs, 7, TLV_JSON_DETAIL, ev.jsonDetail);
  }

  /** A TLV with a tag EVENT does not know changes nothing, wherever it is put. */
  lemma UnknownEventTlvIgnored(code: u16, a: seq<Tlv>, t: Tlv, b: seq<Tlv>)
    requires AllFit(a) && AllFit(b) && t.Fits() && !(TLV_WALL_CLOCK <= t.tag <= TLV_HEALTH_CODE) && t.tag != TLV_JSON_DETAIL
    ensures EventOf(PutU16(code) + EncodeTlvs(a + [t] + b)) == EventOf(PutU16(code) + EncodeTlvs(a + b))
  {
    var x, y := a + [t] + b, a + b;
    forall tag | tag != t.tag ensures LastValue(x, tag) == LastValue(y, tag) { SkipTlv(a, t, b, tag); }
    EventOfEncoded(code, x);
    EventOfEncoded(code, y);
    SameEvent(code, t.tag, x, y);
    SameSized(a, t, b, EventWidth);
  }

  lemma EventOfEncoded(code: u16, ts: seq<Tlv>)
    requires AllFit(ts)
    ensures EventOf(PutU16(code) + EncodeTlvs(ts)) == if Sized(ts, EventWidth) then Some(EventFrom(code, ts)) else None
  {
    DecodeEncode(ts);
    U16RoundTrip(code, EncodeTlvs(ts));
    assert (PutU16(code) + EncodeTlvs(ts))[2..] == EncodeTlvs(ts);
  }

  lemma SameEvent(code: u16, unknown: byte, x: seq<Tlv>, y: seq<Tlv>)
    requires forall tag | tag != unknown :: LastValue(x, tag) == LastValue(y, tag)
    requires !(TLV_WALL_CLOCK <= unknown <= TLV_HEALTH_CODE) && unknown != TLV_JSON_DETAIL
    ensures EventFrom(code, x) == EventFrom(code, y)
  {
    assert forall tag | tag != unknown :: Value32(x, tag) == Value32(y, tag) && TextOf(x, tag) == TextOf(y, tag);
  }

  // ----- STATS -----

  method BuildStats(sent: u64, dropped: u64) returns (out: seq<byte>)
    ensures out == StatsBytes(sent, dropped)
  {
    out := PutU64(sent) + PutU64(dropped);
  }

  function StatsBytes(sent: u64, dropped: u64): seq<byte> { PutU64(sent) + PutU64(dropped) }

  function ParseStats(s: seq<byte>): Option<(u64, u64)> {
    if |s| < 16 then None else Some((GetU64(s), GetU64(s[8..])))
  }

  lemma StatsRoundTrip(sent: u64, dropped: u64, tail: seq<byte>)
    ensures ParseStats(StatsBytes(sent, dropped) + tail) == Some((sent, dropped))
  {
    var s := StatsBytes(sent, dropped) + tail;
    U64RoundTrip(sent, PutU64(dropped) + tail);
    U64RoundTrip(dropped, tail);
    assert s == PutU64(sent) + (PutU64(dropped) + tail) && s[8..] == PutU64(dropped) + tail;
  }
}
