/** Cutting a byte stream back into messages: the read loops of the wl_dump consumer and of WorkerLink itself. */
module Deframer {
  import opened Common
  import opened StreamProtocol

  datatype Frame = Frame(header: Header, body: seq<byte>) {
    /** The header is one the parser accepts and its length is the body's. */
    predicate Wire() { header.Acceptable() && header.PayloadSize() == |body| }

    function Image(): seq<byte> { HeaderBytes(header) + body }
  }

  /** What one turn of the loop does with the buffer. */
  datatype Turn = Wait | Bad | Take(frame: Frame, rest: seq<byte>)

  function Next(buf: seq<byte>): Turn {
    if |buf| < HEADER_SIZE then Wait
    else
      match ParseHeader(buf)
      case None => Bad
      case Some(h) =>
        var need := HEADER_SIZE + h.PayloadSize();
        if |buf| < need then Wait else Take(Frame(h, buf[HEADER_SIZE..need]), buf[need..])
  }

  datatype Drained = Drained(frames: seq<Frame>, rest: seq<byte>, bad: bool)

  /** The whole loop: messages until the buffer runs short or a header is bad. */
  function Drain(buf: seq<byte>): Drained
    decreases |buf|
  {
    match Next(buf)
    case Wait => Drained([], buf, false)
    case Bad => Drained([], buf, true)
    case Take(f, rest) => var d := Drain(rest); d.(frames := [f] + d.frames)
  }

  function Images(fs: seq<Frame>): seq<byte> {
    if fs == [] then [] else fs[0].Image() + Images(fs[1..])
  }

  function Concat(chunks: seq<seq<byte>>): seq<byte> {
    if chunks == [] then [] else chunks[0] + Concat(chunks[1..])
  }

  // ----- framing and deframing undo each other -----

  lemma ShortWaits(buf: seq<byte>)
    requires |buf| < HEADER_SIZE
    ensures Next(buf) == Wait && Drain(buf) == Drained([], buf, false)
  {}

  lemma NextOfImage(f: Frame, tail: seq<byte>)
    requires f.Wire()
    ensures Next(f.Image() + tail) == Take(f, tail)
  {
    HeaderRoundTrip(f.header, f.body + tail);
    assert f.Image() + tail == HeaderBytes(f.header) + (f.body + tail);
  }

  lemma PartialWaits(f: Frame, n: nat)
    requires f.Wire() && n < |f.Image()|
    ensures Next(f.Image()[..n]) == Wait
  {
    if n >= HEADER_SIZE {
      var p := f.Image()[..n];
      assert p == HeaderBytes(f.header) + p[HEADER_SIZE..];
      HeaderRoundTrip(f.header, p[HEADER_SIZE..]);
    }
  }

  /** The images of any acceptable messages, then a cut-off one: exactly those messages, and the piece left over. */
  lemma {:induction false} DrainImages(fs: seq<Frame>, tail: seq<byte>)
    requires forall f | f in fs :: f.Wire()
    requires Next(tail) == Wait
    ensures Drain(Images(fs) + tail) == Drained(fs, tail, false)
  {
    hide Next, Frame.Image;
    if fs == [] {
      assert Images(fs) + tail == tail;
    } else {
      var image, later := fs[0].Image(), Images(fs[1..]);
      DrainImages(fs[1..], tail);
      NextOfImage(fs[0], later + tail);
      assert Images(fs) + tail == image + (later + tail);
      assert [fs[0]] + fs[1..] == fs;
    }
  }

  /** Images of acceptable messages in front of anything only add those messages. */
  lemma {:induction false} ImagesFirst(fs: seq<Frame>, tail: seq<byte>)
    requires forall f | f in fs :: f.Wire()
    ensures var d := Drain(tail); Drain(Images(fs) + tail) == d.(frames := fs + d.frames)
  {
    hide Next, Frame.Image;
    if fs == [] {
      assert Images(fs) + tail == tail && [] + Drain(tail).frames == Drain(tail).frames;
    } else {
      var image, later := fs[0].Image(), Images(fs[1..]);
      ImagesFirst(fs[1..], tail);
      NextOfImage(fs[0], later + tail);
      assert Images(fs) + tail == image + (later + tail);
      assert [fs[0]] + (fs[1..] + Drain(tail).frames) == fs + Drain(tail).frames;
    }
  }

  lemma TurnTakes(buf: seq<byte>)
    requires Next(buf).Take?
    ensures Next(buf).frame.Wire() && buf == Next(buf).frame.Image() + Next(buf).rest
    ensures |Next(buf).rest| + HEADER_SIZE <= |buf|
  {
    HeaderBytesOfHeader(buf);
  }

  /** Nothing is lost or made up: what was read is the images of what was handled, then what is left. */
  lemma {:induction false} DrainIsExact(buf: seq<byte>)
    ensures var d := Drain(buf);
      buf == Images(d.frames) + d.rest && (forall f | f in d.frames :: f.Wire()) && Next(d.rest) == (if d.bad then Bad else Wait)
    decreases |buf|
  {
    hide Next, Frame.Image, Frame.Wire;
    if Next(buf).Take? {
      var f, rest := Next(buf).frame, Next(buf).rest;
      TurnTakes(buf);
      DrainIsExact(rest);
      var d := Drain(rest);
      assert ([f] + d.frames)[1..] == d.frames;
      assert Images([f] + d.frames) == f.Image() + Images(d.frames);
    }
  }

  /** A message is deframed as itself, alone, exactly when the parser accepts its header. */
  lemma DeframableIff(f: Frame)
    requires f.header.version == PROTOCOL_VERSION
    requires f.header.length == (HEADER_LENGTH_BYTES + |f.body| % 0x1_0000_0000) % 0x1_0000_0000
    ensures Drain(f.Image()) == Drained([f], [], false) <==> HEADER_LENGTH_BYTES + |f.body| <= MAX_MESSAGE_LENGTH
  {
    hide Next, Drain, HeaderBytes;
    DrainIsExact(f.Image());
    assert Drain(f.Image()) == Drained([f], [], false) ==> f in Drain(f.Image()).frames;
    if f.Wire() {
      ShortWaits([]);
      DrainImages([f], []);
      assert Images([f]) == f.Image() + Images([]);
      assert Images([f]) + [] == f.Image();
    }
  }

  /** Whatever follows it, a message comes out first and whole, and leaves what follows intact, exactly when its payload
      and 20 fit the limit. */
  lemma DeframedFirstIff(f: Frame, tail: seq<byte>)
    requires f.header.version == PROTOCOL_VERSION
    requires f.header.length == (HEADER_LENGTH_BYTES + |f.body| % 0x1_0000_0000) % 0x1_0000_0000
    ensures Next(f.Image() + tail) == Take(f, tail) <==> HEADER_LENGTH_BYTES + |f.body| <= MAX_MESSAGE_LENGTH
  {
    hide HeaderBytes;
    if f.Wire() { NextOfImage(f, tail); }
    if Next(f.Image() + tail) == Take(f, tail) { TurnTakes(f.Image() + tail); }
  }

  /** Up to 4 GiB a longer one is a bad header: nothing of it or of what follows is read. */
  lemma OversizeStops(f: Frame, tail: seq<byte>)
    requires f.header.version == PROTOCOL_VERSION
    requires f.header.length == (HEADER_LENGTH_BYTES + |f.body| % 0x1_0000_0000) % 0x1_0000_0000
    requires MAX_MESSAGE_LENGTH < HEADER_LENGTH_BYTES + |f.body| < 0x1_0000_0000
    ensures Drain(f.Image() + tail) == Drained([], f.Image() + tail, true)
  {
    hide HeaderBytes, Next, Drain, ParseHeader;
    assert f.Image() + tail == HeaderBytes(f.header) + (f.body + tail);
    assert !f.header.Acceptable();
    BadHeaderStops(f.header, f.body + tail);
  }

  lemma BadHeaderStops(h: Header, rest: seq<byte>)
    requires !h.Acceptable()
    ensures Drain(HeaderBytes(h) + rest) == Drained([], HeaderBytes(h) + rest, true)
  {
    hide HeaderBytes, ParseHeader;
    HeaderRoundTrip(h, rest);
  }

  /** There are such messages: one byte over the limit. */
  lemma Oversize() returns (f: Frame)
    ensures f.header.version == PROTOCOL_VERSION && |f.body| == MAX_MESSAGE_LENGTH - HEADER_LENGTH_BYTES + 1
    ensures f.header.length == HEADER_LENGTH_BYTES + |f.body| && Drain(f.Image()) == Drained([], f.Image(), true)
  {
    var n: nat := MAX_MESSAGE_LENGTH - HEADER_LENGTH_BYTES + 1;
    f := Frame(Header(MAX_MESSAGE_LENGTH + 1, PROTOCOL_VERSION, MEDIA, VIDEO, 0, 0, 0, 0), seq(n, i => 0));
    OversizeStops(f, []);
    assert f.Image() + [] == f.Image();
  }

  // ----- chunk independence -----

  lemma NextExtended(a: seq<byte>, b: seq<byte>)
    requires Next(a) != Wait
    ensures Next(a + b) == match Next(a) { case Take(f, rest) => Take(f, rest + b) case t => t }
  {
    assert (a + b)[..HEADER_SIZE] == a[..HEADER_SIZE];
    HeaderBytesOfHeader(a);
    HeaderBytesOfHeader(a + b);
    assert a == a[..HEADER_SIZE] + a[HEADER_SIZE..] && a + b == a[..HEADER_SIZE] + (a + b)[HEADER_SIZE..];
    HeaderRoundTrip(HeaderOf(a), a[HEADER_SIZE..]);
    HeaderRoundTrip(HeaderOf(a), (a + b)[HEADER_SIZE..]);
    if Next(a).Take? {
      var need := HEADER_SIZE + HeaderOf(a).PayloadSize();
      assert (a + b)[HEADER_SIZE..need] == a[HEADER_SIZE..need] && (a + b)[need..] == a[need..] + b;
    }
  }

  /** Bytes that come later continue where the loop stopped, unless it stopped at a bad header. */
  lemma {:induction false} DrainExtended(a: seq<byte>, b: seq<byte>)
    ensures Drain(a).bad ==> Drain(a + b) == Drain(a).(rest := Drain(a).rest + b)
    ensures !Drain(a).bad ==>
      var d := Drain(Drain(a).rest + b); Drain(a + b) == d.(frames := Drain(a).frames + d.frames)
    decreases |a|
  {
    hide Next;
    match Next(a)
    case Wait =>
      assert Drain(a).frames + Drain(a + b).frames == Drain(a + b).frames;
    case Bad =>
      NextExtended(a, b);
    case Take(f, rest) =>
      NextExtended(a, b);
      TurnTakes(a);
      DrainExtended(rest, b);
      if !Drain(a).bad {
        var d := Drain(Drain(a).rest + b);
        assert [f] + (Drain(rest).frames + d.frames) == [f] + Drain(rest).frames + d.frames;
      }
  }

  // ----- the wl_dump consumer: a bad header empties the buffer -----

  datatype Reader = Reader(frames: seq<Frame>, buf: seq<byte>)

  function Read(r: Reader, chunk: seq<byte>): Reader {
    var d := Drain(r.buf + chunk);
    Reader(r.frames + d.frames, if d.bad then [] else d.rest)
  }

  function Reads(r: Reader, chunks: seq<seq<byte>>): Reader
    decreases |chunks|
  {
    if chunks == [] then r else Reads(Read(r, chunks[0]), chunks[1..])
  }

  class Consumer {
    var buf: seq<byte>
    var handled: seq<Frame>

    ghost function State(): Reader
      reads this
    {
      Reader(handled, buf)
    }

    constructor ()
      ensures State() == Reader([], [])
    {
      buf, handled := [], [];
    }

    method OnRead(chunk: seq<byte>)
      modifies this
      ensures State() == Read(old(State()), chunk)
    {
      hide Drain;
      buf := buf + chunk;
      ghost var all := Drain(buf);
      ghost var before := handled;
      while |buf| >= HEADER_SIZE
        invariant handled + Drain(buf).frames == before + all.frames
        invariant Drain(buf).rest == all.rest && Drain(buf).bad == all.bad
        decreases |buf|
      {
        DrainTurn(buf, handled);
        var parsed := ParseHeader(buf);
        if parsed.None? {
          buf := [];
          return;
        }
        var need := HEADER_SIZE + parsed.value.PayloadSize();
        if |buf| < need { return; }
        handled := handled + [Frame(parsed.value, buf[HEADER_SIZE..need])];
        buf := buf[need..];
      }
      DrainTurn(buf, handled);
    }
  }

  lemma DrainTurn(buf: seq<byte>, handled: seq<Frame>)
    ensures match Next(buf)
      case Wait => Drain(buf) == Drained([], buf, false) && handled + Drain(buf).frames == handled
      case Bad => Drain(buf) == Drained([], buf, true) && handled + Drain(buf).frames == handled
      case Take(f, rest) =>
        Drain(buf).rest == Drain(rest).rest && Drain(buf).bad == Drain(rest).bad
        && handled + Drain(buf).frames == handled + [f] + Drain(rest).frames
  {
    hide Next;
    if Next(buf).Take? {
      assert handled + ([Next(buf).frame] + Drain(Next(buf).rest).frames) == handled + [Next(buf).frame] + Drain(Next(buf).rest).frames;
    }
  }

  /** What a read leaves for the later ones. */
  lemma ReadStep(frames: seq<Frame>, buf: seq<byte>, c: seq<byte>, later: seq<byte>)
    ensures var first, all := Drain(buf + c), Drain(buf + (c + later));
      if first.bad then
        HEADER_SIZE <= |first.rest| && all == Drained(first.frames, first.rest + later, true)
      else
        var more := Drain(first.rest + later);
        Next(first.rest) == Wait && all.rest == more.rest && all.bad == more.bad
        && frames + all.frames == frames + first.frames + more.frames
  {
    hide Next, Drain;
    DrainExtended(buf + c, later);
    DrainIsExact(buf + c);
    assert buf + (c + later) == buf + c + later;
    var first := Drain(buf + c);
    if first.bad {
      if |first.rest| < HEADER_SIZE { ShortWaits(first.rest); }
    } else {
      var more := Drain(first.rest + later).frames;
      assert frames + (first.frames + more) == frames + first.frames + more;
    }
  }

  lemma {:induction false} ReadsFrom(r: Reader, chunks: seq<seq<byte>>)
    requires Next(r.buf) == Wait
    ensures var d := Drain(r.buf + Concat(chunks));
      !d.bad || |d.rest| == HEADER_SIZE ==>
        Reads(r, chunks) == Reader(r.frames + d.frames, if d.bad then [] else d.rest)
    decreases |chunks|
  {
    hide Next;
    if chunks == [] {
      assert r.buf + Concat(chunks) == r.buf && r.frames + [] == r.frames;
    } else {
      var c, cs := chunks[0], chunks[1..];
      ReadStep(r.frames, r.buf, c, Concat(cs));
      ShortWaits([]);
      ReadsFrom(Read(r, c), cs);
      if Drain(r.buf + c).bad && |Drain(r.buf + Concat(chunks)).rest| == HEADER_SIZE {
        assert Concat(cs) == [];
        assert [] + Concat(cs) == [] && Read(r, c).frames + [] == Read(r, c).frames;
      }
    }
  }

  lemma {:induction false} ImagesConcat(a: seq<Frame>, b: seq<Frame>)
    ensures Images(a + b) == Images(a) + Images(b)
  {
    hide Frame.Image;
    if a == [] {
      assert a + b == b;
    } else {
      ImagesConcat(a[1..], b);
      assert (a + b)[1..] == a[1..] + b;
      assert a[0].Image() + (Images(a[1..]) + Images(b)) == a[0].Image() + Images(a[1..]) + Images(b);
    }
  }

  /** Everything handled is an acceptable message; and when the stream has a bad header, some bytes are neither handled
      nor kept. */
  lemma {:induction false} ReadsAccount(r: Reader, chunks: seq<seq<byte>>) returns (more: seq<Frame>)
    requires Next(r.buf) == Wait
    ensures Reads(r, chunks).frames == r.frames + more && forall f | f in more :: f.Wire()
    ensures |Images(more)| + |Reads(r, chunks).buf| <= |r.buf| + |Concat(chunks)|
    ensures Drain(r.buf + Concat(chunks)).bad ==> |Images(more)| + |Reads(r, chunks).buf| < |r.buf| + |Concat(chunks)|
    decreases |chunks|
  {
    hide Next, Drain, Images, Frame.Wire;
    if chunks == [] {
      more := [];
      assert r.buf + Concat(chunks) == r.buf && r.frames + [] == r.frames;
      WaitsNotBad(r.buf);
    } else {
      var c, cs := chunks[0], chunks[1..];
      var first := Drain(r.buf + c);
      DrainIsExact(r.buf + c);
      ReadStep(r.frames, r.buf, c, Concat(cs));
      ShortWaits([]);
      var later := ReadsAccount(Read(r, c), cs);
      more := first.frames + later;
      ImagesConcat(first.frames, later);
      assert r.frames + first.frames + later == r.frames + more;
    }
  }

  lemma WaitsNotBad(buf: seq<byte>)
    requires Next(buf) == Wait
    ensures !Drain(buf).bad && Images([]) == []
  {}

  /** However the stream is cut into reads, what is handled before the first bad header is the same. */
  lemma {:induction false} HandledPrefix(r: Reader, chunks: seq<seq<byte>>)
    requires Next(r.buf) == Wait
    ensures r.frames + Drain(r.buf + Concat(chunks)).frames <= Reads(r, chunks).frames
    decreases |chunks|
  {
    hide Next;
    if chunks == [] {
      assert r.buf + Concat(chunks) == r.buf && r.frames + [] == r.frames;
    } else {
      var c, cs := chunks[0], chunks[1..];
      ReadStep(r.frames, r.buf, c, Concat(cs));
      ShortWaits([]);
      HandledPrefix(Read(r, c), cs);
    }
  }

  lemma WaitThenByte(r: seq<byte>, x: byte)
    requires Next(r) == Wait && |r| >= HEADER_SIZE
    ensures Next(r + [x]) == Wait || (Next(r + [x]).Take? && Next(r + [x]).rest == [])
  {
    hide HeaderBytes;
    var h := HeaderOf(r);
    HeaderBytesOfHeader(r);
    assert r == HeaderBytes(h) + r[HEADER_SIZE..];
    assert r + [x] == HeaderBytes(h) + (r + [x])[HEADER_SIZE..];
    HeaderRoundTrip(h, r[HEADER_SIZE..]);
    HeaderRoundTrip(h, (r + [x])[HEADER_SIZE..]);
  }

  lemma BadNotAtEnd(a: seq<byte>, x: byte)
    requires Drain(a + [x]).bad && |Drain(a + [x]).rest| > HEADER_SIZE
    ensures Drain(a).bad
  {
    hide Next;
    DrainExtended(a, [x]);
    DrainIsExact(a);
    var r := Drain(a).rest;
    if !Drain(a).bad && |r| >= HEADER_SIZE {
      WaitThenByte(r, x);
      ShortWaits([]);
    } else if !Drain(a).bad {
      DrainIsExact(r + [x]);
    }
  }

  lemma TwoReads(a: seq<byte>, x: seq<byte>)
    ensures Concat([a, x]) == a + x
    ensures Reads(Reader([], []), [a, x]) == Read(Read(Reader([], []), a), x)
  {
    hide Read, Drain;
    assert [a, x][1..] == [x] && Concat([x]) == x + Concat([]);
    assert Reads(Read(Reader([], []), a), [x]) == Read(Read(Reader([], []), a), x);
  }

  lemma FreshRead(frames: seq<Frame>, s: seq<byte>)
    ensures Read(Reader(frames, []), s) == Reader(frames + Drain(s).frames, if Drain(s).bad then [] else Drain(s).rest)
  {
    hide Drain;
    assert [] + s == s;
  }

  /** The last byte read apart stays in the buffer; read with the rest it is thrown away. */
  lemma LastByteStays(a: seq<byte>, x: byte)
    requires Drain(a + [x]).bad && Drain(a).bad
    ensures Reads(Reader([], []), [a, [x]]) != Read(Reader([], []), a + [x])
  {
    hide Next, Drain, Concat, Reads, Read;
    TwoReads(a, [x]);
    FreshRead([], a);
    FreshRead([], a + [x]);
    FreshRead([] + Drain(a).frames, [x]);
    ShortWaits([x]);
  }

  lemma SplitOff(s: seq<byte>)
    requires Drain(s).bad && |Drain(s).rest| > HEADER_SIZE
    ensures s != [] && Concat([Front(s), [Last(s)]]) == s
    ensures Reads(Reader([], []), [Front(s), [Last(s)]]) != Read(Reader([], []), s)
  {
    hide Next, Drain, Concat, Reads, Read;
    if s == [] { ShortWaits(s); }
    assert Front(s) + [Last(s)] == s;
    TwoReads(Front(s), [Last(s)]);
    BadNotAtEnd(Front(s), Last(s));
    LastByteStays(Front(s), Last(s));
  }

  /** Every way of cutting the stream into reads ends like one big read exactly when no header is bad,
      or the bad header is the stream's last 24 bytes: otherwise what follows it resynchronises differently. */
  lemma ChunkIndependentIff(s: seq<byte>)
    ensures (forall chunks | Concat(chunks) == s :: Reads(Reader([], []), chunks) == Read(Reader([], []), s))
      <==> !Drain(s).bad || |Drain(s).rest| == HEADER_SIZE
  {
    hide Next;
    var start := Reader([], []);
    assert [] + s == s;
    DrainIsExact(s);
    if |Drain(s).rest| < HEADER_SIZE { ShortWaits(Drain(s).rest); }
    if !Drain(s).bad || |Drain(s).rest| == HEADER_SIZE {
      ShortWaits([]);
      forall chunks | Concat(chunks) == s ensures Reads(start, chunks) == Read(start, s) { ReadsFrom(start, chunks); }
    } else {
      SplitOff(s);
    }
  }

  /** There are streams that end differently under different cuts: 25 zero bytes. */
  lemma CutsMatter()
    ensures var s := seq(25, i => 0);
      exists chunks :: Concat(chunks) == s && Reads(Reader([], []), chunks) != Read(Reader([], []), s)
  {
    var s := seq(25, i => 0);
    assert Next(s) == Bad;
    ChunkIndependentIff(s);
  }

  // ----- WorkerLink's own reads: a bad header kills the client -----

  datatype Inbound = Inbound(frames: seq<Frame>, buf: seq<byte>, dead: bool)

  function LinkRead(r: Inbound, chunk: seq<byte>): Inbound {
    if r.dead then r
    else
      var d := Drain(r.buf + chunk);
      Inbound(r.frames + d.frames, d.rest, d.bad)
  }

  function LinkReads(r: Inbound, chunks: seq<seq<byte>>): Inbound
    decreases |chunks|
  {
    if chunks == [] then r else LinkReads(LinkRead(r, chunks[0]), chunks[1..])
  }

  lemma {:induction false} DeadStays(r: Inbound, chunks: seq<seq<byte>>)
    requires r.dead
    ensures LinkReads(r, chunks) == r
  {
    if chunks != [] { DeadStays(r, chunks[1..]); }
  }

  /** The inbound messages handled, and whether the client dies, do not depend on how its bytes arrive. */
  lemma {:induction false} InboundChunkIndependent(r: Inbound, chunks: seq<seq<byte>>)
    requires !r.dead && Next(r.buf) == Wait
    ensures var one, many := LinkRead(r, Concat(chunks)), LinkReads(r, chunks);
      many.frames == one.frames && many.dead == one.dead && (!one.dead ==> many.buf == one.buf)
    decreases |chunks|
  {
    hide Next;
    if chunks == [] {
      assert r.buf + Concat(chunks) == r.buf && r.frames + [] == r.frames;
    } else {
      var c, cs := chunks[0], chunks[1..];
      ReadStep(r.frames, r.buf, c, Concat(cs));
      var r' := LinkRead(r, c);
      if r'.dead { DeadStays(r', cs); } else { InboundChunkIndependent(r', cs); }
    }
  }

  /** The inbound side of one client of the link. */
  class Inlet {
    var inbuf: seq<byte>
    var handled: seq<Frame>
    var dead: bool

    ghost function State(): Inbound
      reads this
    {
      Inbound(handled, inbuf, dead)
    }

    constructor ()
      ensures State() == Inbound([], [], false)
    {
      inbuf, handled, dead := [], [], false;
    }

    /** One read: an error or the end of the stream kills the client; otherwise every complete message is handled. */
    method OnReadable(got: Option<seq<byte>>)
      requires !dead
      modifies this
      ensures State() == if got == None || got == Some([]) then old(State()).(dead := true) else LinkRead(old(State()), got.value)
    {
      hide Drain;
      if got.None? || got.value == [] {
        dead := true;
        return;
      }
      inbuf := inbuf + got.value;
      ghost var all, before := Drain(inbuf), handled;
      while |inbuf| >= HEADER_SIZE
        invariant !dead && handled + Drain(inbuf).frames == before + all.frames
        invariant Drain(inbuf).rest == all.rest && Drain(inbuf).bad == all.bad
        decreases |inbuf|
      {
        DrainTurn(inbuf, handled);
        var parsed := ParseHeader(inbuf);
        if parsed.None? {
          dead := true;
          return;
        }
        var need := HEADER_SIZE + parsed.value.PayloadSize();
        if |inbuf| < need { return; }
        handled := handled + [Frame(parsed.value, inbuf[HEADER_SIZE..need])];
        inbuf := inbuf[need..];
      }
      DrainTurn(inbuf, handled);
    }
  }
}
