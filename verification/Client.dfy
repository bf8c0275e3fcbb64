/** One consumer of the worker link: a bounded drop-oldest queue of shared messages, written out piecemeal. */
module Clients {
  import opened Common
  import opened StreamProtocol
  import opened Deframer

  /** A serialized message. gen and seq are the unbounded counters behind the header's 32-bit fields;
      afterHello is a history variable: whether its stream already had a HELLO when the message was made. */
  datatype Message = Message(header: Header, body: seq<byte>, payload: Option<seq<byte>>, control: bool,
                             gen: nat, number: nat, afterHello: bool)
  {
    function Prefix(): seq<byte> { HeaderBytes(header) + body }
    function Payload(): seq<byte> { if payload.Some? then payload.value else [] }
    function WireSize(): nat { |Prefix()| + |Payload()| }
    function Image(): (s: seq<byte>)
      ensures |s| == WireSize()
    {
      Prefix() + Payload()
    }

    function ToFrame(): Frame { Frame(header, body + Payload()) }
    predicate Deframable() { ToFrame().Wire() }
  }

  datatype Limits = Limits(maxMsgs: nat, maxBytes: nat)

  /** One result of writev: so many bytes of the pending tail, or an errno. */
  datatype Io = Wrote(n: nat) | Again | Interrupted | Fatal

  /** A client's fields, then its history: every message ever queued, those now wholly on the wire, the bytes
      on the wire, and for each message sent or still queued its position in that history. */
  datatype ClientState = ClientState(queue: seq<Message>, queuedBytes: int, frontOffset: nat, sent: nat, dropped: nat,
                           wantVideo: bool, wantAudio: bool, wantEvents: bool, dead: bool,
                           accepted: seq<Message>, onWire: seq<Message>, wire: seq<byte>, live: seq<nat>)

  function Fresh(): ClientState { ClientState([], 0, 0, 0, 0, true, true, true, false, [], [], [], []) }

  function Push(c: ClientState, m: Message): ClientState {
    c.(queue := c.queue + [m], queuedBytes := c.queuedBytes + m.WireSize(),
       accepted := c.accepted + [m], live := c.live + [|c.accepted|])
  }

  predicate Full(c: ClientState, m: Message, lim: Limits) {
    |c.queue| >= lim.maxMsgs || c.queuedBytes + m.WireSize() > lim.maxBytes
  }

  predicate MayDrop(c: ClientState) { c.queue != [] && !c.queue[0].control && c.frontOffset == 0 }

  function DropFront(c: ClientState): ClientState
    requires c.queue != []
  {
    c.(queue := c.queue[1..], queuedBytes := c.queuedBytes - c.queue[0].WireSize(), dropped := c.dropped + 1,
       live := if c.sent < |c.live| then c.live[..c.sent] + c.live[c.sent + 1..] else c.live)
  }

  function MakeRoom(c: ClientState, m: Message, lim: Limits): ClientState
    decreases |c.queue|
  {
    if Full(c, m, lim) && MayDrop(c) then MakeRoom(DropFront(c), m, lim) else c
  }

  /** n more bytes of the front message reach the wire; the last of them retires the message. */
  function Advance(c: ClientState, n: nat): ClientState
    requires c.queue != [] && c.frontOffset + n <= c.queue[0].WireSize()
  {
    var m, off := c.queue[0], c.frontOffset + n;
    var c' := c.(wire := c.wire + m.Image()[c.frontOffset..off]);
    if off < m.WireSize() then c'.(frontOffset := off)
    else c'.(frontOffset := 0, queuedBytes := c.queuedBytes - m.WireSize(), sent := c.sent + 1,
             queue := c.queue[1..], onWire := c.onWire + [m])
  }

  /** What writev can have written: no more than it was given. */
  function Written(c: ClientState, n: nat): nat
    requires c.queue != [] && c.frontOffset <= c.queue[0].WireSize()
  {
    Min(n, c.queue[0].WireSize() - c.frontOffset)
  }

  /** onClientWritable, for any results writev may give; running out of them is EAGAIN. */
  function Write(c: ClientState, io: seq<Io>): ClientState
    requires c.queue != [] ==> c.frontOffset <= c.queue[0].WireSize()
    decreases |io|
  {
    if c.queue == [] || io == [] then c
    else
      match io[0]
      case Again => c
      case Interrupted => Write(c, io[1..])
      case Fatal => c.(dead := true)
      case Wrote(n) =>
        var c' := Advance(c, Written(c, n));
        if |c'.queue| < |c.queue| then Write(c', io[1..]) else c'
  }

  function Enqueued(c: ClientState, m: Message, lim: Limits, io: seq<Io>): ClientState
    requires Good(c)
  {
    MakeRoomGood(c, m, lim);
    PushGood(MakeRoom(c, m, lim), m);
    Write(Push(MakeRoom(c, m, lim), m), io)
  }

  // ----- what every client keeps -----

  function TotalSize(q: seq<Message>): nat {
    if q == [] then 0 else q[0].WireSize() + TotalSize(q[1..])
  }

  function ImagesOf(ms: seq<Message>): seq<byte> {
    if ms == [] then [] else ImagesOf(Front(ms)) + Last(ms).Image()
  }

  /** The written part of the message at the front. */
  function Partial(c: ClientState): seq<byte>
    requires c.queue != [] ==> c.frontOffset <= c.queue[0].WireSize()
  {
    if c.queue == [] then [] else c.queue[0].Image()[..c.frontOffset]
  }

  /** The front is never wholly written, and nothing is half written when the queue is empty. */
  ghost predicate FrontOk(c: ClientState) {
    if c.queue == [] then c.frontOffset == 0 else c.frontOffset < c.queue[0].WireSize()
  }

  /** Sent and queued messages are the accepted ones in order, less some that are not control messages. */
  ghost predicate Tracked(c: ClientState) {
    && |c.onWire| == c.sent && |c.live| == c.sent + |c.queue|
    && (forall k | 0 <= k < |c.live| :: c.live[k] < |c.accepted| && (c.onWire + c.queue)[k] == c.accepted[c.live[k]])
    && (forall k, l | 0 <= k < l < |c.live| :: c.live[k] < c.live[l])
    && (forall i | 0 <= i < |c.accepted| && c.accepted[i].control :: i in c.live)
  }

  ghost predicate Good(c: ClientState) {
    && c.queuedBytes == TotalSize(c.queue)
    && |c.accepted| == c.sent + c.dropped + |c.queue|
    && FrontOk(c)
    && c.wire == ImagesOf(c.onWire) + Partial(c)
    && Tracked(c)
  }

  lemma FreshGood()
    ensures Good(Fresh())
  {}

  lemma {:induction false} TotalSizeSnoc(q: seq<Message>, m: Message)
    ensures TotalSize(q + [m]) == TotalSize(q) + m.WireSize()
  {
    if q == [] {
      assert (q + [m])[1..] == [];
    } else {
      TotalSizeSnoc(q[1..], m);
      assert (q + [m])[1..] == q[1..] + [m];
    }
  }

  lemma PushTracked(c: ClientState, m: Message)
    requires Tracked(c)
    ensures Tracked(Push(c, m))
  {
    hide Message.WireSize;
    var d := Push(c, m);
    assert d.onWire + d.queue == (c.onWire + c.queue) + [m];
    assert forall i | i in c.live :: i in d.live;
    assert |c.accepted| in d.live;
  }

  lemma PushGood(c: ClientState, m: Message)
    requires Good(c)
    ensures Good(Push(c, m))
  {
    hide Tracked;
    PushTracked(c, m);
    TotalSizeSnoc(c.queue, m);
    assert Push(c, m).queue[0] == if c.queue == [] then m else c.queue[0];
    if c.queue == [] { assert m.Image()[..0] == []; HeaderPositive(m); }
  }

  lemma HeaderPositive(m: Message)
    ensures m.WireSize() >= HEADER_SIZE
  {}

  lemma DropTracked(c: ClientState)
    requires Tracked(c) && MayDrop(c)
    ensures Tracked(DropFront(c))
  {
    hide Message.WireSize;
    var d := DropFront(c);
    forall k | 0 <= k < |d.live| ensures (d.onWire + d.queue)[k] == d.accepted[d.live[k]] {
      if k >= c.sent { assert (d.onWire + d.queue)[k] == (c.onWire + c.queue)[k + 1]; }
      else { assert (d.onWire + d.queue)[k] == (c.onWire + c.queue)[k]; }
    }
    ControlNotDropped(c);
  }

  lemma ControlNotDropped(c: ClientState)
    requires Tracked(c) && MayDrop(c)
    ensures var d := DropFront(c);
      forall i | 0 <= i < |d.accepted| && d.accepted[i].control :: i in d.live
  {
    hide Message.WireSize;
    var d, gone := DropFront(c), c.live[c.sent];
    assert c.accepted[gone] == (c.onWire + c.queue)[c.sent] == c.queue[0];
    forall i | 0 <= i < |d.accepted| && d.accepted[i].control ensures i in d.live {
      assert i in c.live && i != gone;
      var k :| 0 <= k < |c.live| && c.live[k] == i;
      assert if k < c.sent then d.live[k] == i else d.live[k - 1] == i;
    }
  }

  lemma {:induction false} MakeRoomGood(c: ClientState, m: Message, lim: Limits)
    requires Good(c)
    ensures Good(MakeRoom(c, m, lim))
    ensures MakeRoom(c, m, lim).accepted == c.accepted && MakeRoom(c, m, lim).dead == c.dead
    ensures MakeRoom(c, m, lim).wire == c.wire && MakeRoom(c, m, lim).onWire == c.onWire
    decreases |c.queue|
  {
    if Full(c, m, lim) && MayDrop(c) {
      DropGood(c);
      MakeRoomGood(DropFront(c), m, lim);
    }
  }

  lemma DropGood(c: ClientState)
    requires Good(c) && MayDrop(c)
    ensures Good(DropFront(c))
  {
    hide Tracked;
    DropTracked(c);
    var d := DropFront(c);
    assert c.queue[0].Image()[..0] == [];
    if d.queue != [] { HeaderPositive(d.queue[0]); assert d.queue[0].Image()[..0] == []; }
  }

  lemma AdvanceGood(c: ClientState, n: nat)
    requires Good(c) && c.queue != [] && c.frontOffset + n <= c.queue[0].WireSize()
    ensures Good(Advance(c, n)) && Advance(c, n).accepted == c.accepted && Advance(c, n).dead == c.dead
    ensures c.wire <= Advance(c, n).wire && c.onWire <= Advance(c, n).onWire
  {
    hide Tracked, FrontOk, ImagesOf, Message.WireSize, Message.Image;
    AdvanceTracked(c, n);
    AdvanceFront(c, n);
    AdvanceWire(c, n);
  }

  lemma AdvanceFront(c: ClientState, n: nat)
    requires FrontOk(c) && c.queue != [] && c.frontOffset + n <= c.queue[0].WireSize()
    ensures FrontOk(Advance(c, n))
  {
    if c.queue[1..] != [] { HeaderPositive(c.queue[1]); }
  }

  lemma AdvanceWire(c: ClientState, n: nat)
    requires FrontOk(c) && c.queue != [] && c.frontOffset + n <= c.queue[0].WireSize()
    requires FrontOk(Advance(c, n)) && c.wire == ImagesOf(c.onWire) + Partial(c)
    ensures var d := Advance(c, n); d.wire == ImagesOf(d.onWire) + Partial(d)
  {
    hide Message.WireSize, Message.Image, ImagesOf;
    var d, m, off, image := Advance(c, n), c.queue[0], c.frontOffset + n, c.queue[0].Image();
    assert d.wire == ImagesOf(c.onWire) + image[..off] by {
      assert image[..c.frontOffset] + image[c.frontOffset..off] == image[..off];
      assert ImagesOf(c.onWire) + (image[..c.frontOffset] + image[c.frontOffset..off]) == d.wire;
    }
    if off == m.WireSize() {
      assert image[..off] == image;
      ImagesOfSnoc(c.onWire, m);
      assert Partial(d) == [];
      assert ImagesOf(d.onWire) + [] == ImagesOf(d.onWire);
    }
  }

  lemma ImagesOfSnoc(ms: seq<Message>, m: Message)
    ensures ImagesOf(ms + [m]) == ImagesOf(ms) + m.Image()
  {
    assert Front(ms + [m]) == ms;
  }

  lemma AdvanceTracked(c: ClientState, n: nat)
    requires Tracked(c) && c.queue != [] && c.frontOffset + n <= c.queue[0].WireSize()
    ensures Tracked(Advance(c, n))
  {
    hide Message.WireSize;
    assert (c.onWire + [c.queue[0]]) + c.queue[1..] == c.onWire + c.queue;
  }

  /** Partial, refused, interrupted and failed writes all keep the client good and its acceptance history. */
  lemma {:induction false} WriteGood(c: ClientState, io: seq<Io>)
    requires Good(c)
    ensures Good(Write(c, io)) && Write(c, io).accepted == c.accepted
    ensures c.wire <= Write(c, io).wire && c.onWire <= Write(c, io).onWire && (c.dead ==> Write(c, io).dead)
    decreases |io|
  {
    hide Advance, Tracked, TotalSize, ImagesOf, Message.WireSize, Message.Image;
    if c.queue != [] && io != [] {
      match io[0]
      case Again =>
      case Interrupted => WriteGood(c, io[1..]);
      case Fatal => DeadGood(c);
      case Wrote(n) =>
        AdvanceGood(c, Written(c, n));
        WriteGood(Advance(c, Written(c, n)), io[1..]);
    }
  }

  lemma DeadGood(c: ClientState)
    requires Good(c)
    ensures Good(c.(dead := true))
  {}

  lemma EnqueueGood(c: ClientState, m: Message, lim: Limits, io: seq<Io>)
    requires Good(c)
    ensures Good(Enqueued(c, m, lim, io)) && Enqueued(c, m, lim, io).accepted == c.accepted + [m]
    ensures c.wire <= Enqueued(c, m, lim, io).wire && (c.dead ==> Enqueued(c, m, lim, io).dead)
  {
    hide Good, Write, MakeRoom;
    MakeRoomGood(c, m, lim);
    PushGood(MakeRoom(c, m, lim), m);
    WriteGood(Push(MakeRoom(c, m, lim), m), io);
  }

  predicate SameWishes(c: ClientState, d: ClientState) {
    c.wantVideo == d.wantVideo && c.wantAudio == d.wantAudio && c.wantEvents == d.wantEvents
  }

  lemma {:induction false} WriteKeepsWishes(c: ClientState, io: seq<Io>)
    requires Good(c)
    ensures SameWishes(c, Write(c, io))
    decreases |io|
  {
    hide Good, Message.WireSize, Message.Image;
    GoodTracks(c);
    if c.queue != [] && io != [] {
      match io[0]
      case Again =>
      case Interrupted => WriteKeepsWishes(c, io[1..]);
      case Fatal =>
      case Wrote(n) =>
        var d := Advance(c, Written(c, n));
        AdvanceGood(c, Written(c, n));
        if |d.queue| < |c.queue| { WriteKeepsWishes(d, io[1..]); }
    }
  }

  lemma {:induction false} RoomKeepsWishes(c: ClientState, m: Message, lim: Limits)
    ensures SameWishes(c, MakeRoom(c, m, lim))
    decreases |c.queue|
  {
    hide Message.WireSize;
    if Full(c, m, lim) && MayDrop(c) { RoomKeepsWishes(DropFront(c), m, lim); }
  }

  lemma EnqueueKeepsWishes(c: ClientState, m: Message, lim: Limits, io: seq<Io>)
    requires Good(c)
    ensures SameWishes(c, Enqueued(c, m, lim, io))
  {
    hide Good, Write, MakeRoom;
    MakeRoomGood(c, m, lim);
    RoomKeepsWishes(c, m, lim);
    PushGood(MakeRoom(c, m, lim), m);
    WriteKeepsWishes(Push(MakeRoom(c, m, lim), m), io);
  }

  // ----- what that means -----

  /** Frame integrity: the wire is whole images of a subsequence of the accepted messages, then the written part
      of the front one, whose offset stays inside it. No control message is ever missing. */
  lemma FrameIntegrity(c: ClientState)
    requires Good(c)
    ensures c.wire == ImagesOf(c.onWire) + Partial(c)
    ensures c.queue != [] ==> c.frontOffset < c.queue[0].WireSize()
    ensures Subsequence(c.onWire + c.queue, c.accepted)
    ensures forall i | 0 <= i < |c.accepted| && c.accepted[i].control :: exists k :: 0 <= k < |c.live| && c.live[k] == i
    ensures |c.accepted| == c.sent + c.dropped + |c.queue| && |c.onWire| == c.sent
    ensures c.queuedBytes == TotalSize(c.queue) >= 0
  {
    EmbeddedIsSubsequence(c.onWire + c.queue, c.accepted, c.live);
  }

  lemma {:induction false} EmbeddedIsSubsequence(a: seq<Message>, b: seq<Message>, at: seq<nat>)
    requires |at| == |a|
    requires forall k | 0 <= k < |a| :: at[k] < |b| && a[k] == b[at[k]]
    requires forall k, l | 0 <= k < l < |a| :: at[k] < at[l]
    ensures Subsequence(a, b)
    decreases |b|
  {
    if a != [] {
      if Last(at) == |b| - 1 {
        EmbeddedIsSubsequence(Front(a), Front(b), Front(at));
      } else {
        EmbeddedIsSubsequence(a, Front(b), at);
      }
    }
  }

  /** With the k oldest messages gone there is room for m. */
  predicate Room(c: ClientState, m: Message, lim: Limits, k: nat)
    requires k <= |c.queue|
  {
    |c.queue| - k < lim.maxMsgs && TotalSize(c.queue[k..]) + m.WireSize() <= lim.maxBytes
  }

  /** k is what an enqueue drops: as few of the oldest messages as make room, and never one that may not be dropped, a
      control message or the one partly written. */
  ghost predicate Least(c: ClientState, m: Message, lim: Limits, k: nat) {
    && k <= |c.queue| && (k > 0 ==> c.frontOffset == 0)
    && (forall j: nat | j < k :: !c.queue[j].control && !Room(c, m, lim, j))
    && (k < |c.queue| && !Room(c, m, lim, k) ==> c.queue[k].control || c.frontOffset > 0)
  }

  lemma {:induction false} RoomMade(c: ClientState, m: Message, lim: Limits) returns (k: nat)
    requires Good(c)
    ensures k <= |c.queue| && Least(c, m, lim, k)
    ensures var r := MakeRoom(c, m, lim);
      r.queue == c.queue[k..] && r.onWire == c.onWire && r.dropped == c.dropped + k && r.frontOffset == c.frontOffset
    decreases |c.queue|
  {
    hide Good, Least, Room, TotalSize, Message.WireSize;
    assert c.queue[0..] == c.queue;
    FullIff(c, m, lim);
    if Full(c, m, lim) && MayDrop(c) {
      DropGood(c);
      var k' := RoomMade(DropFront(c), m, lim);
      LeastStep(c, m, lim, k');
      k := k' + 1;
      assert c.queue[1..][k'..] == c.queue[k..];
    } else {
      k := 0;
      NoneDropped(c, m, lim);
    }
  }

  lemma FullIff(c: ClientState, m: Message, lim: Limits)
    requires Good(c)
    ensures Full(c, m, lim) <==> !Room(c, m, lim, 0)
  {
    hide Message.WireSize;
    assert c.queue[0..] == c.queue;
  }

  lemma NoneDropped(c: ClientState, m: Message, lim: Limits)
    requires Room(c, m, lim, 0) || !MayDrop(c)
    ensures Least(c, m, lim, 0)
  {
    hide Room;
  }

  lemma RoomShift(c: ClientState, m: Message, lim: Limits, j: nat)
    requires j < |c.queue|
    ensures Room(DropFront(c), m, lim, j) <==> Room(c, m, lim, j + 1)
  {
    hide Message.WireSize, TotalSize;
    assert DropFront(c).queue[j..] == c.queue[j + 1..];
  }

  lemma LeastStep(c: ClientState, m: Message, lim: Limits, k: nat)
    requires MayDrop(c) && !Room(c, m, lim, 0) && Least(DropFront(c), m, lim, k)
    ensures Least(c, m, lim, k + 1)
  {
    hide Message.WireSize, Room;
    var d := DropFront(c);
    forall j: nat | j < k + 1 ensures !c.queue[j].control && !Room(c, m, lim, j) {
      if j > 0 {
        assert c.queue[j] == d.queue[j - 1];
        RoomShift(c, m, lim, j - 1);
      }
    }
    if k < |d.queue| { RoomShift(c, m, lim, k); }
  }

  lemma {:induction false} WriteKeepsOrder(c: ClientState, io: seq<Io>)
    requires Good(c)
    ensures var d := Write(c, io); d.onWire + d.queue == c.onWire + c.queue && d.dropped == c.dropped
    decreases |io|
  {
    hide Good, Message.WireSize, Message.Image;
    GoodTracks(c);
    if c.queue != [] && io != [] {
      match io[0]
      case Again =>
      case Interrupted => WriteKeepsOrder(c, io[1..]);
      case Fatal =>
      case Wrote(n) =>
        var d := Advance(c, Written(c, n));
        AdvanceGood(c, Written(c, n));
        AdvanceKeepsOrder(c, Written(c, n));
        if |d.queue| < |c.queue| { WriteKeepsOrder(d, io[1..]); }
    }
  }

  lemma AdvanceKeepsOrder(c: ClientState, n: nat)
    requires c.queue != [] && c.frontOffset + n <= c.queue[0].WireSize()
    ensures var d := Advance(c, n); d.onWire + d.queue == c.onWire + c.queue && d.dropped == c.dropped
  {
    hide Message.WireSize, Message.Image;
    assert (c.onWire + [c.queue[0]]) + c.queue[1..] == c.onWire + c.queue;
  }

  /** An enqueue, whatever the socket takes: the oldest droppable messages give way, as few as make room, and the new
      one follows the rest. */
  lemma DropsOldestOnly(c: ClientState, m: Message, lim: Limits, io: seq<Io>) returns (k: nat)
    requires Good(c)
    ensures k <= |c.queue| && Least(c, m, lim, k)
    ensures var d := Enqueued(c, m, lim, io);
      && d.onWire + d.queue == c.onWire + c.queue[k..] + [m] && d.dropped == c.dropped + k
      && (io == [] ==> d.onWire == c.onWire && d.queue == c.queue[k..] + [m] && d.frontOffset == c.frontOffset)
  {
    hide Good, Least, Message.WireSize;
    k := RoomMade(c, m, lim);
    MakeRoomGood(c, m, lim);
    var r := MakeRoom(c, m, lim);
    PushGood(r, m);
    WriteKeepsOrder(Push(r, m), io);
    assert r.onWire + (r.queue + [m]) == r.onWire + r.queue + [m];
  }

  lemma WriteNothing(c: ClientState)
    requires Good(c)
    ensures FrontOk(c) && Write(c, []) == c
  {}

  /** An enqueue is one whose write takes nothing, then the write. */
  lemma EnqueueWrites(c: ClientState, m: Message, lim: Limits, io: seq<Io>)
    requires Good(c)
    ensures Good(Enqueued(c, m, lim, [])) && Enqueued(c, m, lim, io) == Write(Enqueued(c, m, lim, []), io)
  {
    hide Good, Push, MakeRoom;
    EnqueueGood(c, m, lim, []);
    MakeRoomGood(c, m, lim);
    PushGood(MakeRoom(c, m, lim), m);
    WriteNothing(Push(MakeRoom(c, m, lim), m));
  }

  /** Before the socket takes anything, an enqueue leaves the limits kept, or just the new message queued, or a front
      that may not be dropped: a control message, or one partly written. */
  lemma LimitsAfterEnqueue(c: ClientState, m: Message, lim: Limits)
    requires Good(c)
    ensures var d := Enqueued(c, m, lim, []);
      || (|d.queue| <= lim.maxMsgs && TotalSize(d.queue) <= lim.maxBytes)
      || d.queue == [m] || d.queue[0].control || d.frontOffset > 0
  {
    hide Good, Message.WireSize;
    var k := DropsOldestOnly(c, m, lim, []);
    TotalSizeSnoc(c.queue[k..], m);
    if k < |c.queue| { assert (c.queue[k..] + [m])[0] == c.queue[k]; }
  }

  /** What one result of writev does: nothing on Again, death on a fatal error, both whatever would come after. */
  lemma WriteByError(c: ClientState, io: seq<Io>)
    requires Good(c) && c.queue != []
    ensures Write(c, [Again] + io) == c && Write(c, [Interrupted] + io) == Write(c, io)
    ensures Write(c, [Fatal] + io) == c.(dead := true)
  {
    hide Good, Advance;
    GoodTracks(c);
    assert ([Again] + io)[0] == Again && ([Fatal] + io)[0] == Fatal && ([Interrupted] + io)[0] == Interrupted;
    assert ([Interrupted] + io)[1..] == io;
  }

  /** A short count ends the write: so many bytes more of the front message, and the rest kept for later. */
  lemma WriteShort(c: ClientState, io: seq<Io>, n: nat)
    requires Good(c) && c.queue != [] && c.frontOffset + n < c.queue[0].WireSize()
    ensures Write(c, [Wrote(n)] + io) ==
      c.(wire := c.wire + c.queue[0].Image()[c.frontOffset..c.frontOffset + n], frontOffset := c.frontOffset + n)
  {
    hide Good, Message.WireSize, Message.Image;
    GoodTracks(c);
    assert ([Wrote(n)] + io)[0] == Wrote(n);
  }

  /** A client dies of a fatal error and nothing else. */
  lemma {:induction false} DiesOnlyOfFatal(c: ClientState, io: seq<Io>)
    requires Good(c) && Fatal !in io
    ensures Write(c, io).dead == c.dead
    decreases |io|
  {
    hide Good, Message.WireSize, Message.Image;
    GoodTracks(c);
    if c.queue != [] && io != [] {
      match io[0]
      case Again =>
      case Interrupted => DiesOnlyOfFatal(c, io[1..]);
      case Fatal =>
      case Wrote(n) =>
        var d := Advance(c, Written(c, n));
        AdvanceGood(c, Written(c, n));
        if |d.queue| < |c.queue| { DiesOnlyOfFatal(d, io[1..]); }
    }
  }

  /** However much was written before it, a fatal error met while something is queued is the client's end. */
  lemma {:induction false} FatalKills(c: ClientState, io: seq<Io>, rest: seq<Io>)
    requires Good(c) && Fatal !in io && Again !in io && Write(c, io).queue != []
    requires forall n: nat | Wrote(n) in io :: forall m | m in c.queue :: n >= m.WireSize()
    ensures Write(c, io + [Fatal] + rest).dead
    decreases |io|
  {
    hide Good, Message.WireSize, Message.Image;
    GoodTracks(c);
    var all := io + [Fatal] + rest;
    if io == [] {
      assert all[0] == Fatal && c.queue != [];
    } else {
      var tail := io[1..];
      assert all[0] == io[0] && all[1..] == tail + [Fatal] + rest && io[0] in io;
      assert forall r | r in tail :: r in io;
      if c.queue != [] {
        match io[0]
        case Interrupted => FatalKills(c, tail, rest);
        case Wrote(n) =>
          var d := Advance(c, Written(c, n));
          AdvanceGood(c, Written(c, n));
          assert c.queue[0] in c.queue && Wrote(n) in io;
          assert Written(c, n) == c.queue[0].WireSize() - c.frontOffset && d.queue == c.queue[1..];
          FatalKills(d, tail, rest);
        case Fatal =>
        case Again =>
      }
    }
  }

  function FramesOf(ms: seq<Message>): seq<Frame> { seq(|ms|, i requires 0 <= i < |ms| => ms[i].ToFrame()) }

  lemma {:induction false} ImagesAreFrames(ms: seq<Message>)
    ensures ImagesOf(ms) == Images(FramesOf(ms))
  {
    if ms != [] {
      ImagesAreFrames(Front(ms));
      assert FramesOf(ms) == FramesOf(Front(ms)) + [Last(ms).ToFrame()];
      ImagesSnoc(FramesOf(Front(ms)), Last(ms).ToFrame());
      MessageImage(Last(ms));
    }
  }

  lemma MessageImage(m: Message)
    ensures m.ToFrame().Image() == m.Image()
  {
    assert HeaderBytes(m.header) + (m.body + m.Payload()) == HeaderBytes(m.header) + m.body + m.Payload();
  }

  lemma {:induction false} ImagesSnoc(fs: seq<Frame>, f: Frame)
    ensures Images(fs + [f]) == Images(fs) + f.Image()
  {
    hide Frame.Image;
    if fs == [] {
      assert fs + [f] == [f] && Images([f]) == f.Image() + Images([]);
    } else {
      ImagesSnoc(fs[1..], f);
      assert (fs + [f])[1..] == fs[1..] + [f];
      assert fs[0].Image() + (Images(fs[1..]) + f.Image()) == fs[0].Image() + Images(fs[1..]) + f.Image();
    }
  }

  /** The written part of the front message does not yet look whole, or bad, to a parser. */
  predicate FrontReadable(c: ClientState) {
    || c.queue == [] || c.frontOffset < HEADER_SIZE
    || (c.queue[0].header.Acceptable() && c.frontOffset < HEADER_SIZE + c.queue[0].header.PayloadSize())
  }

  lemma FrontReadableIff(c: ClientState)
    requires FrontOk(c)
    ensures FrontReadable(c) <==> Next(Partial(c)) == Wait
  {
    hide HeaderBytes;
    if c.queue != [] && c.frontOffset >= HEADER_SIZE {
      var p, h := Partial(c), c.queue[0].header;
      assert p == HeaderBytes(h) + p[HEADER_SIZE..];
      HeaderRoundTrip(h, p[HEADER_SIZE..]);
    }
  }

  lemma FramesAreWire(ms: seq<Message>)
    ensures (forall m | m in ms :: m.Deframable()) <==> (forall f | f in FramesOf(ms) :: f.Wire())
  {
    hide Frame.Wire;
    var fs := FramesOf(ms);
    assert forall i | 0 <= i < |ms| :: fs[i] == ms[i].ToFrame() && fs[i] in fs && ms[i] in ms;
    if forall m | m in ms :: m.Deframable() {
      forall f | f in fs ensures f.Wire() {
        var i :| 0 <= i < |fs| && fs[i] == f;
        assert ms[i].Deframable();
      }
    } else {
      var m :| m in ms && !m.Deframable();
      var i :| 0 <= i < |ms| && ms[i] == m;
      assert !fs[i].Wire();
    }
  }

  /** End to end: at every moment, a consumer that deframes the bytes on the wire, however they are cut, has exactly the
      messages sent to it and holds back exactly the first frontOffset bytes of the next — if and only if every message
      sent is within what the parser accepts and the partly written one does not yet break it. */
  lemma EndToEnd(c: ClientState, chunks: seq<seq<byte>>)
    requires Good(c) && Concat(chunks) == c.wire
    ensures Reads(Reader([], []), chunks) == Reader(FramesOf(c.onWire), Partial(c)) <==>
            (forall m | m in c.onWire :: m.Deframable()) && FrontReadable(c)
  {
    hide Next, Drain, Images, ImagesOf, Tracked, Frame.Image, Reads, FramesOf, Partial, FrontReadable, Message.Deframable;
    var fs := FramesOf(c.onWire);
    ImagesAreFrames(c.onWire);
    ShortWaits([]);
    FrontReadableIff(c);
    FramesAreWire(c.onWire);
    assert [] + Concat(chunks) == c.wire;
    var more := ReadsAccount(Reader([], []), chunks);
    assert [] + more == more;
    var all, got := Drain(c.wire), Reads(Reader([], []), chunks);
    if forall f | f in fs :: f.Wire() {
      ImagesFirst(fs, Partial(c));
      ReadsFrom(Reader([], []), chunks);
      DrainOfPartial(Partial(c));
      FramesAdded(fs, Drain(Partial(c)).frames);
      assert all.frames == fs + Drain(Partial(c)).frames;
      assert got == Reader(fs, Partial(c)) ==> !all.bad;
      assert got == Reader(fs, Partial(c)) ==> FrontReadable(c);
      assert FrontReadable(c) ==> got == Reader(fs, Partial(c));
    } else {
      assert got != Reader(fs, Partial(c));
    }
  }

  lemma DrainOfPartial(p: seq<byte>)
    ensures Next(p) == Wait <==> !Drain(p).bad && Drain(p).frames == []
    ensures Next(p) == Wait ==> Drain(p).rest == p
  {}

  lemma FramesAdded(fs: seq<Frame>, more: seq<Frame>)
    ensures [] + (fs + more) == fs + more && (fs + more == fs <==> more == [])
  {
    assert |fs + more| == |fs| + |more|;
  }

  lemma WholeWritten(c: ClientState, n: nat)
    requires c.queue != [] && FrontOk(c) && n >= c.queue[0].WireSize()
    ensures var d := Advance(c, Written(c, n));
      d.queue == c.queue[1..] && d.onWire == c.onWire + [c.queue[0]] && d.dead == c.dead && d.frontOffset == 0
  {
    hide Message.WireSize, Message.Image;
  }

  /** A socket that takes everything empties the queue: all of it is on the wire, in order. */
  lemma {:induction false} WritesAll(c: ClientState, io: seq<Io>)
    requires Good(c) && |io| >= |c.queue|
    requires forall r, m | r in io && m in c.queue :: r.Wrote? && r.n >= m.WireSize()
    ensures var d := Write(c, io);
      d.queue == [] && d.onWire == c.onWire + c.queue && d.dead == c.dead && d.frontOffset == 0
    decreases |io|
  {
    hide Good, Advance, Message.WireSize;
    GoodTracks(c);
    if c.queue != [] {
      assert io[0] in io && c.queue[0] in c.queue;
      var d := Advance(c, Written(c, io[0].n));
      AdvanceGood(c, Written(c, io[0].n));
      WholeWritten(c, io[0].n);
      forall r, m | r in io[1..] && m in d.queue ensures r.Wrote? && r.n >= m.WireSize() {
        assert r in io && m in c.queue;
      }
      WritesAll(d, io[1..]);
      assert c.onWire + c.queue == d.onWire + d.queue;
    } else {
      assert c.onWire + [] == c.onWire;
    }
  }

  // ----- the methods, over fields -----

  class Client {
    var queue: seq<Message>
    var queuedBytes: int
    var frontOffset: nat
    var sent: nat
    var dropped: nat
    var wantVideo: bool
    var wantAudio: bool
    var wantEvents: bool
    var dead: bool
    ghost var accepted: seq<Message>
    ghost var onWire: seq<Message>
    ghost var wire: seq<byte>
    ghost var live: seq<nat>

    ghost function State(): ClientState
      reads this
    {
      ClientState(queue, queuedBytes, frontOffset, sent, dropped, wantVideo, wantAudio, wantEvents, dead,
                  accepted, onWire, wire, live)
    }

    constructor ()
      ensures State() == Fresh()
    {
      queue, queuedBytes, frontOffset, sent, dropped := [], 0, 0, 0, 0;
      wantVideo, wantAudio, wantEvents, dead := true, true, true, false;
      accepted, onWire, wire, live := [], [], [], [];
    }

    method PushBack(m: Message)
      modifies this
      ensures State() == Push(old(State()), m)
    {
      live, accepted := live + [|accepted|], accepted + [m];
      queue, queuedBytes := queue + [m], queuedBytes + m.WireSize();
    }

    method DropOldestFor(m: Message, lim: Limits)
      requires Good(State())
      modifies this
      ensures State() == MakeRoom(old(State()), m, lim) && Good(State())
    {
      hide Good, DropFront, Message.WireSize;
      while (|queue| >= lim.maxMsgs || queuedBytes + m.WireSize() > lim.maxBytes) && queue != []
        invariant Good(State()) && MakeRoom(State(), m, lim) == old(MakeRoom(State(), m, lim))
        decreases |queue|
      {
        if queue[0].control || frontOffset > 0 { break; }
        DropGood(State());
        GoodTracks(State());
        PopFront();
      }
    }

    method PopFront()
      requires queue != [] && sent < |live|
      modifies this
      ensures State() == DropFront(old(State())) && |queue| < old(|queue|)
    {
      queuedBytes := queuedBytes - queue[0].WireSize();
      queue := queue[1..];
      dropped := dropped + 1;
      live := live[..sent] + live[sent + 1..];
    }

    method OnWritable(io: seq<Io>)
      requires Good(State())
      modifies this
      ensures State() == Write(old(State()), io) && Good(State())
    {
      hide Good, Advance;
      var next := 0;
      GoodTracks(State());
      assert io[0..] == io;
      while queue != [] && next < |io|
        invariant next <= |io| && Good(State()) && FrontOk(State())
        invariant Write(State(), io[next..]) == old(Write(State(), io))
        decreases |io| - next
      {
        var result := io[next];
        assert io[next..][0] == result && io[next..][1..] == io[next + 1..];
        next := next + 1;
        match result
        case Again => return;
        case Interrupted =>
        case Fatal =>
          DeadGood(State());
          dead := true;
          return;
        case Wrote(n) =>
          ghost var before := State();
          AdvanceGood(before, Written(before, n));
          var whole := WriteTail(n);
          GoodTracks(State());
          if !whole { return; }
      }
    }

    /** One writev of the unwritten tail of the front message, as up to two buffers. */
    method WriteTail(n: nat) returns (whole: bool)
      requires queue != [] && FrontOk(State())
      modifies this
      ensures State() == Advance(old(State()), Written(old(State()), n))
      ensures whole <==> |queue| < old(|queue|)
    {
      hide Message.Image, Message.WireSize;
      var m, off := queue[0], frontOffset;
      var tail := Tail(m, off);
      var w := Min(n, |tail|);
      assert tail[..w] == m.Image()[off..off + w];
      wire := wire + tail[..w];
      frontOffset := off + w;
      whole := frontOffset >= m.WireSize();
      if whole { Retire(); }
    }

    method Retire()
      requires queue != []
      modifies this`frontOffset, this`queuedBytes, this`sent, this`queue, this`onWire
      ensures frontOffset == 0 && sent == old(sent) + 1 && queue == old(queue)[1..] && onWire == old(onWire) + [old(queue)[0]]
      ensures queuedBytes == old(queuedBytes) - old(queue)[0].WireSize()
    {
      onWire := onWire + [queue[0]];
      frontOffset, queuedBytes, sent, queue := 0, queuedBytes - queue[0].WireSize(), sent + 1, queue[1..];
    }

    /** The buffers handed to writev: the rest of the prefix and the payload, or the rest of the payload. */
    static method Tail(m: Message, off: nat) returns (tail: seq<byte>)
      requires off < m.WireSize()
      ensures tail == m.Image()[off..]
    {
      var prefix := m.Prefix();
      if off < |prefix| {
        tail := prefix[off..];
        if m.payload.Some? && m.payload.value != [] { tail := tail + m.payload.value; }
      } else {
        tail := m.payload.value[off - |prefix|..];
      }
    }

    method Enqueue(m: Message, lim: Limits, io: seq<Io>)
      requires Good(State())
      modifies this
      ensures State() == Enqueued(old(State()), m, lim, io) && Good(State())
    {
      hide Good;
      DropOldestFor(m, lim);
      PushGood(State(), m);
      PushBack(m);
      OnWritable(io);
    }
  }

  lemma GoodTracks(c: ClientState)
    requires Good(c)
    ensures FrontOk(c) && |c.live| == c.sent + |c.queue|
  {}
}
