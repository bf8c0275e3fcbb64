/** Who is given what: every consumer's history, operation by operation and over runs, told by what it asked for and by
    what was sent, and what a consumer that joins late is greeted with. */
module Delivery {
  import opened Common
  import opened StreamProtocol
  import opened Payloads
  import opened Clients
  import opened LinkSpec
  import opened LinkControl

  // ----- one broadcast -----

  /** A live consumer's entry after a broadcast, in the table or, if it died of the write, among the gone. */
  ghost predicate Became(h: Hub, fd: nat, d: Consumer) {
    if d.dead then d in h.gone && fd !in h.clients else fd in h.clients && h.clients[fd] == d
  }

  lemma BroadcastGives(h: Hub, m: Message, video: bool, audio: bool, events: bool, lim: Limits, io: Ios, fd: nat)
    returns (d: Consumer)
    requires fd in h.clients && !h.clients[fd].dead
    ensures Became(Broadcast(h, m, video, audio, events, lim, io), fd, d) && SameWishes(h.clients[fd], d)
    ensures var c := h.clients[fd];
      var given := m.control || (video && c.wantVideo) || (audio && c.wantAudio) || (events && c.wantEvents);
      d.accepted == c.accepted + if given then [m] else []
  {
    hide Good, Enqueued;
    var c := h.clients[fd];
    d := Offered(c, m, video, audio, events, lim, IoOf(io, fd));
    EnqueueGood(c, m, lim, IoOf(io, fd));
    EnqueueKeepsWishes(c, m, lim, IoOf(io, fd));
    assert c.accepted + [] == c.accepted;
    ReapedOrKept(OfferAll(h, m, video, audio, events, lim, io), fd);
  }

  /** The dead leave the table for the gone, and only they. */
  lemma ReapedOrKept(h: Hub, fd: nat)
    requires fd in h.clients
    ensures Became(Reap(h), fd, h.clients[fd])
    ensures forall f | f in Reap(h).clients :: Live(h, f) && Reap(h).clients[f] == h.clients[f]
  {
    hide Good;
    var d := h.clients[fd];
    if d.dead { assert d in set f | f in h.clients && h.clients[f].dead :: h.clients[f]; }
  }

  /** A media unit: a live consumer is given it exactly when it asked for its stream. */
  lemma MediaGiven(h: Hub, s: Stream, keyframe: bool, pts: u64, payload: seq<byte>, lim: Limits, io: Ios, fd: nat)
    returns (d: Consumer, unit: Message)
    requires fd in h.clients && !h.clients[fd].dead && payload != []
    ensures Became(SendMedia(h, s, keyframe, pts, payload, lim, io), fd, d) && SameWishes(h.clients[fd], d)
    ensures unit.header.kind == MEDIA && unit.header.stream == Id(s) && unit.header.pts == pts && unit.payload == Some(payload)
    ensures var c := h.clients[fd];
      d.accepted == c.accepted + if (if s == Video then c.wantVideo else c.wantAudio) then [unit] else []
  {
    hide Good, Broadcast, Made, Quiet;
    var isKey := keyframe && s == Video;
    var flags, number := if isKey then FLAG_KEYFRAME else 0, h.Of(s).next;
    unit := MakeMedia(h, MEDIA, s, flags, number, pts, payload);
    MediaMade(h, MEDIA, s, flags, number, pts, payload);
    var h1 := h.With(s, h.Of(s).(next := number + 1));
    var h2 := if isKey then h1.(keyframe := Some(MakeMedia(h, KEYFRAME, s, flags, number, pts, payload))) else h1;
    assert h2.clients == h.clients && h2.clients != map[];
    d := BroadcastGives(h2, unit, s == Video, s == Audio, false, lim, io, fd);
  }

  /** An event: every live consumer is given it, whatever it asked for. */
  lemma EventGiven(h: Hub, body: seq<byte>, health: bool, lim: Limits, io: Ios, fd: nat) returns (d: Consumer, event: Message)
    requires fd in h.clients && !h.clients[fd].dead
    ensures Became(Publish(h, body, health, lim, io), fd, d) && SameWishes(h.clients[fd], d)
    ensures event.header.kind == EVENT && event.header.stream == MONITOR && event.body == body && event.number == h.eventNumber
    ensures d.accepted == h.clients[fd].accepted + [event]
  {
    hide Good, Broadcast, Made, Quiet;
    event := MakeControl(h.generation, EVENT, MONITOR, h.eventNumber, body, true);
    ControlMade(h.generation, EVENT, MONITOR, h.eventNumber, body, true);
    d := BroadcastGives(h.(eventNumber := h.eventNumber + 1), event, false, false, true, lim, io, fd);
  }

  // ----- any operation -----

  function Cached(o: Option<Message>): seq<Message> { if o.Some? then [o.value] else [] }

  /** What an operation gives a consumer that outlives it. */
  ghost function Gain(h: Hub, op: Op, fd: nat): seq<Message>
    requires fd in h.clients
  {
    var c := h.clients[fd];
    match op
    case OpSubscribe(f, video, audio, _, _) =>
      if f != fd then [] else (if video then Cached(h.video.hello) else []) + (if audio then Cached(h.audio.hello) else [])
    case OpRespond(f, body, _) => if f == fd then [MakeControl(h.generation, RESPONSE, MONITOR, 0, body, true)] else []
    case OpStats(_) => [StatsMessage(h, c)]
    case OpPublish(body, _, _) => [MakeControl(h.generation, EVENT, MONITOR, h.eventNumber, body, true)]
    case OpSetStreamParams(s, params, _, _) =>
      var body, was, other := HelloBody(params), h.Of(s).body, h.Of(Other(s)).body;
      if body == was then []
      else if was == [] then [MakeHello(h.generation, s, body)]
      else [MakeHello(h.generation + 1, s, body)] + if other == [] then [] else [MakeHello(h.generation + 1, Other(s), other)]
    case OpSendMedia(s, keyframe, pts, payload, _) =>
      if payload != [] && (if s == Video then c.wantVideo else c.wantAudio)
      then [MakeMedia(h, MEDIA, s, if keyframe && s == Video then FLAG_KEYFRAME else 0, h.Of(s).next, pts, payload)]
      else []
    case _ => []
  }

  /** Alive after an operation: in the table and not dead. */
  ghost predicate Live(h: Hub, fd: nat) { fd in h.clients && !h.clients[fd].dead }

  lemma FlushKeepsWishes(c: Consumer, io: seq<Io>)
    ensures Flushed(c, io).accepted == c.accepted && SameWishes(c, Flushed(c, io)) && (c.dead ==> Flushed(c, io).dead)
  {
    hide Good, Write;
    WriteGood(c, io);
    WriteKeepsWishes(c, io);
  }

  /** A broadcast leaves alive only who was, given the message if it is for them. */
  lemma BroadcastKeeps(h: Hub, m: Message, video: bool, audio: bool, events: bool, lim: Limits, io: Ios, fd: nat)
    requires Live(Broadcast(h, m, video, audio, events, lim, io), fd)
    ensures Live(h, fd)
    ensures var c, d := h.clients[fd], Broadcast(h, m, video, audio, events, lim, io).clients[fd];
      var given := m.control || (video && c.wantVideo) || (audio && c.wantAudio) || (events && c.wantEvents);
      SameWishes(c, d) && d.accepted == c.accepted + if given then [m] else []
  {
    hide Good, Enqueued, SameWishes;
    DeadStayDead(h.clients[fd], m, video, audio, events, lim, IoOf(io, fd));
    var d := BroadcastGives(h, m, video, audio, events, lim, io, fd);
  }

  lemma DeadStayDead(c: Consumer, m: Message, video: bool, audio: bool, events: bool, lim: Limits, io: seq<Io>)
    requires !Offered(c, m, video, audio, events, lim, io).dead
    ensures !c.dead
  {}

  lemma SubscribeGives(h: Hub, fd: nat, video: bool, audio: bool, events: bool, io: seq<Io>)
    requires Live(Subscribe(h, fd, video, audio, events, io), fd)
    ensures Live(h, fd)
    ensures var d := Subscribe(h, fd, video, audio, events, io).clients[fd];
      && d.wantVideo == video && d.wantAudio == audio && d.wantEvents == events
      && d.accepted == h.clients[fd].accepted + (if video then Cached(h.video.hello) else []) + (if audio then Cached(h.audio.hello) else [])
  {
    hide Good, Write, Push, Flushed;
    var c := Wishing(h.clients[fd], video, audio, events);
    var c1 := if video then PushedIf(c, h.video.hello) else c;
    var c2 := if audio then PushedIf(c1, h.audio.hello) else c1;
    assert c.accepted + [] == c.accepted;
    if video { PushedGives(c, h.video.hello); }
    if audio { PushedGives(c1, h.audio.hello); }
    assert c1.accepted + [] == c1.accepted;
    FlushKeepsWishes(c2, io);
  }

  lemma PushedGives(c: Consumer, o: Option<Message>)
    ensures var d := PushedIf(c, o);
      d.accepted == c.accepted + Cached(o) && SameWishes(c, d) && d.dead == c.dead
  {
    hide Good;
    assert c.accepted + [] == c.accepted;
  }

  lemma RespondGives(h: Hub, fd: nat, body: seq<byte>, io: seq<Io>)
    requires Live(Respond(h, fd, body, io), fd)
    ensures Live(h, fd)
    ensures var c, d := h.clients[fd], Respond(h, fd, body, io).clients[fd];
      SameWishes(c, d) && d.accepted == c.accepted + [MakeControl(h.generation, RESPONSE, MONITOR, 0, body, true)]
  {
    hide Good, Write, Flushed;
    FlushKeepsWishes(Pushed(h.clients[fd], MakeControl(h.generation, RESPONSE, MONITOR, 0, body, true)), io);
  }

  lemma StatsGives(h: Hub, io: Ios, fd: nat)
    requires Live(PushStats(h, io), fd)
    ensures Live(h, fd)
    ensures var c, d := h.clients[fd], PushStats(h, io).clients[fd];
      SameWishes(c, d) && d.accepted == c.accepted + [StatsMessage(h, c)]
  {
    hide Good, Write, Flushed, StatsMessage;
    FlushKeepsWishes(Pushed(h.clients[fd], StatsMessage(h, h.clients[fd])), IoOf(io, fd));
  }

  lemma HelloGives(h: Hub, s: Stream, body: seq<byte>, lim: Limits, io: Ios, fd: nat)
    requires Live(SendHello(h, s, body, lim, io), fd)
    ensures Live(h, fd)
    ensures var c, d := h.clients[fd], SendHello(h, s, body, lim, io).clients[fd];
      SameWishes(c, d) && d.accepted == c.accepted + [MakeHello(h.generation, s, body)]
  {
    hide Good, Broadcast;
    BroadcastKeeps(WithHello(h, s, body), MakeHello(h.generation, s, body), s == Video, s == Audio, false, lim, io, fd);
  }

  lemma ParamsGive(h: Hub, s: Stream, params: HelloParams, lim: Limits, io: Ios, io2: Ios, fd: nat)
    requires Live(SetStreamParams(h, s, HelloBody(params), lim, io, io2), fd)
    ensures Live(h, fd)
    ensures var c, d := h.clients[fd], SetStreamParams(h, s, HelloBody(params), lim, io, io2).clients[fd];
      SameWishes(c, d) && d.accepted == c.accepted + Gain(h, OpSetStreamParams(s, params, io, io2), fd)
  {
    hide Good, SendHello, HelloBody, MakeHello;
    var body := HelloBody(params);
    var was := h.Of(s).body;
    if body == was {
    } else if was == [] {
      HelloGives(h, s, body, lim, io, fd);
    } else {
      var n := NextGeneration(h);
      var h1 := SendHello(n, s, body, lim, io);
      SendHelloKeeps(n, s, body, lim, io);
      SendHelloGeneration(n, s, body, lim, io);
      assert h1.Of(Other(s)).body == h.Of(Other(s)).body;
      if h1.Of(Other(s)).body != [] { HelloGives(h1, Other(s), h1.Of(Other(s)).body, lim, io2, fd); }
      HelloGives(n, s, body, lim, io, fd);
    }
  }

  lemma SendHelloGeneration(h: Hub, s: Stream, body: seq<byte>, lim: Limits, io: Ios)
    ensures SendHello(h, s, body, lim, io).generation == h.generation
  {
    hide Good;
  }

  lemma MediaGives(h: Hub, s: Stream, keyframe: bool, pts: u64, payload: seq<byte>, lim: Limits, io: Ios, fd: nat)
    requires Live(SendMedia(h, s, keyframe, pts, payload, lim, io), fd)
    ensures Live(h, fd)
    ensures var c, d := h.clients[fd], SendMedia(h, s, keyframe, pts, payload, lim, io).clients[fd];
      SameWishes(c, d) && d.accepted == c.accepted + Gain(h, OpSendMedia(s, keyframe, pts, payload, io), fd)
  {
    hide Good, Broadcast;
    if payload != [] {
      var isKey := keyframe && s == Video;
      var flags, number := if isKey then FLAG_KEYFRAME else 0, h.Of(s).next;
      var unit := MakeMedia(h, MEDIA, s, flags, number, pts, payload);
      var h1 := h.With(s, h.Of(s).(next := number + 1));
      var h2 := if isKey then h1.(keyframe := Some(MakeMedia(h, KEYFRAME, s, flags, number, pts, payload))) else h1;
      assert h2.clients == h.clients;
      if h2.clients != map[] { BroadcastKeeps(h2, unit, s == Video, s == Audio, false, lim, io, fd); }
    }
  }

  /** The wishes after an operation: those of a Subscribe, or the old ones. */
  ghost predicate Wishes(op: Op, fd: nat, c: Consumer, d: Consumer) {
    if op.OpSubscribe? && op.fd == fd then d.wantVideo == op.video && d.wantAudio == op.audio && d.wantEvents == op.events
    else SameWishes(c, d)
  }

  /** Whatever the operation, a consumer alive after it was alive before and was given exactly that. */
  lemma GainedExactly(h: Hub, cfg: Config, op: Op, fd: nat)
    requires Live(Step(h, cfg, op), fd) && (op.OpAccept? ==> op.fd != fd)
    ensures Live(h, fd)
    ensures var c, d := h.clients[fd], Step(h, cfg, op).clients[fd];
      Wishes(op, fd, c, d) && d.accepted == c.accepted + Gain(h, op, fd)
  {
    hide Good, Accept, Subscribe, Respond, PushStats, Publish, SetStreamParams, SendMedia, Flushed, HelloBody;
    match op
    case OpAccept(f, io) => AcceptsOther(h, f, cfg, io, fd);
    case OpSubscribe(f, video, audio, events, io) =>
      if f == fd {
        SubscribeGives(h, fd, video, audio, events, io);
        Nested(h.clients[fd].accepted, if video then Cached(h.video.hello) else [], if audio then Cached(h.audio.hello) else []);
      } else {
        SubscribesOther(h, f, video, audio, events, io, fd);
      }
    case OpRespond(f, body, io) =>
      if f == fd { RespondGives(h, fd, body, io); } else { RespondsOther(h, f, body, io, fd); }
    case OpStats(io) => StatsGives(h, io, fd);
    case OpPublish(body, health, io) => PublishGives(h, body, health, cfg.lim, io, fd);
    case OpSetStreamParams(s, params, io, io2) => ParamsGive(h, s, params, cfg.lim, io, io2, fd);
    case OpSendMedia(s, keyframe, pts, payload, io) => MediaGives(h, s, keyframe, pts, payload, cfg.lim, io, fd);
    case OpFlush(f, io) => if Live(h, f) { FlushKeepsWishes(h.clients[f], io); }
    case _ =>
  }

  lemma Nested(a: seq<Message>, b: seq<Message>, c: seq<Message>)
    ensures a + b + c == a + (b + c)
  {}

  lemma AcceptsOther(h: Hub, f: nat, cfg: Config, io: seq<Io>, fd: nat)
    requires f != fd
    ensures fd in Accept(h, f, cfg, io).clients <==> fd in h.clients
    ensures fd in h.clients ==> Accept(h, f, cfg, io).clients[fd] == h.clients[fd]
  {
    hide Good, Flushed, Welcomed;
  }

  lemma SubscribesOther(h: Hub, f: nat, video: bool, audio: bool, events: bool, io: seq<Io>, fd: nat)
    requires f != fd
    ensures fd in Subscribe(h, f, video, audio, events, io).clients <==> fd in h.clients
    ensures fd in h.clients ==> Subscribe(h, f, video, audio, events, io).clients[fd] == h.clients[fd]
  {
    hide Good, Flushed, PushedIf;
  }

  lemma RespondsOther(h: Hub, f: nat, body: seq<byte>, io: seq<Io>, fd: nat)
    requires f != fd
    ensures fd in Respond(h, f, body, io).clients <==> fd in h.clients
    ensures fd in h.clients ==> Respond(h, f, body, io).clients[fd] == h.clients[fd]
  {
    hide Good, Flushed, Pushed;
  }

  lemma PublishGives(h: Hub, body: seq<byte>, health: bool, lim: Limits, io: Ios, fd: nat)
    requires Live(Publish(h, body, health, lim, io), fd)
    ensures Live(h, fd)
    ensures var c, d := h.clients[fd], Publish(h, body, health, lim, io).clients[fd];
      SameWishes(c, d) && d.accepted == c.accepted + [MakeControl(h.generation, EVENT, MONITOR, h.eventNumber, body, true)]
  {
    hide Good, Broadcast;
    var m := MakeControl(h.generation, EVENT, MONITOR, h.eventNumber, body, true);
    BroadcastKeeps(h.(eventNumber := h.eventNumber + 1), m, false, false, true, lim, io, fd);
  }

  // ----- every operation on a client writes to it -----

  /** What the socket takes matters only to the write at the end: accepting, subscribing, answering and a poll each do what
      they do with a socket that takes nothing, and then write. */
  lemma WritesAfter(h: Hub, cfg: Config, op: Op)
    requires op.OpAccept? || op.OpSubscribe? || op.OpRespond? || op.OpFlush?
    requires op.OpAccept? ==> op.fd !in h.clients && |h.clients| < cfg.maxClients
    requires op.OpFlush? ==> Live(h, op.fd)
    requires op.OpSubscribe? || op.OpRespond? ==> op.fd in h.clients
    ensures op.fd in Step(h, cfg, op).clients && op.fd in Step(h, cfg, op.(ioOne := [])).clients
    ensures Step(h, cfg, op).clients[op.fd] == Write(Step(h, cfg, op.(ioOne := [])).clients[op.fd], op.ioOne)
  {
    hide Good, Pushed, PushedIf, Welcomed;
    forall c: Consumer ensures FrontOk(c) && Write(c, []) == c { WriteNothing(c); }
  }

  /** So do the Stats. */
  lemma StatsWrite(h: Hub, io: Ios, fd: nat)
    requires Live(h, fd)
    ensures PushStats(h, io).clients[fd] == Write(PushStats(h, map[]).clients[fd], IoOf(io, fd))
  {
    hide Good, Pushed, StatsMessage;
    forall c: Consumer ensures FrontOk(c) && Write(c, []) == c { WriteNothing(c); }
  }

  /** And a message offered. */
  lemma OfferWrites(c: Consumer, m: Message, video: bool, audio: bool, events: bool, lim: Limits, io: seq<Io>)
    requires !c.dead && (m.control || (video && c.wantVideo) || (audio && c.wantAudio) || (events && c.wantEvents))
    ensures Offered(c, m, video, audio, events, lim, io) == Write(Offered(c, m, video, audio, events, lim, []), io)
  {
    hide Good, Enqueued, Write;
    EnqueueWrites(c, m, lim, io);
  }

  /** A client that hung up is reaped with its history as it was. */
  lemma HangupEnds(h: Hub, cfg: Config, fd: nat)
    requires fd in h.clients
    ensures var d := Step(Step(h, cfg, OpKill(fd)), cfg, OpReap);
      && fd !in d.clients && exists c: Consumer :: c in d.gone && c.dead && c.accepted == h.clients[fd].accepted
  {
    hide Good;
    var k := Step(h, cfg, OpKill(fd));
    ReapedOrKept(k, fd);
    assert k.clients[fd] in Step(k, cfg, OpReap).gone;
  }

  // ----- over runs -----

  /** No operation gives fd away to a new consumer. */
  predicate Holds(ops: seq<Op>, fd: nat) { forall op | op in ops :: op.OpAccept? ==> op.fd != fd }

  predicate NoNewWishes(ops: seq<Op>, fd: nat) { forall op | op in ops :: op.OpSubscribe? ==> op.fd != fd }

  /** All that a run gives a consumer that outlives it. */
  ghost function Gains(h: Hub, cfg: Config, ops: seq<Op>, fd: nat): seq<Message> {
    if ops == [] then []
    else
      var before := Steps(h, cfg, Front(ops));
      Gains(h, cfg, Front(ops), fd) + if fd in before.clients then Gain(before, Last(ops), fd) else []
  }

  lemma {:induction false} RunGains(h: Hub, cfg: Config, ops: seq<Op>, fd: nat)
    requires Holds(ops, fd) && Live(Steps(h, cfg, ops), fd)
    ensures Live(h, fd)
    ensures Steps(h, cfg, ops).clients[fd].accepted == h.clients[fd].accepted + Gains(h, cfg, ops, fd)
    ensures NoNewWishes(ops, fd) ==> SameWishes(h.clients[fd], Steps(h, cfg, ops).clients[fd])
    decreases |ops|
  {
    hide Good, Step, Gain;
    if ops == [] {
      assert h.clients[fd].accepted + [] == h.clients[fd].accepted;
    } else {
      var before := Steps(h, cfg, Front(ops));
      assert Last(ops) in ops && forall op | op in Front(ops) :: op in ops;
      GainedExactly(before, cfg, Last(ops), fd);
      RunGains(h, cfg, Front(ops), fd);
      var c, g := h.clients[fd].accepted, Gains(h, cfg, Front(ops), fd);
      assert c + g + Gain(before, Last(ops), fd) == c + (g + Gain(before, Last(ops), fd));
    }
  }

  datatype Unit = Unit(s: Stream, payload: seq<byte>)

  /** The media units, and the events, among some messages. */
  function MediaIn(ms: seq<Message>): seq<Unit> {
    if ms == [] then []
    else
      var m := Last(ms);
      MediaIn(Front(ms)) +
      if m.header.kind == MEDIA then [Unit(if m.header.stream == AUDIO then Audio else Video, m.Payload())] else []
  }

  function EventsIn(ms: seq<Message>): seq<seq<byte>> {
    if ms == [] then [] else EventsIn(Front(ms)) + if Last(ms).header.kind == EVENT then [Last(ms).body] else []
  }

  /** The units sent of the streams asked for, and all events published. */
  function Asked(ops: seq<Op>, video: bool, audio: bool): seq<Unit> {
    if ops == [] then []
    else
      var before := Asked(Front(ops), video, audio);
      match Last(ops)
      case OpSendMedia(s, _, _, payload, _) =>
        before + if payload != [] && ((s == Video && video) || (s == Audio && audio)) then [Unit(s, payload)] else []
      case _ => before
  }

  function Published(ops: seq<Op>): seq<seq<byte>> {
    if ops == [] then [] else Published(Front(ops)) + if Last(ops).OpPublish? then [Last(ops).body] else []
  }

  lemma {:induction false} InConcat(a: seq<Message>, b: seq<Message>)
    ensures MediaIn(a + b) == MediaIn(a) + MediaIn(b) && EventsIn(a + b) == EventsIn(a) + EventsIn(b)
    decreases |b|
  {
    hide Message.Payload;
    if b == [] {
      assert a + b == a;
    } else {
      InConcat(a, Front(b));
      assert Front(a + b) == a + Front(b) && Last(a + b) == Last(b);
    }
  }

  lemma OneIn(m: Message)
    ensures MediaIn([m]) == if m.header.kind == MEDIA then [Unit(if m.header.stream == AUDIO then Audio else Video, m.Payload())] else []
    ensures EventsIn([m]) == if m.header.kind == EVENT then [m.body] else []
  {
    assert Front([m]) == [];
  }

  /** An operation other than a Subscribe gives its unit if it was asked for, and its event. */
  lemma GainIn(h: Hub, op: Op, fd: nat)
    requires fd in h.clients && (op.OpSubscribe? ==> op.fd != fd)
    ensures MediaIn(Gain(h, op, fd)) == Asked([op], h.clients[fd].wantVideo, h.clients[fd].wantAudio)
    ensures EventsIn(Gain(h, op, fd)) == Published([op])
  {
    hide Good, HelloBody, MediaIn, EventsIn, Made, Quiet;
    AskedOne(op, h.clients[fd].wantVideo, h.clients[fd].wantAudio);
    Nothing();
    var g := Gain(h, op, fd);
    if |g| == 1 {
      OneIn(g[0]);
      assert g == [g[0]];
    } else if |g| == 2 {
      OneIn(g[0]);
      OneIn(g[1]);
      InConcat([g[0]], [g[1]]);
      assert g == [g[0]] + [g[1]];
    }
  }

  lemma Nothing()
    ensures MediaIn([]) == [] && EventsIn([]) == []
  {}

  lemma AskedOne(op: Op, video: bool, audio: bool)
    ensures Asked([op], video, audio) ==
      match op
      case OpSendMedia(s, _, _, payload, _) =>
        if payload != [] && ((s == Video && video) || (s == Audio && audio)) then [Unit(s, payload)] else []
      case _ => []
    ensures Published([op]) == if op.OpPublish? then [op.body] else []
  {
    assert Front([op]) == [];
  }

  lemma {:induction false} GainsIn(h: Hub, cfg: Config, ops: seq<Op>, fd: nat)
    requires Holds(ops, fd) && NoNewWishes(ops, fd) && Live(Steps(h, cfg, ops), fd)
    ensures Live(h, fd)
    ensures MediaIn(Gains(h, cfg, ops, fd)) == Asked(ops, h.clients[fd].wantVideo, h.clients[fd].wantAudio)
    ensures EventsIn(Gains(h, cfg, ops, fd)) == Published(ops)
    decreases |ops|
  {
    hide Good, Step, Gain, MediaIn, EventsIn;
    RunGains(h, cfg, ops, fd);
    if ops == [] {
      Nothing();
    } else {
      var before, op := Steps(h, cfg, Front(ops)), Last(ops);
      assert op in ops && forall o | o in Front(ops) :: o in ops;
      GainedExactly(before, cfg, op, fd);
      RunGains(h, cfg, Front(ops), fd);
      GainsIn(h, cfg, Front(ops), fd);
      GainIn(before, op, fd);
      AskedOne(op, h.clients[fd].wantVideo, h.clients[fd].wantAudio);
      InConcat(Gains(h, cfg, Front(ops), fd), Gain(before, op, fd));
    }
  }

  /** From a Subscribe to the next one, a consumer that lives is given exactly the units sent of the streams it asked
      for, in order, and every event published, whether it asked for events or not. */
  lemma SubscribedGets(h: Hub, cfg: Config, fd: nat, video: bool, audio: bool, events: bool, io: seq<Io>, ops: seq<Op>)
    returns (gain: seq<Message>)
    requires Holds(ops, fd) && NoNewWishes(ops, fd)
    requires Live(Steps(Step(h, cfg, OpSubscribe(fd, video, audio, events, io)), cfg, ops), fd)
    ensures var h1 := Step(h, cfg, OpSubscribe(fd, video, audio, events, io));
      fd in h1.clients && Steps(h1, cfg, ops).clients[fd].accepted == h1.clients[fd].accepted + gain
    ensures MediaIn(gain) == Asked(ops, video, audio) && EventsIn(gain) == Published(ops)
  {
    hide Good, Step, Gain, MediaIn, EventsIn, Steps, Asked, Published;
    var h1 := Step(h, cfg, OpSubscribe(fd, video, audio, events, io));
    RunGains(h1, cfg, ops, fd);
    GainsIn(h1, cfg, ops, fd);
    GainedExactly(h, cfg, OpSubscribe(fd, video, audio, events, io), fd);
    gain := Gains(h1, cfg, ops, fd);
  }

  // ----- what a late joiner is greeted with -----

  /** What a run's operations come to, the consumers left out: each stream's parameters, the generation, the units sent in
      it, the events published, and the latest keyframe and status. */
  datatype Story = Story(video: seq<byte>, audio: seq<byte>, generation: nat, videoUnits: nat, audioUnits: nat, events: nat,
                         keyframe: Option<Message>, status: Option<Message>)
  {
    function Body(s: Stream): seq<byte> { if s == Video then video else audio }
    function Units(s: Stream): nat { if s == Video then videoUnits else audioUnits }
  }

  /** The bytes of a cached keyframe, from its unit. */
  function KeyframeOf(generation: nat, number: nat, pts: u64, payload: seq<byte>, greeted: bool): Message {
    Message(Header((20 + |payload| % 0x1_0000_0000) % 0x1_0000_0000, 1, KEYFRAME, VIDEO, FLAG_KEYFRAME,
                   number % 0x1_0000_0000, generation % 0x1_0000_0000, pts),
            [], Some(payload), false, generation, number, greeted)
  }

  /** The bytes of an event or a Hello. */
  function NoteOf(generation: nat, kind: byte, stream: byte, number: nat, body: seq<byte>): Message {
    Message(Header((20 + |body| % 0x1_0000_0000) % 0x1_0000_0000, 1, kind, stream, 0,
                   number % 0x1_0000_0000, generation % 0x1_0000_0000, 0),
            body, None, true, generation, number, false)
  }

  /** The story goes on: new parameters of a stream that had some start a generation and forget the keyframe. */
  ghost function Told(st: Story, op: Op): Story {
    match op
    case OpSetStreamParams(s, params, _, _) =>
      var body := HelloBody(params);
      var next := if s == Video then st.(video := body) else st.(audio := body);
      if st.Body(s) == [] || st.Body(s) == body then next
      else next.(generation := st.generation + 1, videoUnits := 0, audioUnits := 0, keyframe := None)
    case OpSendMedia(s, keyframe, pts, payload, _) =>
      if payload == [] then st
      else if s == Audio then st.(audioUnits := st.audioUnits + 1)
      else
        var unit := KeyframeOf(st.generation, st.videoUnits, pts, payload, st.video != []);
        st.(videoUnits := st.videoUnits + 1, keyframe := if keyframe then Some(unit) else st.keyframe)
    case OpPublish(body, health, _) =>
      st.(events := st.events + 1,
          status := if health then Some(NoteOf(st.generation, EVENT, MONITOR, st.events, body)) else st.status)
    case OpSetSnapshot(body) => st.(status := Some(NoteOf(st.generation, EVENT, MONITOR, st.events, body)))
    case _ => st
  }

  ghost function StoryOf(ops: seq<Op>): Story {
    if ops == [] then Story([], [], 0, 0, 0, 0, None, None) else Told(StoryOf(Front(ops)), Last(ops))
  }

  /** The hub's own fields are as the story says. */
  ghost predicate AsTold(h: Hub, st: Story) {
    && h.generation == st.generation && h.eventNumber == st.events && h.keyframe == st.keyframe && h.snapshot == st.status
    && forall s :: HelloAsTold(h, st, s)
  }

  ghost predicate HelloAsTold(h: Hub, st: Story, s: Stream) {
    && h.Of(s).next == st.Units(s) && h.Of(s).body == st.Body(s)
    && h.Of(s).hello == if st.Body(s) == [] then None else Some(NoteOf(st.generation, HELLO, Id(s), 0, st.Body(s)))
  }

  /** A broadcast touches the consumers alone. */
  lemma BroadcastHub(h: Hub, m: Message, video: bool, audio: bool, events: bool, lim: Limits, io: Ios)
    ensures var d := Broadcast(h, m, video, audio, events, lim, io); d == h.(clients := d.clients, gone := d.gone)
  {
    hide Good, Offered;
  }

  lemma HelloHub(h: Hub, s: Stream, body: seq<byte>, lim: Limits, io: Ios)
    ensures var d := SendHello(h, s, body, lim, io);
      d == h.With(s, PerStream(Some(MakeHello(h.generation, s, body)), body, h.Of(s).next)).(clients := d.clients, gone := d.gone)
  {
    hide Good, Broadcast;
    BroadcastHub(WithHello(h, s, body), MakeHello(h.generation, s, body), s == Video, s == Audio, false, lim, io);
  }

  lemma ParamsTold(h: Hub, st: Story, s: Stream, params: HelloParams, lim: Limits, io: Ios, io2: Ios)
    requires AsTold(h, st)
    ensures AsTold(SetStreamParams(h, s, HelloBody(params), lim, io, io2), Told(st, OpSetStreamParams(s, params, io, io2)))
  {
    hide Good, SendHello, HelloBody, NextGeneration, HelloAsTold;
    var body := HelloBody(params);
    assert HelloAsTold(h, st, s) && HelloAsTold(h, st, Other(s));
    ToldBody(h, st, s);
    ToldBody(h, st, Other(s));
    if body != h.Of(s).body {
      if h.Of(s).body == [] {
        FirstHelloTold(h, st, s, body, lim, io);
      } else {
        ReconfigureTold(h, st, s, body, lim, io, io2);
      }
    }
  }

  lemma ToldBody(h: Hub, st: Story, s: Stream)
    requires HelloAsTold(h, st, s)
    ensures h.Of(s).body == st.Body(s)
  {}

  function WithBody(st: Story, s: Stream, body: seq<byte>): Story {
    if s == Video then st.(video := body) else st.(audio := body)
  }

  lemma FirstHelloTold(h: Hub, st: Story, s: Stream, body: seq<byte>, lim: Limits, io: Ios)
    requires AsTold(h, st) && body != []
    ensures AsTold(SendHello(h, s, body, lim, io), WithBody(st, s, body))
  {
    hide Good, SendHello;
    HelloHub(h, s, body, lim, io);
    var d, t := SendHello(h, s, body, lim, io), WithBody(st, s, body);
    assert HelloAsTold(h, st, s) && HelloAsTold(h, st, Other(s));
    assert HelloAsTold(d, t, s) && HelloAsTold(d, t, Other(s));
    forall r ensures HelloAsTold(d, t, r) { if r != s { assert r == Other(s); } }
  }

  lemma ReconfigureTold(h: Hub, st: Story, s: Stream, body: seq<byte>, lim: Limits, io: Ios, io2: Ios)
    requires AsTold(h, st) && body != []
    ensures var h1 := SendHello(NextGeneration(h), s, body, lim, io);
      var other := h1.Of(Other(s)).body;
      AsTold(if other == [] then h1 else SendHello(h1, Other(s), other, lim, io2),
             WithBody(st, s, body).(generation := st.generation + 1, videoUnits := 0, audioUnits := 0, keyframe := None))
  {
    hide Good, SendHello;
    var n := NextGeneration(h);
    var h1 := SendHello(n, s, body, lim, io);
    HelloHub(n, s, body, lim, io);
    var other := h1.Of(Other(s)).body;
    HelloHub(h1, Other(s), other, lim, io2);
    var d := if other == [] then h1 else SendHello(h1, Other(s), other, lim, io2);
    var t := WithBody(st, s, body).(generation := st.generation + 1, videoUnits := 0, audioUnits := 0, keyframe := None);
    assert HelloAsTold(h, st, s) && HelloAsTold(h, st, Other(s));
    assert HelloAsTold(d, t, s);
    assert HelloAsTold(d, t, Other(s));
    forall r ensures HelloAsTold(d, t, r) { if r != s { assert r == Other(s); } }
  }

  lemma MediaTold(h: Hub, st: Story, s: Stream, keyframe: bool, pts: u64, payload: seq<byte>, lim: Limits, io: Ios)
    requires AsTold(h, st)
    ensures AsTold(SendMedia(h, s, keyframe, pts, payload, lim, io), Told(st, OpSendMedia(s, keyframe, pts, payload, io)))
  {
    hide Good, Broadcast;
    assert HelloAsTold(h, st, Video) && HelloAsTold(h, st, Audio);
    if payload != [] {
      var isKey := keyframe && s == Video;
      var flags, number := if isKey then FLAG_KEYFRAME else 0, h.Of(s).next;
      var h1 := h.With(s, h.Of(s).(next := number + 1));
      var h2 := if isKey then h1.(keyframe := Some(MakeMedia(h, KEYFRAME, s, flags, number, pts, payload))) else h1;
      BroadcastHub(h2, MakeMedia(h, MEDIA, s, flags, number, pts, payload), s == Video, s == Audio, false, lim, io);
      var d, t := SendMedia(h, s, keyframe, pts, payload, lim, io), Told(st, OpSendMedia(s, keyframe, pts, payload, io));
      assert HelloAsTold(d, t, Video) && HelloAsTold(d, t, Audio);
    }
  }

  lemma PublishTold(h: Hub, st: Story, body: seq<byte>, health: bool, lim: Limits, io: Ios)
    requires AsTold(h, st)
    ensures AsTold(Publish(h, body, health, lim, io), Told(st, OpPublish(body, health, io)))
  {
    hide Good, Broadcast;
    var m := MakeControl(h.generation, EVENT, MONITOR, h.eventNumber, body, true);
    BroadcastHub(h.(eventNumber := h.eventNumber + 1), m, false, false, true, lim, io);
    var d, t := Publish(h, body, health, lim, io), Told(st, OpPublish(body, health, io));
    forall s ensures HelloAsTold(d, t, s) { assert HelloAsTold(h, st, s); }
  }

  lemma StepTold(h: Hub, st: Story, cfg: Config, op: Op)
    requires AsTold(h, st)
    ensures AsTold(Step(h, cfg, op), Told(st, op))
  {
    hide Good, Publish, SetStreamParams, SendMedia, Flushed, Pushed, PushedIf, Welcomed, HelloBody, WithStats;
    match op
    case OpPublish(body, health, io) => PublishTold(h, st, body, health, cfg.lim, io);
    case OpSetStreamParams(s, params, io, io2) => ParamsTold(h, st, s, params, cfg.lim, io, io2);
    case OpSendMedia(s, keyframe, pts, payload, io) => MediaTold(h, st, s, keyframe, pts, payload, cfg.lim, io);
    case _ =>
      forall s ensures HelloAsTold(Step(h, cfg, op), Told(st, op), s) { assert HelloAsTold(h, st, s); }
  }

  /** In every run the generation, the counters and everything cached are as the operations tell. */
  lemma {:induction false} EveryRunAsTold(cfg: Config, ops: seq<Op>)
    ensures AsTold(Run(cfg, ops), StoryOf(ops))
    decreases |ops|
  {
    hide Good, Step, Told;
    if ops != [] {
      EveryRunAsTold(cfg, Front(ops));
      StepTold(Run(cfg, Front(ops)), StoryOf(Front(ops)), cfg, Last(ops));
    }
  }

  /** A consumer accepted after any run, with room in the table, asks for everything and is greeted with each stream's
      parameters in the current generation, the latest status, and the latest keyframe of this generation. */
  lemma LateJoiner(cfg: Config, ops: seq<Op>, fd: nat, io: seq<Io>)
    requires fd !in Run(cfg, ops).clients && |Run(cfg, ops).clients| < cfg.maxClients
    ensures var h := Step(Run(cfg, ops), cfg, OpAccept(fd, io));
      var st := StoryOf(ops);
      && fd in h.clients && h.clients[fd].wantVideo && h.clients[fd].wantAudio && h.clients[fd].wantEvents
      && h.clients[fd].accepted ==
         (if st.video == [] then [] else [NoteOf(st.generation, HELLO, VIDEO, 0, st.video)]) +
         (if st.audio == [] then [] else [NoteOf(st.generation, HELLO, AUDIO, 0, st.audio)]) +
         Cached(st.status) + Cached(st.keyframe)
  {
    hide Good, Run, StoryOf, Flushed, PushedIf;
    var h, st := Run(cfg, ops), StoryOf(ops);
    EveryRunAsTold(cfg, ops);
    assert HelloAsTold(h, st, Video) && HelloAsTold(h, st, Audio);
    var c0 := FreshConsumer();
    assert c0 == Fresh();
    var c1 := PushedIf(c0, h.video.hello);
    var c2 := PushedIf(c1, h.audio.hello);
    var c3 := PushedIf(c2, h.snapshot);
    PushedGives(c0, h.video.hello);
    PushedGives(c1, h.audio.hello);
    PushedGives(c2, h.snapshot);
    PushedGives(c3, h.keyframe);
    FlushKeepsWishes(Welcomed(h), io);
    assert [] + Cached(h.video.hello) == Cached(h.video.hello);
  }

  /** No run has more live entries than the limit. */
  lemma {:induction false} WithinLimit(cfg: Config, ops: seq<Op>)
    ensures |Run(cfg, ops).clients| <= cfg.maxClients
    decreases |ops|
  {
    hide Good, Step;
    if ops != [] {
      WithinLimit(cfg, Front(ops));
      Grows(Run(cfg, Front(ops)), cfg, Last(ops));
    }
  }

  lemma Grows(h: Hub, cfg: Config, op: Op)
    requires |h.clients| <= cfg.maxClients
    ensures |Step(h, cfg, op).clients| <= cfg.maxClients
  {
    hide Good, Accept, Subscribe, Respond, Publish, SetStreamParams, SendMedia, PushStats, Flushed, HelloBody, Reap;
    var d := Step(h, cfg, op);
    match op
    case OpAccept(fd, io) =>
      AcceptGrows(h, fd, cfg, io);
    case _ =>
      NoneJoins(h, cfg, op);
      Fewer(d.clients.Keys, h.clients.Keys);
  }

  lemma AcceptGrows(h: Hub, fd: nat, cfg: Config, io: seq<Io>)
    requires |h.clients| <= cfg.maxClients
    ensures |Accept(h, fd, cfg, io).clients| <= cfg.maxClients
  {
    hide Good, Flushed, Welcomed;
    var d := Accept(h, fd, cfg, io);
    assert d.clients.Keys == h.clients.Keys || (fd !in h.clients && d.clients.Keys == h.clients.Keys + {fd});
    assert |d.clients| == |d.clients.Keys| && |h.clients| == |h.clients.Keys|;
  }

  lemma NoneJoins(h: Hub, cfg: Config, op: Op)
    requires !op.OpAccept?
    ensures forall fd | fd in Step(h, cfg, op).clients :: fd in h.clients
  {
    hide Good, Offered, Flushed, Pushed, PushedIf, HelloBody, WithStats;
  }

  lemma Fewer(a: set<nat>, b: set<nat>)
    requires a <= b
    ensures |a| <= |b|
  {
    if a != b {
      var x :| x in b && x !in a;
      Fewer(a, b - {x});
    }
  }

  /** The Stats a consumer is given tell what was sent to it and what was dropped until then. */
  lemma StatsTell(h: Hub, c: Consumer)
    ensures StatsMessage(h, c).header.kind == STATS && !StatsMessage(h, c).control
    ensures ParseStats(StatsMessage(h, c).body) ==
      Some((|c.onWire| % 0x1_0000_0000_0000_0000, (|c.accepted| - |c.onWire| - |c.queue|) % 0x1_0000_0000_0000_0000))
  {
    hide HeaderBytes, GetU64, PutU64;
    GoodTracked(c);
    CountsAccount(c);
    var sent, dropped := c.sent % 0x1_0000_0000_0000_0000, c.dropped % 0x1_0000_0000_0000_0000;
    StatsRoundTrip(sent, dropped, []);
    assert StatsBytes(sent, dropped) + [] == StatsBytes(sent, dropped);
  }

  lemma CountsAccount(c: ClientState)
    requires Good(c)
    ensures c.sent == |c.onWire| && c.dropped == |c.accepted| - |c.onWire| - |c.queue|
  {}
}
