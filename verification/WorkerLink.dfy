/** The worker link's methods over its fields, each proved to do what the hub's specification says. */
module WorkerLinks {
  import opened Common
  import opened StreamProtocol
  import opened Payloads
  import opened Clients
  import opened LinkSpec
  import opened LinkControl
  import opened Jsons
  import Deframer

  ghost function AsConsumer(c: ClientState): Consumer
    requires Good(c)
  {
    c
  }

  /** Iteration over the client table, in any order. */
  method AnyOf(fds: set<nat>) returns (fd: nat)
    requires fds != {}
    ensures fd in fds
  {
    fd :| fd in fds;
  }

  class WorkerLink {
    const cfg: Config
    var running: bool
    var clients: map<nat, Client>
    var generation: nat
    var video: PerStream
    var audio: PerStream
    var keyframe: Option<Message>
    var snapshot: Option<Message>
    var eventNumber: nat
    ghost var gone: set<Consumer>

    ghost predicate Valid()
      reads this`clients, clients.Values
    {
      && (forall fd | fd in clients :: Good(clients[fd].State()))
      && (forall f, g | f in clients && g in clients && f != g :: clients[f] != clients[g])
    }

    ghost function Table(): map<nat, Consumer>
      requires Valid()
      reads this`clients, clients.Values
    {
      map fd | fd in clients :: AsConsumer(clients[fd].State())
    }

    lemma TableKeys()
      requires Valid()
      ensures Table().Keys == clients.Keys
    {
      hide Good, Client.State;
    }

    lemma DeadKnown()
      requires Valid()
      ensures forall fd | fd in clients :: Table()[fd].dead == clients[fd].dead
    {
      hide Good;
    }

    ghost function State(): Hub
      requires Valid()
      reads this, clients.Values
    {
      Hub(Table(), gone, generation, video, audio, keyframe, snapshot, eventNumber)
    }

    constructor (cfg: Config)
      ensures Valid() && State() == Init() && this.cfg == cfg && !running
    {
      this.cfg, running := cfg, false;
      clients := map[];
      generation, eventNumber := 0, 0;
      video, audio := PerStream(None, [], 0), PerStream(None, [], 0);
      keyframe, snapshot := None, None;
      gone := {};
    }

    static method Offer(c: Client, m: Message, toVideo: bool, toAudio: bool, toEvents: bool, lim: Limits, io: seq<Io>)
      requires Good(c.State())
      modifies c
      ensures Good(c.State()) && c.State() == Offered(old(c.State()), m, toVideo, toAudio, toEvents, lim, io)
    {
      hide Good;
      if c.dead { return; }
      var wanted := (toVideo && c.wantVideo) || (toAudio && c.wantAudio) || (toEvents && c.wantEvents) || m.control;
      if !wanted { return; }
      c.Enqueue(m, lim, io);
    }

    method Enqueue(m: Message, toVideo: bool, toAudio: bool, toEvents: bool, io: Ios)
      requires Valid()
      modifies `clients, `gone, clients.Values
      ensures Valid() && clients.Values <= old(clients.Values)
      ensures State() == Broadcast(old(State()), m, toVideo, toAudio, toEvents, cfg.lim, io)
    {
      hide Good, Client.State, Offered, Reap;
      OfferEach(m, toVideo, toAudio, toEvents, io);
      ReapDead();
    }

    method OfferEach(m: Message, toVideo: bool, toAudio: bool, toEvents: bool, io: Ios)
      requires Valid()
      modifies clients.Values
      ensures Valid() && State() == OfferAll(old(State()), m, toVideo, toAudio, toEvents, cfg.lim, io)
    {
      hide Good, Client.State, Offered, OfferAll;
      ghost var was := Table();
      var todo := clients.Keys;
      while todo != {}
        invariant todo <= clients.Keys
        invariant forall fd | fd in todo :: clients[fd].State() == was[fd]
        invariant forall fd | fd in clients && fd !in todo ::
          clients[fd].State() == Offered(was[fd], m, toVideo, toAudio, toEvents, cfg.lim, IoOf(io, fd))
      {
        var fd := AnyOf(todo);
        Offer(clients[fd], m, toVideo, toAudio, toEvents, cfg.lim, IoOf(io, fd));
        todo := todo - {fd};
      }
      assert forall fd | fd in clients :: Good(Offered(was[fd], m, toVideo, toAudio, toEvents, cfg.lim, IoOf(io, fd)));
      OfferedIs(old(State()), State(), m, toVideo, toAudio, toEvents, cfg.lim, io);
    }

    method ReapDead()
      requires Valid()
      modifies `clients, `gone
      ensures Valid() && State() == Reap(old(State())) && clients.Values <= old(clients.Values)
    {
      hide Good, Client.State, Reap;
      ghost var was := State();
      DeadKnown();
      gone := Reap(was).gone;
      clients := map fd | fd in clients && !clients[fd].dead :: clients[fd];
      ReapedIs(was, State());
    }

    /** acceptClient, once accept() has given a descriptor no live client has. */
    method AcceptClient(fd: nat, io: seq<Io>)
      requires Valid() && fd !in clients
      modifies `clients
      ensures Valid() && State() == Accept(old(State()), fd, cfg, io)
      ensures forall c | c in clients.Values :: c in old(clients.Values) || fresh(c)
    {
      hide Good, Client.State, Flushed, Welcomed, Update;
      SameSize(State(), clients);
      if |clients| >= cfg.maxClients { return; }
      ghost var was := State();
      var c := Welcome(io);
      clients := clients[fd := c];
      AddedIs(was, State(), fd, Flushed(Welcomed(was), io));
    }

    method Welcome(io: seq<Io>) returns (c: Client)
      requires Valid()
      ensures fresh(c) && Good(c.State()) && c.State() == Flushed(Welcomed(State()), io)
    {
      hide Good, Client.State, Push, Write, Fresh;
      c := new Client();
      FreshGood();
      PushIf(c, video.hello);
      PushIf(c, audio.hello);
      PushIf(c, snapshot);
      PushIf(c, keyframe);
      c.OnWritable(io);
    }

    static method PushIf(c: Client, o: Option<Message>)
      requires Good(c.State())
      modifies c
      ensures Good(c.State()) && c.State() == PushedIf(old(c.State()), o)
    {
      hide Good, Client.State, Push;
      if o.Some? {
        PushGood(c.State(), o.value);
        c.PushBack(o.value);
      }
    }

    /** A Subscribe message: an object of wishes, each granted if absent. A wish that is no truth value throws. */
    method OnSubscribe(fd: nat, body: seq<byte>, calls: Calls, io: seq<Io>) returns (ok: bool)
      requires Valid() && fd in clients
      modifies clients[fd]
      ensures Valid() && (ok <==> SubscribeEffect(fd, body, calls, io) != Crash)
      ensures State() == Took(old(State()), cfg, SubscribeEffect(fd, body, calls, io))
    {
      hide Good, Client.State, Flushed, PushedIf, Wishing, BoolAt;
      var j := calls.parse(body);
      if j.None? || !j.value.JObj? { return true; }
      var wantVideo := BoolAt(j.value.members, "video", true);
      if wantVideo.None? { return false; }
      var wantAudio := BoolAt(j.value.members, "audio", true);
      if wantAudio.None? { return false; }
      var wantEvents := BoolAt(j.value.members, "events", true);
      if wantEvents.None? { return false; }
      Resubscribe(clients[fd], wantVideo.value, wantAudio.value, wantEvents.value, video.hello, audio.hello, io);
      return true;
    }

    static method Resubscribe(c: Client, wantVideo: bool, wantAudio: bool, wantEvents: bool,
                              videoHello: Option<Message>, audioHello: Option<Message>, io: seq<Io>)
      requires Good(c.State())
      modifies c
      ensures Good(c.State())
      ensures c.State() ==
        var c0 := Wishing(old(c.State()), wantVideo, wantAudio, wantEvents);
        var c1 := if wantVideo then PushedIf(c0, videoHello) else c0;
        var c2 := if wantAudio then PushedIf(c1, audioHello) else c1;
        Flushed(c2, io)
    {
      hide Good, Push, Write;
      WishesGood(c.State(), wantVideo, wantAudio, wantEvents);
      c.wantVideo, c.wantAudio, c.wantEvents := wantVideo, wantAudio, wantEvents;
      if wantVideo { PushIf(c, videoHello); }
      if wantAudio { PushIf(c, audioHello); }
      c.OnWritable(io);
    }

    /** A Command message: its handler's answer, or what is wrong with it, under the number of the request. */
    method OnCommand(fd: nat, body: seq<byte>, calls: Calls, io: seq<Io>) returns (ok: bool)
      requires Valid() && fd in clients
      modifies clients[fd]
      ensures Valid() && (ok <==> CommandEffect(fd, body, calls, io) != Crash)
      ensures State() == Took(old(State()), cfg, CommandEffect(fd, body, calls, io))
    {
      hide Good, Client.State, Flushed, Pushed, TextAt, CountAt;
      var j := calls.parse(body);
      var r, id := CommandResult(false, "bad command", ""), 0;
      if j.Some? && j.value.JObj? {
        var otherwise := TextAt(j.value.members, "name", "");
        if otherwise.None? { return false; }
        var name, number := TextAt(j.value.members, "cmd", otherwise.value), CountAt(j.value.members, "request_id");
        if name.None? || number.None? { return false; }
        id := number.value;
        r := if calls.handler.Some? then calls.handler.value(name.value, body) else CommandResult(false, "no command handler", "");
      }
      var text := calls.dump(ResponseTo(id, r));
      if text.None? { return false; }
      PushAndWrite(clients[fd], MakeControl(generation, RESPONSE, MONITOR, 0, text.value, true), io);
      return true;
    }

    method Dispatch(fd: nat, f: Deframer.Frame, calls: Calls, io: seq<Io>) returns (ok: bool)
      requires Valid() && fd in clients
      modifies clients[fd]
      ensures Valid() && (ok <==> EffectOf(fd, f, calls, io) != Crash)
      ensures State() == Took(old(State()), cfg, EffectOf(fd, f, calls, io))
    {
      hide Good, Client.State, WorkerLink.Valid, WorkerLink.Table, SubscribeEffect, CommandEffect, Step;
      ok := true;
      if f.header.kind == SUBSCRIBE {
        ok := OnSubscribe(fd, f.body, calls, io);
      } else if f.header.kind == COMMAND {
        ok := OnCommand(fd, f.body, calls, io);
      }
    }

    /** The loop over the complete messages; the first is number first of all the client's messages. */
    method DispatchEach(fd: nat, fs: seq<Deframer.Frame>, first: nat, calls: Calls, ios: nat -> seq<Io>) returns (ok: bool)
      requires Valid() && fd in clients
      modifies clients[fd]
      ensures Valid() && (ok <==> Survives(fd, fs, calls))
      ensures State() == Steps(old(State()), cfg, Orders(fd, fs, first, calls, ios))
    {
      hide Good, Client.State, WorkerLink.Valid, WorkerLink.Table, Survives, EffectOf, Step, Steps, Took, Orders;
      ghost var h := State();
      NothingYet(h, cfg, fd, first, calls, ios);
      var k := 0;
      while k < |fs|
        invariant 0 <= k <= |fs| && Valid() && fd in clients && Survives(fd, fs[..k], calls)
        invariant State() == Steps(h, cfg, Orders(fd, fs[..k], first, calls, ios))
      {
        OrdersSnoc(h, cfg, fd, fs[..k], fs[k], first, calls, ios);
        assert fs[..k] + [fs[k]] == fs[..k + 1];
        ok := Dispatch(fd, fs[k], calls, ios(first + k));
        if !ok {
          CrashEnds(fd, fs[..k + 1], fs, first, calls, ios);
          return;
        }
        k := k + 1;
      }
      assert fs[..k] == fs;
      return true;
    }

    /** One read from a client: its complete messages, handled in order, and its end if the read failed or its stream is
        broken. Not ok: an exception ended the process. */
    method OnReadable(fd: nat, inlet: Deframer.Inlet, got: Option<seq<byte>>, calls: Calls, ios: nat -> seq<Io>) returns (ok: bool)
      requires Valid() && fd in clients && !inlet.dead
      modifies clients[fd], inlet
      ensures Valid()
      ensures var r := old(inlet.State());
        if got == None || got == Some([]) then
          ok && inlet.State() == r.(dead := true) && State() == Kill(old(State()), fd)
        else
          && inlet.State() == Deframer.LinkRead(r, got.value)
          && (ok <==> Survives(fd, Deframer.Drain(r.buf + got.value).frames, calls))
          && State() == Steps(old(State()), cfg, ReadOrders(fd, r, got.value, calls, ios))
    {
      hide Good, Client.State, WorkerLink.Valid, WorkerLink.Table, Survives, EffectOf, Step, Steps, Deframer.Drain, Orders, Kill;
      ghost var h, r := State(), inlet.State();
      var first := |inlet.handled|;
      inlet.OnReadable(got);
      if got == None || got == Some([]) {
        OnHangup(fd);
        return true;
      }
      var fs := inlet.handled[first..];
      assert fs == Deframer.Drain(r.buf + got.value).frames;
      ok := DispatchEach(fd, fs, first, calls, ios);
      ghost var ops := Orders(fd, fs, first, calls, ios);
      assert ops + [] == ops;
      if ok && inlet.dead {
        StepsSnoc(h, cfg, ops, OpKill(fd));
        KillStep(State(), cfg, fd);
        OnHangup(fd);
      }
    }

    static method PushAndWrite(c: Client, m: Message, io: seq<Io>)
      requires Good(c.State())
      modifies c
      ensures Good(c.State()) && c.State() == Flushed(Pushed(old(c.State()), m), io)
    {
      hide Good, Client.State, Push, Write;
      PushGood(c.State(), m);
      c.PushBack(m);
      c.OnWritable(io);
    }

    /** A hangup, the end of the stream or a corrupt inbound header. */
    method OnHangup(fd: nat)
      requires Valid() && fd in clients
      modifies clients[fd]
      ensures Valid() && State() == Kill(old(State()), fd)
    {
      hide Good, Client.State, Killed;
      MarkDead(clients[fd]);
    }

    static method MarkDead(c: Client)
      requires Good(c.State())
      modifies c
      ensures Good(c.State()) && c.State() == Killed(old(c.State()))
    {
      hide Good;
      DeadGood(c.State());
      c.dead := true;
    }

    /** The socket takes more bytes. */
    method OnPollOut(fd: nat, io: seq<Io>)
      requires Valid() && fd in clients
      modifies clients[fd]
      ensures Valid() && State() == Flush(old(State()), fd, io)
    {
      hide Good, Write;
      if !clients[fd].dead { clients[fd].OnWritable(io); }
    }

    /** The periodic Stats push: to every live client, past the queue limits. */
    method PushStatsEach(io: Ios)
      requires Valid()
      modifies clients.Values
      ensures Valid() && State() == PushStats(old(State()), io)
    {
      hide Good, Client.State, WithStats;
      ghost var was, h := Table(), State();
      var todo := clients.Keys;
      while todo != {}
        invariant todo <= clients.Keys
        invariant forall fd | fd in todo :: clients[fd].State() == was[fd]
        invariant forall fd | fd in clients && fd !in todo :: clients[fd].State() == WithStats(h, was[fd], IoOf(io, fd))
      {
        var fd := AnyOf(todo);
        PushStatsTo(clients[fd], generation, h, IoOf(io, fd));
        todo := todo - {fd};
      }
      assert forall fd | fd in clients :: Good(WithStats(h, was[fd], IoOf(io, fd)));
      StatsIs(h, State(), io);
    }

    static method PushStatsTo(c: Client, gen: nat, ghost h: Hub, io: seq<Io>)
      requires Good(c.State()) && h.generation == gen
      modifies c
      ensures Good(c.State()) && c.State() == WithStats(h, old(c.State()), io)
    {
      hide Good, Push, Write;
      if c.dead { return; }
      var body := BuildStats(c.sent % 0x1_0000_0000_0000_0000, c.dropped % 0x1_0000_0000_0000_0000);
      PushAndWrite(c, MakeControl(gen, STATS, VIDEO, 0, body, false), io);
    }

    /** setSnapshotJson: cached, not broadcast. */
    method SetSnapshotJson(raw: seq<byte>, now: u64)
      requires Valid()
      modifies this`snapshot
      ensures Valid() && State() == SetSnapshot(old(State()), EventBody(SnapshotEvent(raw, now)))
    {
      hide Good, Client.State, WorkerLink.Valid, WorkerLink.Table, EventBody, Holds, EventFields;
      var body := BuildEvent(SnapshotEvent(raw, now));
      EventBodyUnique(SnapshotEvent(raw, now), body);
      snapshot := Some(MakeControl(generation, EVENT, MONITOR, eventNumber, body, true));
    }

    method PublishEvent(body: seq<byte>, health: bool, io: Ios)
      requires Valid()
      modifies `clients, `gone, `eventNumber, `snapshot, clients.Values
      ensures Valid() && State() == Publish(old(State()), body, health, cfg.lim, io)
    {
      hide Good, Client.State, WorkerLink.Valid, WorkerLink.Table, Broadcast;
      var m := MakeControl(generation, EVENT, MONITOR, eventNumber, body, true);
      eventNumber := eventNumber + 1;
      Enqueue(m, false, false, true, io);
      if health { snapshot := Some(m); }
    }

    /** publishEventJson, given what its text parses to. Not ok: an exception for the caller. */
    method PublishEventJson(raw: seq<byte>, parsed: Option<Json>, now: u64, io: Ios, io2: Ios) returns (ok: bool)
      requires Valid()
      modifies `clients, `gone, `generation, `video, `audio, `keyframe, `eventNumber, `snapshot, clients.Values
      ensures Valid() && (ok <==> !running || PublishingOf(raw, parsed, now) != Throws)
      ensures State() ==
        if !running then old(State())
        else match PublishingOf(raw, parsed, now)
          case Throws => old(State())
          case Parameters(s, p) => SetStreamParams(old(State()), s, HelloBody(p), cfg.lim, io, io2)
          case Announce(ev, health) => Publish(old(State()), EventBody(ev), health, cfg.lim, io)
    {
      hide Good, Client.State, WorkerLink.Valid, WorkerLink.Table, Publish, SetStreamParams, PublishingOf, EventBody, HelloBody, Holds;
      if !running { return true; }
      var published := PublishingOf(raw, parsed, now);
      match published {
        case Throws => return false;
        case Parameters(s, p) => SetStreamParameters(s, p, io, io2);
        case Announce(ev, health) =>
          var body := BuildEvent(ev);
          EventBodyUnique(ev, body);
          PublishEvent(body, health, io);
      }
      return true;
    }

    method SetStream(s: Stream, p: PerStream)
      requires Valid()
      modifies `video, `audio
      ensures Valid() && State() == old(State()).With(s, p) && clients == old(clients)
    {
      hide Good, Client.State;
      if s == Video { video := p; } else { audio := p; }
    }

    method SendHelloOf(s: Stream, body: seq<byte>, io: Ios)
      requires Valid()
      modifies `clients, `gone, `video, `audio, clients.Values
      ensures Valid() && State() == SendHello(old(State()), s, body, cfg.lim, io) && clients.Values <= old(clients.Values)
    {
      hide Good, Client.State, Broadcast;
      var hello := MakeHello(generation, s, body);
      SetStream(s, PerStream(Some(hello), body, (if s == Video then video else audio).next));
      Enqueue(hello, s == Video, s == Audio, false, io);
    }

    method SetStreamParameters(s: Stream, p: HelloParams, io: Ios, io2: Ios)
      requires Valid()
      modifies `clients, `gone, `generation, `video, `audio, `keyframe, clients.Values
      ensures Valid() && State() == SetStreamParams(old(State()), s, HelloBody(p), cfg.lim, io, io2)
    {
      hide Good, Client.State, WorkerLink.Valid, WorkerLink.Table, SendHello, HelloBody, Holds, HelloFields;
      var body := BuildHello(p);
      HelloBodyIs(p, body);
      var cached := (if s == Video then video else audio).body;
      if body == cached { return; }
      var reconfigure := cached != [];
      if reconfigure {
        generation := generation + 1;
        video, audio, keyframe := video.(next := 0), audio.(next := 0), None;
      }
      SendHelloOf(s, body, io);
      if reconfigure {
        var other := (if s == Video then audio else video).body;
        if other != [] { SendHelloOf(Other(s), other, io2); }
      }
    }

    method SendMediaUnit(s: Stream, isKeyframe: bool, pts: u64, payload: seq<byte>, io: Ios)
      requires Valid()
      modifies `clients, `gone, `video, `audio, `keyframe, clients.Values
      ensures Valid()
      ensures State() == if running then SendMedia(old(State()), s, isKeyframe, pts, payload, cfg.lim, io) else old(State())
    {
      hide Good, Client.State, WorkerLink.Valid, WorkerLink.Table, Broadcast;
      if !running || payload == [] { return; }
      var videoKeyframe := isKeyframe && s == Video;
      var flags := if videoKeyframe then FLAG_KEYFRAME else 0;
      var mine := if s == Video then video else audio;
      var number := mine.next;
      SetStream(s, mine.(next := number + 1));
      if videoKeyframe {
        keyframe := Some(MediaOf(KEYFRAME, s, flags, number, pts, payload, mine.hello.Some?));
      }
      TableKeys();
      NoClientsIff(State(), clients);
      if |clients| == 0 { return; }
      Enqueue(MediaOf(MEDIA, s, flags, number, pts, payload, mine.hello.Some?), s == Video, s == Audio, false, io);
    }

    function MediaOf(kind: byte, s: Stream, flags: byte, number: nat, pts: u64, payload: seq<byte>, afterHello: bool): Message
      reads this
    {
      Message(Header(Length(|payload|), PROTOCOL_VERSION, kind, Id(s), flags, number % 0x1_0000_0000,
                     generation % 0x1_0000_0000, pts),
              [], Some(payload), false, generation, number, afterHello)
    }
  }

  lemma OfferedIs(was: Hub, h: Hub, m: Message, toVideo: bool, toAudio: bool, toEvents: bool, lim: Limits, io: Ios)
    requires h == was.(clients := h.clients) && h.clients.Keys == was.clients.Keys
    requires forall fd | fd in h.clients ::
      h.clients[fd] == Offered(was.clients[fd], m, toVideo, toAudio, toEvents, lim, IoOf(io, fd))
    ensures h == OfferAll(was, m, toVideo, toAudio, toEvents, lim, io)
  {
    hide Good, Offered;
  }

  lemma AddedIs(was: Hub, h: Hub, fd: nat, c: Consumer)
    requires h == was.(clients := h.clients) && forall f :: f in h.clients <==> f in was.clients || f == fd
    requires h.clients[fd] == c && forall f | f in was.clients && f != fd :: h.clients[f] == was.clients[f]
    ensures h == Update(was, fd, c)
  {
    hide Good;
  }

  lemma HelloBodyIs(p: HelloParams, body: seq<byte>)
    requires Holds(body, HelloFields(p))
    ensures body == HelloBody(p)
  {}

  lemma StatsIs(was: Hub, h: Hub, io: Ios)
    requires h == was.(clients := h.clients) && h.clients.Keys == was.clients.Keys
    requires forall fd | fd in h.clients :: h.clients[fd] == WithStats(was, was.clients[fd], IoOf(io, fd))
    ensures h == PushStats(was, io)
  {
    hide Good, WithStats;
  }

  lemma ReapedIs(was: Hub, h: Hub)
    requires h == was.(clients := h.clients, gone := Reap(was).gone)
    requires forall fd :: fd in h.clients <==> fd in was.clients && !was.clients[fd].dead
    requires forall fd | fd in h.clients :: h.clients[fd] == was.clients[fd]
    ensures h == Reap(was)
  {
    hide Good;
  }

  lemma NoClientsIff(h: Hub, clients: map<nat, Client>)
    requires h.clients.Keys == clients.Keys
    ensures |clients| == 0 <==> h.clients == map[]
  {
    hide Good;
    assert |clients| == |clients.Keys|;
    assert h.clients == map[] <==> h.clients.Keys == {};
  }

  lemma SameSize(h: Hub, clients: map<nat, Client>)
    requires h.clients.Keys == clients.Keys
    ensures |h.clients| == |clients|
  {
    hide Good, Client.State;
    assert |h.clients| == |h.clients.Keys| && |clients| == |clients.Keys|;
  }

  lemma WishesGood(c: ClientState, video: bool, audio: bool, events: bool)
    requires Good(c)
    ensures Good(c.(wantVideo := video, wantAudio := audio, wantEvents := events))
  {}
}
