/** The worker link: one generation, per-stream sequence counters and cached handshake messages feeding every consumer. */
module LinkSpec {
  import opened Common
  import opened StreamProtocol
  import opened Payloads
  import opened Clients
  import Deframer

  datatype Stream = Video | Audio

  function Id(s: Stream): byte { if s == Video then VIDEO else AUDIO }
  function Other(s: Stream): Stream { if s == Video then Audio else Video }

  predicate IsHello(m: Message, s: Stream) { m.header.kind == HELLO && m.header.stream == Id(s) }
  predicate IsMedia(m: Message, s: Stream) { m.header.kind in {MEDIA, KEYFRAME} && m.header.stream == Id(s) }
  predicate Carries(m: Message) { exists s :: IsHello(m, s) || IsMedia(m, s) }
  predicate Quiet(m: Message) { !Carries(m) }

  // ----- laws of one consumer's message history -----

  ghost predicate HasHello(hs: seq<Message>, s: Stream, g: nat) {
    exists j :: 0 <= j < |hs| && IsHello(hs[j], s) && hs[j].gen == g
  }

  ghost predicate AnyHello(hs: seq<Message>, s: Stream) {
    exists j :: 0 <= j < |hs| && IsHello(hs[j], s)
  }

  /** Generations of Hello, Media and Keyframe never decrease. */
  ghost predicate GenerationsMonotone(hs: seq<Message>) {
    forall i, j | 0 <= i < j < |hs| && Carries(hs[i]) && Carries(hs[j]) :: hs[i].gen <= hs[j].gen
  }

  predicate Before(a: Message, b: Message) { a.gen < b.gen || (a.gen == b.gen && a.number < b.number) }

  /** (generation, sequence) strictly increases over each stream's Media and Keyframe. */
  ghost predicate SequencesIncrease(hs: seq<Message>) {
    forall s, i, j | 0 <= i < j < |hs| && IsMedia(hs[i], s) && IsMedia(hs[j], s) :: Before(hs[i], hs[j])
  }

  /** Media made once its stream had a Hello, or after any Hello of its stream, comes after that stream's Hello of
      its own generation. */
  ghost predicate HelloFirst(hs: seq<Message>) {
    forall s, i | 0 <= i < |hs| && IsMedia(hs[i], s) && (hs[i].afterHello || AnyHello(hs[..i], s)) ::
      HasHello(hs[..i], s, hs[i].gen)
  }

  /** All Hellos of one stream and generation carry the same parameters. */
  ghost predicate OneHello(hs: seq<Message>) {
    forall s, i, j | 0 <= i < j < |hs| && IsHello(hs[i], s) && IsHello(hs[j], s) && hs[i].gen == hs[j].gen ::
      hs[i].body == hs[j].body
  }

  ghost predicate Lawful(hs: seq<Message>) {
    GenerationsMonotone(hs) && SequencesIncrease(hs) && HelloFirst(hs) && OneHello(hs) && AllMade(hs)
  }

  /** Header fields are those of the counters cut to 32 bits and of the payload; Hellos are control messages, which the
      queues never drop, and media is not. */
  ghost predicate Made(m: Message) {
    && m.header.version == PROTOCOL_VERSION && m.header.length == Length(|m.body| + |m.Payload()|)
    && m.header.generation == m.gen % 0x1_0000_0000 && m.header.sequence == m.number % 0x1_0000_0000
    && (forall s | IsHello(m, s) :: m.control) && (forall s | IsMedia(m, s) :: !m.control)
  }

  ghost predicate AllMade(hs: seq<Message>) { forall i | 0 <= i < |hs| :: Made(hs[i]) }

  /** The counters, which streams have a Hello, and its parameters once it was issued in this generation. */
  datatype Epoch = Epoch(generation: nat, nextVideo: nat, nextAudio: nat, helloVideo: bool, helloAudio: bool,
                         issuedVideo: Option<seq<byte>>, issuedAudio: Option<seq<byte>>) {
    function Issued(s: Stream): Option<seq<byte>> { if s == Video then issuedVideo else issuedAudio }
    function Next(s: Stream): nat { if s == Video then nextVideo else nextAudio }
    predicate Hello(s: Stream) { if s == Video then helloVideo else helloAudio }
  }

  /** No message is ahead of the counters, and this generation's Hellos are those issued. */
  ghost predicate Bounded(e: Epoch, hs: seq<Message>) {
    && (forall i | 0 <= i < |hs| && Carries(hs[i]) :: hs[i].gen <= e.generation)
    && (forall s, i | 0 <= i < |hs| && IsMedia(hs[i], s) && hs[i].gen == e.generation :: hs[i].number < e.Next(s))
    && (forall s, i | 0 <= i < |hs| && IsHello(hs[i], s) && hs[i].gen == e.generation :: e.Issued(s) == Some(hs[i].body))
  }

  /** The consumer was given the stream's current Hello, or none when there is none. */
  ghost predicate Greeted(e: Epoch, hs: seq<Message>, s: Stream) {
    if e.Hello(s) then HasHello(hs, s, e.generation) else !AnyHello(hs, s)
  }

  ghost predicate HistoryOk(e: Epoch, hs: seq<Message>, greeted: set<Stream>) {
    Lawful(hs) && Bounded(e, hs) && forall s | s in greeted :: Greeted(e, hs, s)
  }

  lemma HelloSnoc(hs: seq<Message>, m: Message)
    ensures forall s, g :: HasHello(hs + [m], s, g) <==> HasHello(hs, s, g) || (IsHello(m, s) && m.gen == g)
    ensures forall s :: AnyHello(hs + [m], s) <==> AnyHello(hs, s) || IsHello(m, s)
  {
    var ms := hs + [m];
    assert ms[|hs|] == m && forall j | 0 <= j < |hs| :: ms[j] == hs[j];
    forall s, g ensures HasHello(ms, s, g) <==> HasHello(hs, s, g) || (IsHello(m, s) && m.gen == g) {
      if HasHello(hs, s, g) { var j :| 0 <= j < |hs| && IsHello(hs[j], s) && hs[j].gen == g; assert IsHello(ms[j], s); }
      if IsHello(m, s) && m.gen == g { assert IsHello(ms[|hs|], s); }
    }
    forall s ensures AnyHello(ms, s) <==> AnyHello(hs, s) || IsHello(m, s) {
      if AnyHello(hs, s) { var j :| 0 <= j < |hs| && IsHello(hs[j], s); assert IsHello(ms[j], s); }
      if IsHello(m, s) { assert IsHello(ms[|hs|], s); }
    }
  }

  /** Adding a message keeps the laws if it is not behind the counters and media has its Hello. */
  lemma LawfulSnoc(hs: seq<Message>, m: Message)
    requires Lawful(hs)
    requires Carries(m) ==> forall i | 0 <= i < |hs| && Carries(hs[i]) :: hs[i].gen <= m.gen
    requires forall s | IsMedia(m, s) ::
      && (forall i | 0 <= i < |hs| && IsMedia(hs[i], s) :: Before(hs[i], m))
      && (m.afterHello || AnyHello(hs, s) ==> HasHello(hs, s, m.gen))
    requires forall s, i | IsHello(m, s) && 0 <= i < |hs| && IsHello(hs[i], s) && hs[i].gen == m.gen :: hs[i].body == m.body
    requires Made(m)
    ensures Lawful(hs + [m])
  {
    var ms := hs + [m];
    assert forall i | 0 <= i < |hs| :: ms[i] == hs[i] && ms[..i] == hs[..i];
    assert ms[|hs|] == m && ms[..|hs|] == hs;
  }

  /** Counters that only move on keep a history in order; greetings must be re-established when they move to a new
      generation or gain a Hello. */
  lemma EpochMoves(e: Epoch, e': Epoch, hs: seq<Message>, greeted: set<Stream>, greeted': set<Stream>)
    requires HistoryOk(e, hs, greeted) && greeted' <= greeted
    requires e.generation <= e'.generation
    requires e.generation == e'.generation ==>
      forall s :: e.Next(s) <= e'.Next(s) && (e.Issued(s).Some? ==> e'.Issued(s) == e.Issued(s))
    requires forall s | s in greeted' :: e.Hello(s) == e'.Hello(s) && (e.Hello(s) ==> e.generation == e'.generation)
    ensures HistoryOk(e', hs, greeted')
  {
    assert forall s, i | 0 <= i < |hs| && IsHello(hs[i], s) :: Carries(hs[i]);
  }

  lemma QuietSnoc(e: Epoch, hs: seq<Message>, greeted: set<Stream>, m: Message)
    requires HistoryOk(e, hs, greeted) && Quiet(m) && Made(m)
    ensures HistoryOk(e, hs + [m], greeted)
  {
    HelloSnoc(hs, m);
    LawfulSnoc(hs, m);
    assert forall s :: !IsHello(m, s) && !IsMedia(m, s);
  }

  /** Any consumer may be given a stream's current Hello; from then on it is greeted on that stream. */
  lemma GreetSnoc(e: Epoch, hs: seq<Message>, greeted: set<Stream>, m: Message, s: Stream)
    requires HistoryOk(e, hs, greeted) && IsHello(m, s) && m.gen == e.generation && e.Hello(s) && Made(m)
    requires e.Issued(s) == Some(m.body)
    ensures HistoryOk(e, hs + [m], greeted + {s})
  {
    hide Made, Lawful, HasHello, AnyHello;
    assert forall t | t != s :: !IsHello(m, t);
    assert forall t :: !IsMedia(m, t);
    HelloSnoc(hs, m);
    LawfulSnoc(hs, m);
    assert forall i | 0 <= i < |hs| :: (hs + [m])[i] == hs[i];
  }

  lemma MediaSnoc(e: Epoch, e': Epoch, hs: seq<Message>, greeted: set<Stream>, m: Message, s: Stream)
    requires HistoryOk(e, hs, greeted) && s in greeted && IsMedia(m, s) && Made(m) && m.gen == e.generation == e'.generation
    requires forall i | 0 <= i < |hs| && IsMedia(hs[i], s) && hs[i].gen == m.gen :: hs[i].number < m.number
    requires m.number < e'.Next(s) && forall t :: e.Next(t) <= e'.Next(t) && e.Hello(t) == e'.Hello(t) && e.Issued(t) == e'.Issued(t)
    requires m.afterHello ==> e.Hello(s)
    ensures HistoryOk(e', hs + [m], greeted)
  {
    hide Made, Lawful, HasHello, AnyHello;
    assert forall t :: !IsHello(m, t);
    assert forall t | t != s :: !IsMedia(m, t);
    assert Carries(m);
    forall i | 0 <= i < |hs| && IsMedia(hs[i], s) ensures Before(hs[i], m) { assert Carries(hs[i]); }
    HelloSnoc(hs, m);
    LawfulSnoc(hs, m);
    var ms := hs + [m];
    assert forall i | 0 <= i < |hs| :: ms[i] == hs[i];
  }

  /** What was not dropped: the messages on the wire, then those queued, the first perhaps partly written. */
  function Undropped(c: ClientState): seq<Message> { c.onWire + c.queue }

  /** What holds of everything accepted holds of what was not dropped: Hellos are control messages. */
  lemma LawfulOnWire(c: ClientState)
    requires Good(c) && Lawful(c.accepted)
    ensures Lawful(Undropped(c)) && Lawful(c.onWire)
  {
    hide Good, Carries, Made;
    GoodTracked(c);
    var a, w, at := c.accepted, Undropped(c), c.live;
    assert forall k | 0 <= k < |w| :: w[k] == a[at[k]];
    assert forall k | 0 <= k < |w| :: Made(a[at[k]]) by { assert AllMade(a); }
    forall s, i | 0 <= i < |w| && IsMedia(w[i], s) && (w[i].afterHello || AnyHello(w[..i], s))
      ensures HasHello(w[..i], s, w[i].gen)
    {
      HelloUndropped(c, i, s);
    }
    assert w[..|c.onWire|] == c.onWire;
    LawfulPrefix(w, |c.onWire|);
  }

  lemma LawfulPrefix(hs: seq<Message>, n: nat)
    requires Lawful(hs) && n <= |hs|
    ensures Lawful(hs[..n])
  {
    hide Made, Carries, IsMedia, Before, HasHello, AnyHello;
    assert forall i | 0 <= i < n :: hs[..n][i] == hs[i] && hs[..n][..i] == hs[..i];
  }

  lemma HelloUndropped(c: ClientState, i: nat, s: Stream)
    requires Tracked(c) && Lawful(c.accepted) && i < |Undropped(c)|
    requires IsMedia(Undropped(c)[i], s) && (Undropped(c)[i].afterHello || AnyHello(Undropped(c)[..i], s))
    ensures HasHello(Undropped(c)[..i], s, Undropped(c)[i].gen)
  {
    hide IsHello, IsMedia, GenerationsMonotone, SequencesIncrease, AnyHello, HasHello, AllMade;
    if AnyHello(Undropped(c)[..i], s) { AnyHelloBack(c, i, s); }
    HasHelloForward(c, i, s, Undropped(c)[i].gen);
  }

  lemma AnyHelloBack(c: ClientState, i: nat, s: Stream)
    requires Tracked(c) && i < |Undropped(c)| && AnyHello(Undropped(c)[..i], s)
    ensures c.live[i] <= |c.accepted| && AnyHello(c.accepted[..c.live[i]], s)
  {
    hide IsHello;
    var j :| 0 <= j < i && IsHello(Undropped(c)[..i][j], s);
    assert IsHello(c.accepted[..c.live[i]][c.live[j]], s);
  }

  lemma HasHelloForward(c: ClientState, i: nat, s: Stream, g: nat)
    requires Tracked(c) && AllMade(c.accepted) && i < |Undropped(c)| && c.live[i] <= |c.accepted|
    requires HasHello(c.accepted[..c.live[i]], s, g)
    ensures HasHello(Undropped(c)[..i], s, g)
  {
    hide IsHello;
    var at := c.live;
    var j :| 0 <= j < at[i] && IsHello(c.accepted[..at[i]][j], s) && c.accepted[..at[i]][j].gen == g;
    assert Made(c.accepted[j]);
    var k :| 0 <= k < |at| && at[k] == j;
    Ordered(at, i, k);
    assert IsHello(Undropped(c)[..i][k], s);
  }

  lemma Ordered(at: seq<nat>, i: nat, k: nat)
    requires i < |at| && k < |at| && at[k] < at[i]
    requires forall x, y | 0 <= x < y < |at| :: at[x] < at[y]
    ensures k < i
  {}

  lemma GoodTracked(c: ClientState)
    requires Good(c)
    ensures Tracked(c)
  {}

  // ----- the hub -----

  type Consumer = c: ClientState | Good(c) ghost witness FreshConsumer()

  ghost function FreshConsumer(): (c: ClientState)
    ensures Good(c) && c.accepted == [] && !c.dead
  {
    FreshGood();
    Fresh()
  }

  datatype PerStream = PerStream(hello: Option<Message>, body: seq<byte>, next: nat)

  /** gone holds the consumers already reaped; fds are reused, histories are not. */
  datatype Hub = Hub(clients: map<nat, Consumer>, gone: set<Consumer>, generation: nat, video: PerStream, audio: PerStream,
                     keyframe: Option<Message>, snapshot: Option<Message>, eventNumber: nat)
  {
    function Of(s: Stream): PerStream { if s == Video then video else audio }
    function With(s: Stream, p: PerStream): Hub { if s == Video then this.(video := p) else this.(audio := p) }
    function Now(): Epoch {
      Epoch(generation, video.next, audio.next, video.hello.Some?, audio.hello.Some?, Issued(Video), Issued(Audio))
    }
    function Issued(s: Stream): Option<seq<byte>> {
      var hello := Of(s).hello;
      if hello.Some? && hello.value.gen == generation then Some(hello.value.body) else None
    }
  }

  datatype Config = Config(lim: Limits, maxClients: nat)

  type Ios = map<nat, seq<Io>>

  function IoOf(io: Ios, fd: nat): seq<Io> { if fd in io then io[fd] else [] }

  function Init(): Hub {
    var p := PerStream(None, [], 0);
    Hub(map[], {}, 0, p, p, None, None, 0)
  }

  function Length(size: nat): u32 { (HEADER_LENGTH_BYTES + size % 0x1_0000_0000) % 0x1_0000_0000 }

  function MakeControl(gen: nat, kind: byte, stream: byte, number: nat, body: seq<byte>, control: bool): Message {
    Message(Header(Length(|body|), PROTOCOL_VERSION, kind, stream, 0, number % 0x1_0000_0000, gen % 0x1_0000_0000, 0),
            body, None, control, gen, number, false)
  }

  function MakeHello(gen: nat, s: Stream, body: seq<byte>): Message { MakeControl(gen, HELLO, Id(s), 0, body, true) }

  function MakeMedia(h: Hub, kind: byte, s: Stream, flags: byte, number: nat, pts: u64, payload: seq<byte>): Message {
    Message(Header(Length(|payload|), PROTOCOL_VERSION, kind, Id(s), flags, number % 0x1_0000_0000,
                   h.generation % 0x1_0000_0000, pts),
            [], Some(payload), false, h.generation, number, h.Of(s).hello.Some?)
  }

  lemma ControlMade(gen: nat, kind: byte, stream: byte, number: nat, body: seq<byte>, control: bool)
    requires kind !in {MEDIA, KEYFRAME} && (kind == HELLO ==> control)
    ensures var m := MakeControl(gen, kind, stream, number, body, control);
      && Made(m) && (kind != HELLO ==> Quiet(m))
      && m.header.kind == kind && m.header.stream == stream && m.header.flags == 0 && m.header.pts == 0
      && m.body == body && m.payload == None && m.control == control && m.gen == gen && m.number == number
  {}

  lemma MediaMade(h: Hub, kind: byte, s: Stream, flags: byte, number: nat, pts: u64, payload: seq<byte>)
    requires kind in {MEDIA, KEYFRAME}
    ensures var m := MakeMedia(h, kind, s, flags, number, pts, payload);
      && Made(m) && IsMedia(m, s)
      && m.header.kind == kind && m.header.flags == flags && m.header.pts == pts && m.body == [] && m.payload == Some(payload)
      && m.gen == h.generation && m.number == number && m.afterHello == h.Of(s).hello.Some?
  {}

  ghost function Pushed(c: Consumer, m: Message): Consumer { PushGood(c, m); Push(c, m) }
  ghost function PushedIf(c: Consumer, o: Option<Message>): Consumer { if o.Some? then Pushed(c, o.value) else c }
  ghost function Flushed(c: Consumer, io: seq<Io>): Consumer { WriteGood(c, io); Write(c, io) }
  ghost function Killed(c: Consumer): Consumer { DeadGood(c); c.(dead := true) }

  ghost predicate Wants(c: Consumer, m: Message, video: bool, audio: bool, events: bool) {
    (video && c.wantVideo) || (audio && c.wantAudio) || (events && c.wantEvents) || m.control
  }

  ghost function Offered(c: Consumer, m: Message, video: bool, audio: bool, events: bool, lim: Limits, io: seq<Io>): Consumer {
    if c.dead || !Wants(c, m, video, audio, events) then c else EnqueueGood(c, m, lim, io); Enqueued(c, m, lim, io)
  }

  ghost function Reap(h: Hub): Hub {
    h.(clients := map fd | fd in h.clients && !h.clients[fd].dead :: h.clients[fd],
       gone := h.gone + set fd | fd in h.clients && h.clients[fd].dead :: h.clients[fd])
  }

  ghost function OfferAll(h: Hub, m: Message, video: bool, audio: bool, events: bool, lim: Limits, io: Ios): Hub {
    h.(clients := map fd | fd in h.clients :: Offered(h.clients[fd], m, video, audio, events, lim, IoOf(io, fd)))
  }

  /** enqueue */
  ghost function Broadcast(h: Hub, m: Message, video: bool, audio: bool, events: bool, lim: Limits, io: Ios): Hub {
    Reap(OfferAll(h, m, video, audio, events, lim, io))
  }

  /** acceptClient */
  ghost function Accept(h: Hub, fd: nat, cfg: Config, io: seq<Io>): Hub {
    if |h.clients| >= cfg.maxClients || fd in h.clients then h
    else Update(h, fd, Flushed(Welcomed(h), io))
  }

  /** A new consumer's queue: the Hellos, the status snapshot, the keyframe. */
  ghost function Welcomed(h: Hub): Consumer {
    PushedIf(PushedIf(PushedIf(PushedIf(FreshConsumer(), h.video.hello), h.audio.hello), h.snapshot), h.keyframe)
  }

  ghost function Update(h: Hub, fd: nat, c: Consumer): Hub { h.(clients := h.clients[fd := c]) }

  /** A Subscribe message: new wishes, and the cached Hellos of the wanted streams again. */
  ghost function Subscribe(h: Hub, fd: nat, video: bool, audio: bool, events: bool, io: seq<Io>): Hub {
    if fd !in h.clients then h
    else
      var c: Consumer := Wishing(h.clients[fd], video, audio, events);
      var c1 := if video then PushedIf(c, h.video.hello) else c;
      var c2 := if audio then PushedIf(c1, h.audio.hello) else c1;
      Update(h, fd, Flushed(c2, io))
  }

  ghost function Wishing(c: Consumer, video: bool, audio: bool, events: bool): Consumer {
    c.(wantVideo := video, wantAudio := audio, wantEvents := events)
  }

  /** A Command message: its response. */
  ghost function Respond(h: Hub, fd: nat, body: seq<byte>, io: seq<Io>): Hub {
    if fd !in h.clients then h
    else Update(h, fd, Flushed(Pushed(h.clients[fd], MakeControl(h.generation, RESPONSE, MONITOR, 0, body, true)), io))
  }

  /** A POLLHUP, end of file, or corrupt inbound header. */
  ghost function Kill(h: Hub, fd: nat): Hub { if fd in h.clients then Update(h, fd, Killed(h.clients[fd])) else h }

  ghost function Flush(h: Hub, fd: nat, io: seq<Io>): Hub {
    if fd in h.clients && !h.clients[fd].dead then Update(h, fd, Flushed(h.clients[fd], io)) else h
  }

  /** The periodic Stats push, past the queue limits, not a control message. */
  ghost function PushStats(h: Hub, io: Ios): Hub {
    h.(clients := map fd | fd in h.clients :: WithStats(h, h.clients[fd], IoOf(io, fd)))
  }

  ghost function StatsMessage(h: Hub, c: Consumer): Message {
    MakeControl(h.generation, STATS, VIDEO, 0,
                StatsBytes(c.sent % 0x1_0000_0000_0000_0000, c.dropped % 0x1_0000_0000_0000_0000), false)
  }

  ghost function WithStats(h: Hub, c: Consumer, io: seq<Io>): Consumer {
    if c.dead then c else Flushed(Pushed(c, StatsMessage(h, c)), io)
  }

  /** publishEventJson */
  ghost function Publish(h: Hub, body: seq<byte>, health: bool, lim: Limits, io: Ios): Hub {
    var m := MakeControl(h.generation, EVENT, MONITOR, h.eventNumber, body, true);
    var h1 := Broadcast(h.(eventNumber := h.eventNumber + 1), m, false, false, true, lim, io);
    if health then h1.(snapshot := Some(m)) else h1
  }

  /** setSnapshotJson */
  ghost function SetSnapshot(h: Hub, body: seq<byte>): Hub {
    h.(snapshot := Some(MakeControl(h.generation, EVENT, MONITOR, h.eventNumber, body, true)))
  }

  /** A stream that already had parameters starts a new generation: counters at zero, no cached keyframe. */
  function NextGeneration(h: Hub): Hub {
    h.(generation := h.generation + 1, video := h.video.(next := 0), audio := h.audio.(next := 0), keyframe := None)
  }

  function WithHello(h: Hub, s: Stream, body: seq<byte>): Hub {
    h.With(s, h.Of(s).(body := body, hello := Some(MakeHello(h.generation, s, body))))
  }

  ghost function SendHello(h: Hub, s: Stream, body: seq<byte>, lim: Limits, io: Ios): Hub {
    Broadcast(WithHello(h, s, body), MakeHello(h.generation, s, body), s == Video, s == Audio, false, lim, io)
  }

  /** setStreamParams, given the HELLO body built from the parameters. */
  ghost function SetStreamParams(h: Hub, s: Stream, body: seq<byte>, lim: Limits, io: Ios, io2: Ios): Hub {
    if body == h.Of(s).body then h
    else if h.Of(s).body == [] then SendHello(h, s, body, lim, io)
    else
      var h1 := SendHello(NextGeneration(h), s, body, lim, io);
      var other := h1.Of(Other(s)).body;
      if other == [] then h1 else SendHello(h1, Other(s), other, lim, io2)
  }

  /** sendMedia */
  ghost function SendMedia(h: Hub, s: Stream, keyframe: bool, pts: u64, payload: seq<byte>, lim: Limits, io: Ios): Hub {
    if payload == [] then h
    else
      var isKey := keyframe && s == Video;
      var flags := if isKey then FLAG_KEYFRAME else 0;
      var number := h.Of(s).next;
      var h1 := h.With(s, h.Of(s).(next := number + 1));
      var h2 := if isKey then h1.(keyframe := Some(MakeMedia(h, KEYFRAME, s, flags, number, pts, payload))) else h1;
      if h2.clients == map[] then h2
      else Broadcast(h2, MakeMedia(h, MEDIA, s, flags, number, pts, payload), s == Video, s == Audio, false, lim, io)
  }

  datatype Op =
    | OpAccept(fd: nat, ioOne: seq<Io>)
    | OpSubscribe(fd: nat, video: bool, audio: bool, events: bool, ioOne: seq<Io>)
    | OpRespond(fd: nat, body: seq<byte>, ioOne: seq<Io>)
    | OpKill(fd: nat)
    | OpFlush(fd: nat, ioOne: seq<Io>)
    | OpStats(io: Ios)
    | OpReap
    | OpPublish(body: seq<byte>, health: bool, io: Ios)
    | OpSetSnapshot(body: seq<byte>)
    | OpSetStreamParams(s: Stream, params: HelloParams, io: Ios, io2: Ios)
    | OpSendMedia(s: Stream, keyframe: bool, pts: u64, payload: seq<byte>, io: Ios)

  /** The HELLO body of stream parameters; it always holds the codec id, so it is never empty. */
  ghost function HelloBody(p: HelloParams): (b: seq<byte>)
    ensures b != []
  {
    PresentFits(HelloFields(p));
    HelloBodyNotEmpty(p);
    EncodeTlvs(Present(HelloFields(p)))
  }

  lemma HelloBodyNotEmpty(p: HelloParams)
    requires AllFit(Present(HelloFields(p)))
    ensures EncodeTlvs(Present(HelloFields(p))) != []
  {
    PresentValues(HelloFields(p));
    assert HelloFields(p)[0].value.Some?;
    assert Present(HelloFields(p)) == [] ==> LastValue(Present(HelloFields(p)), HelloFields(p)[0].tag) == None;
  }

  ghost function Step(h: Hub, cfg: Config, op: Op): Hub {
    match op
    case OpAccept(fd, io) => Accept(h, fd, cfg, io)
    case OpSubscribe(fd, video, audio, events, io) => Subscribe(h, fd, video, audio, events, io)
    case OpRespond(fd, body, io) => Respond(h, fd, body, io)
    case OpKill(fd) => Kill(h, fd)
    case OpFlush(fd, io) => Flush(h, fd, io)
    case OpStats(io) => PushStats(h, io)
    case OpReap => Reap(h)
    case OpPublish(body, health, io) => Publish(h, body, health, cfg.lim, io)
    case OpSetSnapshot(body) => SetSnapshot(h, body)
    case OpSetStreamParams(s, params, io, io2) => SetStreamParams(h, s, HelloBody(params), cfg.lim, io, io2)
    case OpSendMedia(s, keyframe, pts, payload, io) => SendMedia(h, s, keyframe, pts, payload, cfg.lim, io)
  }

  ghost function Run(cfg: Config, ops: seq<Op>): Hub {
    if ops == [] then Init() else Step(Run(cfg, Front(ops)), cfg, Last(ops))
  }

  // ----- what every step keeps -----

  ghost predicate ClientOk(e: Epoch, c: Consumer, greeted: set<Stream>) {
    HistoryOk(e, c.accepted, if c.dead then {} else greeted)
  }

  /** The cached Hellos and keyframe carry the current generation. */
  ghost predicate CacheOk(h: Hub, greeted: set<Stream>) {
    && (forall s :: h.Of(s).hello.Some? <==> h.Of(s).body != [])
    && (forall s | h.Of(s).hello.Some? ::
          var m := h.Of(s).hello.value; IsHello(m, s) && Made(m) && (s in greeted ==> m.gen == h.generation))
    && (h.keyframe.Some? ==>
          var k := h.keyframe.value;
          IsMedia(k, Video) && Made(k) && k.gen == h.generation && k.number < h.video.next && (k.afterHello ==> h.video.hello.Some?))
    && (h.snapshot.Some? ==> Quiet(h.snapshot.value) && Made(h.snapshot.value))
  }

  ghost predicate HubOk(h: Hub, greeted: set<Stream>) {
    && CacheOk(h, greeted)
    && (forall fd | fd in h.clients :: ClientOk(h.Now(), h.clients[fd], greeted))
    && (forall c | c in h.gone :: Lawful(c.accepted))
  }

  const ALL: set<Stream> := {Video, Audio}

  lemma OfferedFacts(c: Consumer, m: Message, video: bool, audio: bool, events: bool, lim: Limits, io: seq<Io>)
    ensures var d := Offered(c, m, video, audio, events, lim, io);
      var given := m.control || (video && c.wantVideo) || (audio && c.wantAudio) || (events && c.wantEvents);
      d.accepted == (if c.dead || !given then c.accepted else c.accepted + [m])
      && (c.dead ==> d.dead)
  {
    EnqueueGood(c, m, lim, io);
  }

  lemma FlushedFacts(c: Consumer, io: seq<Io>)
    ensures Flushed(c, io).accepted == c.accepted && (c.dead ==> Flushed(c, io).dead)
  {
    WriteGood(c, io);
  }

  lemma ReapOk(h: Hub, greeted: set<Stream>)
    requires HubOk(h, greeted)
    ensures HubOk(Reap(h), greeted)
  {
    hide Good, Made, HistoryOk, Lawful, CacheOk;
    assert Reap(h).Now() == h.Now();
    SameCache(h, Reap(h), greeted);
    forall c | c in Reap(h).gone ensures Lawful(c.accepted) {
      if c !in h.gone {
        var fd :| fd in h.clients && h.clients[fd] == c;
        OkIsLawful(h.Now(), c.accepted, if c.dead then {} else greeted);
      }
    }
  }

  lemma OkIsLawful(e: Epoch, hs: seq<Message>, greeted: set<Stream>)
    requires HistoryOk(e, hs, greeted)
    ensures Lawful(hs)
  {}

  lemma FewerOk(e: Epoch, hs: seq<Message>, greeted: set<Stream>, fewer: set<Stream>)
    requires HistoryOk(e, hs, greeted) && fewer <= greeted
    ensures HistoryOk(e, hs, fewer)
  {}

  /** All that matters of an offer: the history grows by the message or not at all, and the dead stay dead. */
  lemma OfferedOk(e: Epoch, c: Consumer, m: Message, video: bool, audio: bool, events: bool, lim: Limits, io: seq<Io>,
                  greeted: set<Stream>)
    requires c.dead || !Wants(c, m, video, audio, events) ==> ClientOk(e, c, greeted)
    requires !c.dead && Wants(c, m, video, audio, events) ==> HistoryOk(e, c.accepted + [m], greeted)
    ensures ClientOk(e, Offered(c, m, video, audio, events, lim, io), greeted)
  {
    hide Good, Made, HistoryOk, Offered;
    var d := Offered(c, m, video, audio, events, lim, io);
    OfferedFacts(c, m, video, audio, events, lim, io);
    if !c.dead && d.dead { FewerOk(e, d.accepted, greeted, {}); }
  }

  lemma QuietOfferOk(e: Epoch, c: Consumer, m: Message, video: bool, audio: bool, events: bool, lim: Limits, io: seq<Io>)
    requires ClientOk(e, c, ALL) && Quiet(m) && Made(m)
    ensures ClientOk(e, Offered(c, m, video, audio, events, lim, io), ALL)
  {
    hide Good, Made, HistoryOk, Wants, Offered, Quiet;
    if !c.dead { QuietSnoc(e, c.accepted, ALL, m); }
    OfferedOk(e, c, m, video, audio, events, lim, io, ALL);
  }

  lemma BroadcastQuietOk(h: Hub, m: Message, video: bool, audio: bool, events: bool, lim: Limits, io: Ios)
    requires HubOk(h, ALL) && Quiet(m) && Made(m)
    ensures HubOk(Broadcast(h, m, video, audio, events, lim, io), ALL)
  {
    hide Good, Made, ClientOk, Lawful, Quiet, CacheOk, Offered, Reap;
    var h' := OfferAll(h, m, video, audio, events, lim, io);
    assert h'.Now() == h.Now();
    forall fd | fd in h.clients ensures ClientOk(h.Now(), h'.clients[fd], ALL) {
      QuietOfferOk(h.Now(), h.clients[fd], m, video, audio, events, lim, IoOf(io, fd));
    }
    SameCache(h, h', ALL);
    ReapOk(h', ALL);
  }

  lemma SameCache(h: Hub, h': Hub, greeted: set<Stream>)
    requires CacheOk(h, greeted) && h'.generation == h.generation && h'.video == h.video && h'.audio == h.audio
    requires h'.keyframe == h.keyframe && h'.snapshot == h.snapshot
    ensures CacheOk(h', greeted)
  {
    assert forall s :: h'.Of(s) == h.Of(s);
  }

  /** Sending a stream's Hello greets every live consumer on it, as Hellos go to all of them. */
  lemma SendHelloOk(h: Hub, s: Stream, body: seq<byte>, lim: Limits, io: Ios, greeted: set<Stream>)
    requires HubOk(h, greeted) && body != [] && h.Issued(s).None?
    ensures HubOk(SendHello(h, s, body, lim, io), greeted + {s})
  {
    hide Good, Made, ClientOk, Lawful, CacheOk, Offered, Reap;
    var m, h1 := MakeHello(h.generation, s, body), WithHello(h, s, body);
    var h2 := OfferAll(h1, m, s == Video, s == Audio, false, lim, io);
    assert h2.Now() == h1.Now();
    forall fd | fd in h.clients ensures ClientOk(h1.Now(), h2.clients[fd], greeted + {s}) {
      HelloOfferOk(h, s, body, h.clients[fd], lim, IoOf(io, fd), greeted);
    }
    HelloCached(h, s, body, greeted);
    SameCache(h1, h2, greeted + {s});
    ReapOk(h2, greeted + {s});
  }

  lemma HelloOfferOk(h: Hub, s: Stream, body: seq<byte>, c: Consumer, lim: Limits, io: seq<Io>, greeted: set<Stream>)
    requires ClientOk(h.Now(), c, greeted) && h.Issued(s).None?
    ensures ClientOk(WithHello(h, s, body).Now(),
                     Offered(c, MakeHello(h.generation, s, body), s == Video, s == Audio, false, lim, io), greeted + {s})
  {
    hide Good, Made, HistoryOk, Offered;
    var m, e, e' := MakeHello(h.generation, s, body), h.Now(), WithHello(h, s, body).Now();
    ControlMade(h.generation, HELLO, Id(s), 0, body, true);
    if c.dead {
      EpochMoves(e, e', c.accepted, {}, {});
    } else {
      EpochMoves(e, e', c.accepted, greeted, greeted - {s});
      GreetSnoc(e', c.accepted, greeted - {s}, m, s);
      assert greeted - {s} + {s} == greeted + {s};
    }
    OfferedOk(e', c, m, s == Video, s == Audio, false, lim, io, greeted + {s});
  }

  lemma HelloCached(h: Hub, s: Stream, body: seq<byte>, greeted: set<Stream>)
    requires CacheOk(h, greeted) && body != []
    ensures CacheOk(WithHello(h, s, body), greeted + {s})
  {
    var h' := WithHello(h, s, body);
    assert h'.Of(Other(s)) == h.Of(Other(s));
  }

  lemma SetStreamParamsOk(h: Hub, s: Stream, body: seq<byte>, lim: Limits, io: Ios, io2: Ios)
    requires HubOk(h, ALL) && body != []
    ensures HubOk(SetStreamParams(h, s, body, lim, io, io2), ALL)
  {
    hide Good, Made, ClientOk, Lawful, SendHello, NextGeneration, CacheOk;
    HubCache(h);
    NothingIssued(h, s);
    NothingIssued(h, Other(s));
    if body == h.Of(s).body {
    } else if h.Of(s).body == [] {
      SendHelloOk(h, s, body, lim, io, ALL);
      assert ALL + {s} == ALL;
    } else {
      var silent := set t: Stream | t in ALL && !h.Now().Hello(t);
      NextGenerationOk(h, silent);
      var h1 := SendHello(NextGeneration(h), s, body, lim, io);
      SendHelloOk(NextGeneration(h), s, body, lim, io, silent);
      var other := h1.Of(Other(s)).body;
      SendHelloKeeps(NextGeneration(h), s, body, lim, io);
      NextGenerationKeeps(h, silent);
      if other == [] {
        assert silent + {s} == ALL;
      } else {
        SendHelloOk(h1, Other(s), other, lim, io2, silent + {s});
        assert silent + {s} + {Other(s)} == ALL;
      }
    }
  }

  lemma SendHelloKeeps(h: Hub, s: Stream, body: seq<byte>, lim: Limits, io: Ios)
    ensures var h1 := SendHello(h, s, body, lim, io); h1.Of(Other(s)) == h.Of(Other(s)) && h1.Issued(Other(s)) == h.Issued(Other(s))
  {}

  /** The streams without parameters are those without a Hello, before and after. */
  lemma NextGenerationKeeps(h: Hub, silent: set<Stream>)
    requires CacheOk(h, ALL) && silent == set t: Stream | t in ALL && !h.Now().Hello(t)
    ensures forall t :: NextGeneration(h).Of(t).body == h.Of(t).body && (h.Of(t).body == [] <==> t in silent)
  {
    assert forall t :: h.Of(t).hello.Some? <==> h.Now().Hello(t);
  }

  lemma NothingIssued(h: Hub, s: Stream)
    requires CacheOk(h, ALL)
    ensures NextGeneration(h).Issued(s).None? && (h.Of(s).body == [] ==> h.Issued(s).None?)
  {}

  lemma NextGenerationOk(h: Hub, silent: set<Stream>)
    requires HubOk(h, ALL) && silent == set t: Stream | t in ALL && !h.Now().Hello(t)
    ensures HubOk(NextGeneration(h), silent)
  {
    hide Good, Made, HistoryOk, Lawful;
    var h' := NextGeneration(h);
    forall fd | fd in h.clients ensures ClientOk(h'.Now(), h'.clients[fd], silent) {
      var c := h.clients[fd];
      if c.dead { EpochMoves(h.Now(), h'.Now(), c.accepted, {}, {}); }
      else { EpochMoves(h.Now(), h'.Now(), c.accepted, ALL, silent); }
    }
    assert CacheOk(h', silent) by { assert forall s :: h'.Of(s).hello == h.Of(s).hello && h'.Of(s).body == h.Of(s).body; }
  }

  lemma SendMediaOk(h: Hub, s: Stream, keyframe: bool, pts: u64, payload: seq<byte>, lim: Limits, io: Ios)
    requires HubOk(h, ALL)
    ensures HubOk(SendMedia(h, s, keyframe, pts, payload, lim, io), ALL)
  {
    hide Good, Made, ClientOk, Lawful, OfferAll, Reap, CacheOk;
    if payload != [] {
      var isKey := keyframe && s == Video;
      var flags := if isKey then FLAG_KEYFRAME else 0;
      var number := h.Of(s).next;
      var h1 := h.With(s, h.Of(s).(next := number + 1));
      var h2 := if isKey then h1.(keyframe := Some(MakeMedia(h, KEYFRAME, s, flags, number, pts, payload))) else h1;
      var m := MakeMedia(h, MEDIA, s, flags, number, pts, payload);
      MediaMade(h, KEYFRAME, s, flags, number, pts, payload);
      MediaMade(h, MEDIA, s, flags, number, pts, payload);
      MediaCacheOk(h, s, h2);
      CountersMoveOk(h, h2);
      if h2.clients != map[] { BroadcastMediaOk(h, h2, s, m, lim, io); }
    }
  }

  lemma CountersMoveOk(h: Hub, h2: Hub)
    requires HubOk(h, ALL) && CacheOk(h2, ALL) && h2.clients == h.clients && h2.gone == h.gone
    requires h2.generation == h.generation && forall s :: h.Of(s).next <= h2.Of(s).next && h.Of(s).hello == h2.Of(s).hello
    ensures HubOk(h2, ALL)
  {
    hide Good, Made, HistoryOk, Lawful, CacheOk;
    assert h.Of(Video).hello == h2.Of(Video).hello && h.Of(Audio).hello == h2.Of(Audio).hello;
    assert forall s :: h.Now().Next(s) == h.Of(s).next && h2.Now().Next(s) == h2.Of(s).next;
    forall fd | fd in h.clients ensures ClientOk(h2.Now(), h.clients[fd], ALL) {
      var greeted := if h.clients[fd].dead then {} else ALL;
      EpochMoves(h.Now(), h2.Now(), h.clients[fd].accepted, greeted, greeted);
    }
  }

  lemma BroadcastMediaOk(h: Hub, h2: Hub, s: Stream, m: Message, lim: Limits, io: Ios)
    requires HubOk(h, ALL) && HubOk(h2, ALL) && h2.clients == h.clients
    requires h2.generation == h.generation && h2.Of(Other(s)) == h.Of(Other(s))
    requires h2.Of(s) == h.Of(s).(next := h.Of(s).next + 1)
    requires IsMedia(m, s) && Made(m) && m.gen == h.generation && m.number == h.Of(s).next && m.afterHello == h.Of(s).hello.Some?
    ensures HubOk(Broadcast(h2, m, s == Video, s == Audio, false, lim, io), ALL)
  {
    hide Good, Made, ClientOk, Lawful, CacheOk, Offered, Reap, IsMedia;
    var h3 := OfferAll(h2, m, s == Video, s == Audio, false, lim, io);
    assert h3.Now() == h2.Now();
    forall fd | fd in h.clients ensures ClientOk(h2.Now(), h3.clients[fd], ALL) {
      MediaOfferOk(h, h2, s, h.clients[fd], m, lim, IoOf(io, fd));
    }
    SameCache(h2, h3, ALL);
    ReapOk(h3, ALL);
  }

  lemma MediaOfferOk(h: Hub, h2: Hub, s: Stream, c: Consumer, m: Message, lim: Limits, io: seq<Io>)
    requires ClientOk(h.Now(), c, ALL) && ClientOk(h2.Now(), c, ALL)
    requires h2.generation == h.generation && h2.Of(Other(s)) == h.Of(Other(s))
    requires h2.Of(s) == h.Of(s).(next := h.Of(s).next + 1)
    requires IsMedia(m, s) && Made(m) && m.gen == h.generation && m.number == h.Of(s).next && m.afterHello == h.Of(s).hello.Some?
    ensures ClientOk(h2.Now(), Offered(c, m, s == Video, s == Audio, false, lim, io), ALL)
  {
    hide Good, Made, HistoryOk, Offered, IsMedia;
    if !c.dead { MediaStepOk(h, h2, s, c, m); }
    OfferedOk(h2.Now(), c, m, s == Video, s == Audio, false, lim, io, ALL);
  }

  lemma MediaStepOk(h: Hub, h2: Hub, s: Stream, c: Consumer, m: Message)
    requires HistoryOk(h.Now(), c.accepted, ALL)
    requires h2.generation == h.generation && h2.Of(Other(s)) == h.Of(Other(s))
    requires h2.Of(s) == h.Of(s).(next := h.Of(s).next + 1)
    requires IsMedia(m, s) && Made(m) && m.gen == h.generation && m.number == h.Of(s).next && m.afterHello == h.Of(s).hello.Some?
    ensures HistoryOk(h2.Now(), c.accepted + [m], ALL)
  {
    var e, e' := h.Now(), h2.Now();
    assert e.Next(s) == m.number && e'.Next(s) == m.number + 1 && e.Next(Other(s)) == e'.Next(Other(s));
    assert e.Hello(s) == e'.Hello(s) && e.Hello(Other(s)) == e'.Hello(Other(s));
    forall t ensures e.Next(t) <= e'.Next(t) && e.Hello(t) == e'.Hello(t) { if t != s { assert t == Other(s); } }
    HistoryParts(e, c.accepted, ALL);
    MediaSnoc(h.Now(), h2.Now(), c.accepted, ALL, m, s);
  }

  lemma MediaCacheOk(h: Hub, s: Stream, h2: Hub)
    requires CacheOk(h, ALL) && h2.generation == h.generation && h2.snapshot == h.snapshot
    requires h2.Of(Other(s)) == h.Of(Other(s)) && h2.Of(s) == h.Of(s).(next := h.Of(s).next + 1)
    requires h2.keyframe == h.keyframe || (s == Video && h2.keyframe.Some? && IsMedia(h2.keyframe.value, Video) && Made(h2.keyframe.value)
      && h2.keyframe.value.gen == h.generation && h2.keyframe.value.number == h.Of(s).next
      && h2.keyframe.value.afterHello == h.Of(s).hello.Some?)
    ensures CacheOk(h2, ALL)
  {
    forall t ensures h2.Of(t).hello == h.Of(t).hello && h2.Of(t).body == h.Of(t).body { if t != s { assert t == Other(s); } }
  }

  lemma HistoryParts(e: Epoch, hs: seq<Message>, greeted: set<Stream>)
    requires HistoryOk(e, hs, greeted)
    ensures Bounded(e, hs)
  {}

  lemma UpdateOk(h: Hub, fd: nat, c: Consumer)
    requires HubOk(h, ALL) && ClientOk(h.Now(), c, ALL)
    ensures HubOk(Update(h, fd, c), ALL)
  {
    hide Good, Made, HistoryOk, Lawful;
    SameCache(h, Update(h, fd, c), ALL);
    assert Update(h, fd, c).Now() == h.Now();
  }

  lemma FlushedOk(e: Epoch, c: Consumer, io: seq<Io>)
    requires ClientOk(e, c, ALL)
    ensures ClientOk(e, Flushed(c, io), ALL)
  {
    FlushedFacts(c, io);
  }

  lemma QuietPushOk(e: Epoch, c: Consumer, m: Message)
    requires ClientOk(e, c, ALL) && Quiet(m) && Made(m)
    ensures ClientOk(e, Pushed(c, m), ALL)
  {
    QuietSnoc(e, c.accepted, if c.dead then {} else ALL, m);
  }

  lemma HelloAgainOk(h: Hub, c: Consumer, s: Stream)
    requires HubOk(h, ALL) && ClientOk(h.Now(), c, ALL)
    ensures ClientOk(h.Now(), PushedIf(c, h.Of(s).hello), ALL)
  {
    if h.Of(s).hello.Some? {
      var greeted := if c.dead then {} else ALL;
      GreetSnoc(h.Now(), c.accepted, greeted, h.Of(s).hello.value, s);
      OkIsLawful(h.Now(), c.accepted + [h.Of(s).hello.value], greeted + {s});
    }
  }

  lemma WelcomedOk(h: Hub)
    requires HubOk(h, ALL)
    ensures ClientOk(h.Now(), Welcomed(h), ALL)
  {
    hide Good, Made, Lawful, HubOk, Quiet, HistoryOk, IsMedia, Pushed, FreshConsumer;
    HubCache(h);
    var c2, o := PushedIf(PushedIf(FreshConsumer(), h.video.hello), h.audio.hello), h.snapshot;
    BothHellosOk(h);
    if o.Some? { QuietPushOk(h.Now(), c2, o.value); }
    NoMediaYet(h);
    KeyframeOk(h, PushedIf(c2, o));
  }

  lemma BothHellosOk(h: Hub)
    requires CacheOk(h, ALL)
    ensures ClientOk(h.Now(), PushedIf(PushedIf(FreshConsumer(), h.video.hello), h.audio.hello), ALL)
  {
    hide Good, Made, Lawful, HistoryOk, CacheOk, Pushed, FreshConsumer;
    var e, c := h.Now(), FreshConsumer();
    var silent := set t: Stream | t in ALL && !e.Hello(t);
    EmptyOk(e, silent);
    GreetIf(h, c, silent, Video);
    GreetIf(h, PushedIf(c, h.video.hello), silent + {Video}, Audio);
    assert silent + {Video} + {Audio} == ALL;
  }

  lemma KeyframeOk(h: Hub, c: Consumer)
    requires CacheOk(h, ALL) && ClientOk(h.Now(), c, ALL) && NoMedia(c) && !c.dead
    ensures ClientOk(h.Now(), PushedIf(c, h.keyframe), ALL)
  {
    hide Good, Made, HistoryOk, IsMedia, CacheOk;
    if h.keyframe.Some? {
      KeyframeCached(h);
      MediaSnoc(h.Now(), h.Now(), c.accepted, ALL, h.keyframe.value, Video);
    }
  }

  lemma KeyframeCached(h: Hub)
    requires CacheOk(h, ALL) && h.keyframe.Some?
    ensures var k := h.keyframe.value;
      IsMedia(k, Video) && Made(k) && k.gen == h.generation && k.number < h.video.next && (k.afterHello ==> h.video.hello.Some?)
  {}

  lemma HubCache(h: Hub)
    requires HubOk(h, ALL)
    ensures CacheOk(h, ALL)
  {}

  lemma EmptyOk(e: Epoch, silent: set<Stream>)
    requires silent == set t: Stream | t in ALL && !e.Hello(t)
    ensures HistoryOk(e, [], silent)
  {}

  lemma GreetIf(h: Hub, c: Consumer, greeted: set<Stream>, s: Stream)
    requires CacheOk(h, ALL) && HistoryOk(h.Now(), c.accepted, greeted) && !c.dead
    requires h.Of(s).hello == None ==> s in greeted
    ensures HistoryOk(h.Now(), PushedIf(c, h.Of(s).hello).accepted, greeted + {s}) && !PushedIf(c, h.Of(s).hello).dead
  {
    if h.Of(s).hello.Some? {
      GreetSnoc(h.Now(), c.accepted, greeted, h.Of(s).hello.value, s);
    } else {
      assert greeted + {s} == greeted;
    }
  }

  ghost predicate NoMedia(c: Consumer) { forall i, s | 0 <= i < |c.accepted| :: !IsMedia(c.accepted[i], s) }

  lemma NoMediaPushed(c: Consumer, o: Option<Message>)
    requires NoMedia(c) && (o.Some? ==> forall s :: !IsMedia(o.value, s))
    ensures NoMedia(PushedIf(c, o)) && PushedIf(c, o).dead == c.dead
  {
    hide Good;
  }

  lemma NoMediaYet(h: Hub)
    requires CacheOk(h, ALL)
    ensures var c := PushedIf(PushedIf(PushedIf(FreshConsumer(), h.video.hello), h.audio.hello), h.snapshot);
      NoMedia(c) && !c.dead
  {
    hide Good, Made, NoMedia, PushedIf, FreshConsumer;
    var c := FreshConsumer();
    assert NoMedia(c) by { FreshHasNothing(c); }
    assert h.Of(Video).hello == h.video.hello && h.Of(Audio).hello == h.audio.hello;
    NoMediaPushed(c, h.video.hello);
    NoMediaPushed(PushedIf(c, h.video.hello), h.audio.hello);
    NoMediaPushed(PushedIf(PushedIf(c, h.video.hello), h.audio.hello), h.snapshot);
  }

  lemma FreshHasNothing(c: Consumer)
    requires c.accepted == []
    ensures NoMedia(c)
  {}

  // ----- every run -----

  lemma AcceptOk(h: Hub, fd: nat, cfg: Config, io: seq<Io>)
    requires HubOk(h, ALL)
    ensures HubOk(Accept(h, fd, cfg, io), ALL)
  {
    hide Good, HubOk, ClientOk, Update, Welcomed, Flushed;
    WelcomedOk(h);
    FlushedOk(h.Now(), Welcomed(h), io);
    UpdateOk(h, fd, Flushed(Welcomed(h), io));
  }

  lemma SubscribeOk(h: Hub, fd: nat, video: bool, audio: bool, events: bool, io: seq<Io>)
    requires HubOk(h, ALL)
    ensures HubOk(Subscribe(h, fd, video, audio, events, io), ALL)
  {
    hide Good, ClientOk, CacheOk, Update, Flushed, PushedIf;
    if fd in h.clients {
      var c := Wishing(h.clients[fd], video, audio, events);
      assert ClientOk(h.Now(), c, ALL) by { WishingOk(h.Now(), h.clients[fd], video, audio, events); }
      if video { HelloAgainOk(h, c, Video); }
      var c1 := if video then PushedIf(c, h.video.hello) else c;
      if audio { HelloAgainOk(h, c1, Audio); }
      var c2 := if audio then PushedIf(c1, h.audio.hello) else c1;
      FlushedOk(h.Now(), c2, io);
      UpdateOk(h, fd, Flushed(c2, io));
    }
  }

  lemma WishingOk(e: Epoch, c: Consumer, video: bool, audio: bool, events: bool)
    requires ClientOk(e, c, ALL)
    ensures ClientOk(e, Wishing(c, video, audio, events), ALL)
  {}

  lemma QuietReplyOk(h: Hub, c: Consumer, m: Message, io: seq<Io>)
    requires ClientOk(h.Now(), c, ALL) && Quiet(m) && Made(m)
    ensures ClientOk(h.Now(), Flushed(Pushed(c, m), io), ALL)
  {
    hide Good, Quiet, Made, HistoryOk;
    QuietPushOk(h.Now(), c, m);
    FlushedOk(h.Now(), Pushed(c, m), io);
  }

  lemma KillOk(h: Hub, fd: nat)
    requires HubOk(h, ALL)
    ensures HubOk(Kill(h, fd), ALL)
  {
    hide Good, HistoryOk, CacheOk, Update;
    if fd in h.clients {
      var c := h.clients[fd];
      FewerOk(h.Now(), c.accepted, if c.dead then {} else ALL, {});
      UpdateOk(h, fd, Killed(c));
    }
  }

  lemma PushStatsOk(h: Hub, io: Ios)
    requires HubOk(h, ALL)
    ensures HubOk(PushStats(h, io), ALL)
  {
    hide Good, ClientOk, CacheOk, Pushed, Flushed, Lawful;
    var h' := PushStats(h, io);
    assert h'.Now() == h.Now();
    SameCache(h, h', ALL);
    forall fd | fd in h.clients ensures ClientOk(h.Now(), h'.clients[fd], ALL) {
      var c := h.clients[fd];
      ControlMade(h.generation, STATS, VIDEO, 0, StatsMessage(h, c).body, false);
      QuietReplyOk(h, c, StatsMessage(h, c), IoOf(io, fd));
    }
  }

  lemma PublishOk(h: Hub, body: seq<byte>, health: bool, lim: Limits, io: Ios)
    requires HubOk(h, ALL)
    ensures HubOk(Publish(h, body, health, lim, io), ALL)
  {
    hide Good, ClientOk, Lawful, Broadcast;
    var m := MakeControl(h.generation, EVENT, MONITOR, h.eventNumber, body, true);
    ControlMade(h.generation, EVENT, MONITOR, h.eventNumber, body, true);
    NumberOk(h, h.eventNumber + 1);
    BroadcastQuietOk(h.(eventNumber := h.eventNumber + 1), m, false, false, true, lim, io);
    SnapshotOk(Broadcast(h.(eventNumber := h.eventNumber + 1), m, false, false, true, lim, io), m);
  }

  lemma NumberOk(h: Hub, n: nat)
    requires HubOk(h, ALL)
    ensures HubOk(h.(eventNumber := n), ALL)
  {
    hide Good, ClientOk, Lawful, CacheOk;
    SameCache(h, h.(eventNumber := n), ALL);
    assert h.(eventNumber := n).Now() == h.Now();
  }

  lemma SnapshotOk(h: Hub, m: Message)
    requires HubOk(h, ALL) && Quiet(m) && Made(m)
    ensures HubOk(h.(snapshot := Some(m)), ALL)
  {
    hide Good, Quiet, Made, ClientOk, Lawful;
    var h' := h.(snapshot := Some(m));
    assert h'.Now() == h.Now() && forall s :: h'.Of(s) == h.Of(s);
  }

  lemma StepOk(h: Hub, cfg: Config, op: Op)
    requires HubOk(h, ALL)
    ensures HubOk(Step(h, cfg, op), ALL)
  {
    hide Good, Made, Quiet, HubOk, ClientOk, Accept, Subscribe, Kill, PushStats, Reap, Publish, SetStreamParams, SendMedia, Flushed;
    match op
    case OpAccept(fd, io) => AcceptOk(h, fd, cfg, io);
    case OpSubscribe(fd, video, audio, events, io) => SubscribeOk(h, fd, video, audio, events, io);
    case OpRespond(fd, body, io) =>
      if fd in h.clients {
        ControlMade(h.generation, RESPONSE, MONITOR, 0, body, true);
        ClientIsOk(h, fd);
        var m := MakeControl(h.generation, RESPONSE, MONITOR, 0, body, true);
        QuietReplyOk(h, h.clients[fd], m, io);
        UpdateOk(h, fd, Flushed(Pushed(h.clients[fd], m), io));
      }
    case OpKill(fd) => KillOk(h, fd);
    case OpFlush(fd, io) =>
      if fd in h.clients && !h.clients[fd].dead {
        ClientIsOk(h, fd);
        FlushedOk(h.Now(), h.clients[fd], io);
        UpdateOk(h, fd, Flushed(h.clients[fd], io));
      }
    case OpStats(io) => PushStatsOk(h, io);
    case OpReap => ReapOk(h, ALL);
    case OpPublish(body, health, io) => PublishOk(h, body, health, cfg.lim, io);
    case OpSetSnapshot(body) =>
      ControlMade(h.generation, EVENT, MONITOR, h.eventNumber, body, true);
      SnapshotOk(h, MakeControl(h.generation, EVENT, MONITOR, h.eventNumber, body, true));
    case OpSetStreamParams(s, params, io, io2) => SetStreamParamsOk(h, s, HelloBody(params), cfg.lim, io, io2);
    case OpSendMedia(s, keyframe, pts, payload, io) => SendMediaOk(h, s, keyframe, pts, payload, cfg.lim, io);
  }

  lemma ClientIsOk(h: Hub, fd: nat)
    requires HubOk(h, ALL) && fd in h.clients
    ensures ClientOk(h.Now(), h.clients[fd], ALL)
  {}

  lemma InitOk()
    ensures HubOk(Init(), ALL)
  {}

  /** Over every run the cached Hellos and keyframe carry the current generation and every live consumer has been
      given the current Hello of every stream that has one. */
  lemma {:induction false} EveryRunOk(cfg: Config, ops: seq<Op>)
    ensures HubOk(Run(cfg, ops), ALL)
    decreases |ops|
  {
    if ops == [] {
      InitOk();
    } else {
      EveryRunOk(cfg, Front(ops));
      StepOk(Run(cfg, Front(ops)), cfg, Last(ops));
    }
  }

  /** Every consumer a run ever had. */
  ghost function Consumers(h: Hub): set<Consumer> { (set fd | fd in h.clients :: h.clients[fd]) + h.gone }

  /** Handshake safety: on the wire of every consumer of every run, and with what is partly written or queued after it,
      media comes after its stream's Hello of its own generation, generations never decrease, and (generation, sequence)
      strictly increases over a stream's media. */
  lemma HandshakeSafety(cfg: Config, ops: seq<Op>, c: Consumer)
    requires c in Consumers(Run(cfg, ops))
    ensures Good(c) && Lawful(c.accepted) && Lawful(Undropped(c)) && Lawful(c.onWire)
  {
    hide Good, Lawful, HistoryOk, Run, Undropped;
    var h := Run(cfg, ops);
    EveryRunOk(cfg, ops);
    ConsumerOk(h, c);
    LawfulOnWire(c);
  }

  lemma ConsumerOk(h: Hub, c: Consumer)
    requires HubOk(h, ALL) && c in Consumers(h)
    ensures Good(c) && Lawful(c.accepted)
  {
    hide Good, Lawful, HistoryOk, CacheOk;
    if c !in h.gone {
      var fd :| fd in h.clients && h.clients[fd] == c;
      OkIsLawful(h.Now(), c.accepted, if c.dead then {} else ALL);
    }
  }

  /** What the far end sees of any consumer of any run: cut into reads in any way, its bytes deframe to exactly the
      messages sent and the part of the next, if and only if no message sent is over the length the parser accepts and
      the partly written one does not yet break it. */
  lemma EveryConsumerReads(cfg: Config, ops: seq<Op>, c: Consumer, chunks: seq<seq<byte>>)
    requires c in Consumers(Run(cfg, ops)) && Deframer.Concat(chunks) == c.wire
    ensures Deframer.Reads(Deframer.Reader([], []), chunks) == Deframer.Reader(FramesOf(c.onWire), Partial(c)) <==>
            (forall m | m in c.onWire :: |m.body| + |m.Payload()| <= MAX_MESSAGE_LENGTH - HEADER_LENGTH_BYTES)
            && FrontReadable(c)
  {
    hide Good, Run, Deframer.Reads, FramesOf, Message.Deframable, Lawful, Consumers, FrontReadable;
    HandshakeSafety(cfg, ops, c);
    assert FrontOk(c) by { GoodTracks(c); }
    SmallDeframable(c);
    EndToEnd(c, chunks);
  }

  lemma SmallDeframable(c: Consumer)
    requires Lawful(c.accepted)
    ensures forall m | m in c.onWire ::
        m.Deframable() <==> |m.body| + |m.Payload()| <= MAX_MESSAGE_LENGTH - HEADER_LENGTH_BYTES
  {
    hide Good;
    GoodTracked(c);
    forall m | m in c.onWire
      ensures m.Deframable() <==> |m.body| + |m.Payload()| <= MAX_MESSAGE_LENGTH - HEADER_LENGTH_BYTES
    {
      assert m in c.onWire + c.queue;
      WasAccepted(c, m);
      MadeDeframable(m);
    }
  }

  lemma WasAccepted(c: ClientState, m: Message)
    requires Tracked(c) && m in c.onWire + c.queue
    ensures m in c.accepted
  {
    var all := c.onWire + c.queue;
    var k :| 0 <= k < |all| && all[k] == m;
    assert m == c.accepted[c.live[k]];
  }

  lemma MadeDeframable(m: Message)
    requires Made(m)
    ensures m.Deframable() <==> |m.body| + |m.Payload()| <= MAX_MESSAGE_LENGTH - HEADER_LENGTH_BYTES
  {}

  // ----- a run whose consumer cannot be read -----

  /** A new consumer, and one video unit that its socket takes whole. */
  function OneUnit(payload: seq<byte>): seq<Op> {
    [OpAccept(0, []), OpSendMedia(Video, false, 0, payload, map[0 := [Wrote(HEADER_SIZE + |payload|)]])]
  }

  lemma WholeSent(c: ClientState, m: Message)
    requires c.queue == [m] && c.frontOffset == 0 && m.WireSize() > 0
    ensures var d := Write(c, [Wrote(m.WireSize())]);
      d.onWire == c.onWire + [m] && d.queue == [] && d.dead == c.dead
  {
    hide Message.WireSize, Message.Image;
    var d := Advance(c, m.WireSize());
    assert c.queue[1..] == [] && Written(c, m.WireSize()) == m.WireSize();
    assert Write(d, []) == d;
  }

  lemma FreshSends(m: Message, lim: Limits)
    requires m.WireSize() > 0
    ensures Good(Fresh())
    ensures var c := Enqueued(Fresh(), m, lim, [Wrote(m.WireSize())]); c.onWire == [m] && c.queue == [] && !c.dead
  {
    hide Good, Message.WireSize, Write;
    FreshGood();
    MakeRoomGood(Fresh(), m, lim);
    PushGood(MakeRoom(Fresh(), m, lim), m);
    assert MakeRoom(Fresh(), m, lim) == Fresh();
    var pushed := Push(Fresh(), m);
    assert pushed.queue == [m] && pushed.onWire + [m] == [m];
    WholeSent(pushed, m);
  }

  lemma AcceptedAlone(cfg: Config)
    requires cfg.maxClients > 0
    ensures Accept(Init(), 0, cfg, []) == Init().(clients := map[0 := FreshConsumer()])
    ensures FreshConsumer() == Fresh()
  {
    hide Good;
  }

  lemma UnitSent(cfg: Config, payload: seq<byte>) returns (c: Consumer)
    requires cfg.maxClients > 0 && payload != []
    ensures c in Consumers(Run(cfg, OneUnit(payload)))
    ensures c.onWire == [MakeMedia(Init(), MEDIA, Video, 0, 0, 0, payload)]
  {
    hide Good, Accept, Enqueued, Message.Image, FreshConsumer;
    var m, io := MakeMedia(Init(), MEDIA, Video, 0, 0, 0, payload), [Wrote(HEADER_SIZE + |payload|)];
    var accept, send := OpAccept(0, []), OpSendMedia(Video, false, 0, payload, map[0 := io]);
    AcceptedAlone(cfg);
    assert m.WireSize() == HEADER_SIZE + |payload|;
    FreshSends(m, cfg.lim);
    var h := Run(cfg, [accept]);
    assert Front([accept]) == [] && Run(cfg, []) == Init() && Last([accept]) == accept;
    assert h == Step(Init(), cfg, accept);
    assert Step(Init(), cfg, accept) == Accept(Init(), 0, cfg, []);
    assert Front(OneUnit(payload)) == [accept] && Last(OneUnit(payload)) == send;
    EnqueueGood(Fresh(), m, cfg.lim, io);
    c := Enqueued(Fresh(), m, cfg.lim, io);
    var after := SendMedia(h, Video, false, 0, payload, cfg.lim, map[0 := io]);
    assert 0 in h.clients && h.clients[0] == Fresh() && IoOf(map[0 := io], 0) == io;
    assert Wants(h.clients[0], m, true, false, false);
    assert Offered(h.clients[0], m, true, false, false, cfg.lim, io) == c;
    assert 0 in after.clients && after.clients[0] == c;
  }

  /** One unit over the limit and nothing else: however its bytes are cut, the far end never reads it. */
  lemma OversizeUnread(cfg: Config, payload: seq<byte>) returns (c: Consumer)
    requires cfg.maxClients > 0 && |payload| > MAX_MESSAGE_LENGTH - HEADER_LENGTH_BYTES
    ensures c in Consumers(Run(cfg, OneUnit(payload))) && |c.onWire| == 1 && c.onWire[0].payload == Some(payload)
    ensures forall chunks | Deframer.Concat(chunks) == c.wire ::
        Deframer.Reads(Deframer.Reader([], []), chunks) != Deframer.Reader(FramesOf(c.onWire), Partial(c))
  {
    hide Good, Run, OneUnit, Consumers, Deframer.Reads, FramesOf, FrontReadable;
    c := UnitSent(cfg, payload);
    assert c.onWire[0] in c.onWire;
    GoodTracks(c);
    forall chunks | Deframer.Concat(chunks) == c.wire
      ensures Deframer.Reads(Deframer.Reader([], []), chunks) != Deframer.Reader(FramesOf(c.onWire), Partial(c))
    {
      EveryConsumerReads(cfg, OneUnit(payload), c, chunks);
    }
  }
}
