/** The control plane of the worker link: what a client's Subscribe and Command messages, and the events of the plugins,
    make the hub do. */
module LinkControl {
  import opened Common
  import opened StreamProtocol
  import opened Payloads
  import opened Clients
  import opened LinkSpec
  import opened Jsons
  import Base64
  import Deframer

  // ----- reading one key of an object, with a default; a value of another type throws -----

  function BoolAt(ms: seq<Member>, key: string, absent: bool): Option<bool> {
    match Lookup(ms, key)
    case None => Some(absent)
    case Some(JBool(b)) => Some(b)
    case Some(_) => None
  }

  function TextAt(ms: seq<Member>, key: string, absent: string): Option<string> {
    match Lookup(ms, key)
    case None => Some(absent)
    case Some(JStr(s)) => Some(s)
    case Some(_) => None
  }

  function Trunc(r: real): int { if r >= 0.0 then r.Floor else -(-r).Floor }

  /** A number or truth value read as an unsigned long long. */
  function CountAt(ms: seq<Member>, key: string): Option<u64> {
    match Lookup(ms, key)
    case None => Some(0)
    case Some(JInt(i)) => Some(i % 0x1_0000_0000_0000_0000)
    case Some(JReal(r)) => Some(Trunc(r) % 0x1_0000_0000_0000_0000)
    case Some(JBool(b)) => Some(if b then 1 else 0)
    case Some(_) => None
  }

  /** A number or truth value read as an int, then cast to an unsigned 32-bit one. */
  function WordAt(ms: seq<Member>, key: string): Option<u32> {
    match Lookup(ms, key)
    case None => Some(0)
    case Some(JInt(i)) => Some(i % 0x1_0000_0000)
    case Some(JReal(r)) => Some(Trunc(r) % 0x1_0000_0000)
    case Some(JBool(b)) => Some(if b then 1 else 0)
    case Some(_) => None
  }

  /** Whole numbers in range are read as they are, fractions cut off towards zero, truth values as 0 and 1. */
  lemma NumbersRead(ms: seq<Member>, key: string, i: int, r: real, b: bool)
    requires 0 <= i
    ensures Lookup(ms, key) == Some(JInt(i)) ==>
      && (i < 0x1_0000_0000_0000_0000 ==> CountAt(ms, key) == Some(i)) && (i < 0x1_0000_0000 ==> WordAt(ms, key) == Some(i))
    ensures Lookup(ms, key) == Some(JReal(r)) && i as real <= r < (i + 1) as real ==>
      && (i < 0x1_0000_0000_0000_0000 ==> CountAt(ms, key) == Some(i)) && (i < 0x1_0000_0000 ==> WordAt(ms, key) == Some(i))
    ensures Lookup(ms, key) == Some(JBool(b)) ==> CountAt(ms, key) == WordAt(ms, key) == Some(if b then 1 else 0)
    ensures Lookup(ms, key) == None ==> CountAt(ms, key) == WordAt(ms, key) == Some(0)
  {
    hide Lookup;
  }

  /** The text under a key, if there is one; this never throws. */
  function TextIfAny(ms: seq<Member>, key: string): string {
    match Lookup(ms, key)
    case Some(JStr(s)) => s
    case _ => ""
  }

  // ----- a client's messages -----

  datatype CommandResult = CommandResult(ok: bool, message: string, data: string)

  /** What the link calls: the JSON parser, the command handler if one is set, and the JSON writer, which throws on text
      that is not UTF-8. */
  datatype Calls = Calls(parse: seq<byte> -> Option<Json>, handler: Option<(string, seq<byte>) -> CommandResult>,
                         dump: Json -> Option<seq<byte>>)

  /** What handling one message comes to; an exception leaves the link's thread and ends the process. */
  datatype Effect = Ignore | Crash | Do(op: Op)

  function SubscribeEffect(fd: nat, body: seq<byte>, calls: Calls, io: seq<Io>): Effect {
    match calls.parse(body)
    case Some(JObj(ms)) =>
      var video, audio, events := BoolAt(ms, "video", true), BoolAt(ms, "audio", true), BoolAt(ms, "events", true);
      if video.None? || audio.None? || events.None? then Crash
      else Do(OpSubscribe(fd, video.value, audio.value, events.value, io))
    case _ => Ignore
  }

  /** The keys come out in alphabetical order. */
  function ResponseTo(id: u64, r: CommandResult): Json {
    JObj([Member("data", JStr(r.data)), Member("message", JStr(r.message)), Member("ok", JBool(r.ok)),
          Member("request_id", JInt(id))])
  }

  /** The name is "cmd" or else "name"; the handler is given the whole document. None: an exception. */
  function Answer(body: seq<byte>, calls: Calls): Option<Json> {
    match calls.parse(body)
    case Some(JObj(ms)) =>
      var otherwise := TextAt(ms, "name", "");
      if otherwise.None? then None
      else
        var name, id := TextAt(ms, "cmd", otherwise.value), CountAt(ms, "request_id");
        if name.None? || id.None? then None
        else if calls.handler.Some? then Some(ResponseTo(id.value, calls.handler.value(name.value, body)))
        else Some(ResponseTo(id.value, CommandResult(false, "no command handler", "")))
    case _ => Some(ResponseTo(0, CommandResult(false, "bad command", "")))
  }

  function ResponseBody(body: seq<byte>, calls: Calls): Option<seq<byte>> {
    match Answer(body, calls)
    case None => None
    case Some(j) => calls.dump(j)
  }

  function CommandEffect(fd: nat, body: seq<byte>, calls: Calls, io: seq<Io>): Effect {
    match ResponseBody(body, calls)
    case None => Crash
    case Some(text) => Do(OpRespond(fd, text, io))
  }

  function EffectOf(fd: nat, f: Deframer.Frame, calls: Calls, io: seq<Io>): Effect {
    if f.header.kind == SUBSCRIBE then SubscribeEffect(fd, f.body, calls, io)
    else if f.header.kind == COMMAND then CommandEffect(fd, f.body, calls, io)
    else Ignore
  }

  /** Whether handling these messages throws nothing; that does not depend on what the socket takes. */
  predicate Survives(fd: nat, fs: seq<Deframer.Frame>, calls: Calls) {
    forall f | f in fs :: EffectOf(fd, f, calls, []) != Crash
  }

  /** What these messages make the hub do, up to an exception. The first of them is number first of all the client's
      messages, and what the socket takes after its k-th is ios(k). */
  function Orders(fd: nat, fs: seq<Deframer.Frame>, first: nat, calls: Calls, ios: nat -> seq<Io>): seq<Op> {
    if fs == [] then []
    else
      var before := Orders(fd, Front(fs), first, calls, ios);
      if !Survives(fd, Front(fs), calls) then before
      else match EffectOf(fd, Last(fs), calls, ios(first + |fs| - 1))
        case Do(op) => before + [op]
        case _ => before
  }

  lemma CrashAlike(fd: nat, f: Deframer.Frame, calls: Calls, io: seq<Io>, io2: seq<Io>)
    ensures EffectOf(fd, f, calls, io) == Crash <==> EffectOf(fd, f, calls, io2) == Crash
  {}

  lemma SurvivesConcat(fd: nat, a: seq<Deframer.Frame>, b: seq<Deframer.Frame>, calls: Calls)
    ensures Survives(fd, a + b, calls) <==> Survives(fd, a, calls) && Survives(fd, b, calls)
  {
    hide EffectOf;
    assert forall f | f in a :: f in a + b;
    assert forall f | f in b :: f in a + b;
  }

  lemma {:induction false} OrdersConcat(fd: nat, a: seq<Deframer.Frame>, b: seq<Deframer.Frame>, first: nat, calls: Calls,
                                        ios: nat -> seq<Io>)
    ensures Orders(fd, a + b, first, calls, ios) ==
      if Survives(fd, a, calls) then Orders(fd, a, first, calls, ios) + Orders(fd, b, first + |a|, calls, ios)
      else Orders(fd, a, first, calls, ios)
    decreases |b|
  {
    hide EffectOf, Survives;
    if b == [] {
      assert a + b == a;
    } else {
      OrdersConcat(fd, a, Front(b), first, calls, ios);
      assert Front(a + b) == a + Front(b);
      SurvivesConcat(fd, a, Front(b), calls);
    }
  }

  // ----- what the messages say -----

  /** The name a command is known by: its "cmd", or without one its "name", or nothing. */
  predicate Named(ms: seq<Member>, name: string) {
    || Lookup(ms, "cmd") == Some(JStr(name))
    || (Lookup(ms, "cmd") == None && Lookup(ms, "name") == Some(JStr(name)))
    || (Lookup(ms, "cmd") == None && Lookup(ms, "name") == None && name == "")
  }

  /** An answer that says this under its four keys. */
  predicate Says(j: Json, id: int, r: CommandResult) {
    && j.JObj? && Lookup(j.members, "request_id") == Some(JInt(id)) && Lookup(j.members, "ok") == Some(JBool(r.ok))
    && Lookup(j.members, "message") == Some(JStr(r.message)) && Lookup(j.members, "data") == Some(JStr(r.data))
  }

  lemma ResponseSays(id: u64, r: CommandResult)
    ensures Says(ResponseTo(id, r), id, r)
  {
    hide Lookup;
    var data, message := [Member("data", JStr(r.data))], [Member("message", JStr(r.message))];
    var ok, number := [Member("ok", JBool(r.ok))], [Member("request_id", JInt(id))];
    assert ResponseTo(id, r).members == data + message + ok + number;
    forall key | key in {"data", "message", "ok", "request_id"}
      ensures Lookup(data + message + ok + number, key) ==
        if key == "data" then Some(JStr(r.data)) else if key == "message" then Some(JStr(r.message))
        else if key == "ok" then Some(JBool(r.ok)) else Some(JInt(id))
    {
      LookupConcat(data, message, key);
      LookupConcat(data + message, ok, key);
      LookupConcat(data + message + ok, number, key);
      LookupOne("data", JStr(r.data), key);
      LookupOne("message", JStr(r.message), key);
      LookupOne("ok", JBool(r.ok), key);
      LookupOne("request_id", JInt(id), key);
    }
  }

  /** An object is answered by the handler, called with its name and its whole text, under its own number, or by the
      lack of a handler; anything else is a bad command. */
  lemma AnswerSays(body: seq<byte>, calls: Calls, j: Json)
    requires Answer(body, calls) == Some(j)
    ensures match calls.parse(body)
      case Some(JObj(ms)) =>
        exists id, name :: && Named(ms, name) && CountAt(ms, "request_id") == Some(id)
          && Says(j, id, if calls.handler.Some? then calls.handler.value(name, body)
                         else CommandResult(false, "no command handler", ""))
      case _ => Says(j, 0, CommandResult(false, "bad command", ""))
  {
    hide Lookup, ResponseTo, Says;
    match calls.parse(body)
    case Some(JObj(ms)) =>
      var name := TextAt(ms, "cmd", TextAt(ms, "name", "").value).value;
      var id := CountAt(ms, "request_id").value;
      var r := if calls.handler.Some? then calls.handler.value(name, body) else CommandResult(false, "no command handler", "");
      ResponseSays(id, r);
      assert Named(ms, name);
    case _ => ResponseSays(0, CommandResult(false, "bad command", ""));
  }

  // ----- which messages throw -----

  predicate NotBool(ms: seq<Member>, key: string) {
    var v := Lookup(ms, key);
    v.Some? && !v.value.JBool?
  }

  predicate NotText(ms: seq<Member>, key: string) {
    var v := Lookup(ms, key);
    v.Some? && !v.value.JStr?
  }

  predicate NotNumber(ms: seq<Member>, key: string) {
    var v := Lookup(ms, key);
    v.Some? && !(v.value.JInt? || v.value.JReal? || v.value.JBool?)
  }

  /** An object with a value of the wrong type under a key the message is read for. */
  predicate IllTyped(f: Deframer.Frame, calls: Calls) {
    match calls.parse(f.body)
    case Some(JObj(ms)) =>
      || (f.header.kind == SUBSCRIBE && (NotBool(ms, "video") || NotBool(ms, "audio") || NotBool(ms, "events")))
      || (f.header.kind == COMMAND && (NotText(ms, "name") || NotText(ms, "cmd") || NotNumber(ms, "request_id")))
    case _ => false
  }

  /** A well-typed command with an answer the JSON writer cannot print. */
  predicate Unprintable(f: Deframer.Frame, calls: Calls) {
    f.header.kind == COMMAND && Answer(f.body, calls).Some? && calls.dump(Answer(f.body, calls).value).None?
  }

  /** A message throws exactly when it is ill-typed or its answer cannot be printed. */
  lemma CrashIff(fd: nat, f: Deframer.Frame, calls: Calls, io: seq<Io>)
    ensures EffectOf(fd, f, calls, io) == Crash <==> IllTyped(f, calls) || Unprintable(f, calls)
  {
    hide Lookup, ResponseTo;
    if f.header.kind == COMMAND { NoAnswerIff(f, calls); }
  }

  lemma NoAnswerIff(f: Deframer.Frame, calls: Calls)
    requires f.header.kind == COMMAND
    ensures Answer(f.body, calls).None? <==> IllTyped(f, calls)
  {
    hide Lookup, ResponseTo;
  }

  /** A well-typed Subscribe is obeyed: each stream is granted unless refused by false, the three each under its own key. */
  lemma WishesRead(fd: nat, f: Deframer.Frame, calls: Calls, io: seq<Io>, ms: seq<Member>)
    requires f.header.kind == SUBSCRIBE && calls.parse(f.body) == Some(JObj(ms)) && !IllTyped(f, calls)
    ensures EffectOf(fd, f, calls, io) ==
      Do(OpSubscribe(fd, Lookup(ms, "video") != Some(JBool(false)), Lookup(ms, "audio") != Some(JBool(false)),
                     Lookup(ms, "events") != Some(JBool(false)), io))
  {
    hide Lookup;
  }

  /** So a read survives exactly when it holds no such message. */
  lemma SurvivesIff(fd: nat, fs: seq<Deframer.Frame>, calls: Calls)
    ensures Survives(fd, fs, calls) <==> forall f | f in fs :: !IllTyped(f, calls) && !Unprintable(f, calls)
  {
    hide EffectOf, IllTyped, Unprintable;
    forall f | f in fs ensures EffectOf(fd, f, calls, []) == Crash <==> IllTyped(f, calls) || Unprintable(f, calls) {
      CrashIff(fd, f, calls, []);
    }
  }

  /** There is such a message: a Subscribe whose "video" is the number 1. */
  lemma NumberForWish(fd: nat, io: seq<Io>)
    ensures var calls := Calls(_ => Some(JObj([Member("video", JInt(1))])), None, _ => Some([]));
      var f := Deframer.Frame(Header(22, PROTOCOL_VERSION, SUBSCRIBE, MONITOR, 0, 0, 0, 0), [0, 0]);
      f.Wire() && EffectOf(fd, f, calls, io) == Crash && !Survives(fd, [f], calls)
  {
    var calls := Calls(_ => Some(JObj([Member("video", JInt(1))])), None, _ => Some([]));
    var f := Deframer.Frame(Header(22, PROTOCOL_VERSION, SUBSCRIBE, MONITOR, 0, 0, 0, 0), [0, 0]);
    var ms := [Member("video", JInt(1))];
    assert Lookup(ms, "video") == Some(JInt(1));
    CrashIff(fd, f, calls, io);
    CrashIff(fd, f, calls, []);
    assert f in [f];
  }

  // ----- a read is a run of hub operations -----

  ghost function Took(h: Hub, cfg: Config, e: Effect): Hub { if e.Do? then Step(h, cfg, e.op) else h }

  ghost function Steps(h: Hub, cfg: Config, ops: seq<Op>): Hub {
    if ops == [] then h else Step(Steps(h, cfg, Front(ops)), cfg, Last(ops))
  }

  lemma StepsSnoc(h: Hub, cfg: Config, ops: seq<Op>, op: Op)
    ensures Steps(h, cfg, ops + [op]) == Step(Steps(h, cfg, ops), cfg, op)
  {
    hide Step, Good;
    assert Front(ops + [op]) == ops;
  }

  lemma KillStep(h: Hub, cfg: Config, fd: nat)
    ensures Step(h, cfg, OpKill(fd)) == Kill(h, fd)
  {}

  /** Handling one message more. */
  lemma OrdersSnoc(h: Hub, cfg: Config, fd: nat, fs: seq<Deframer.Frame>, f: Deframer.Frame, first: nat, calls: Calls,
                   ios: nat -> seq<Io>)
    requires Survives(fd, fs, calls)
    ensures var e := EffectOf(fd, f, calls, ios(first + |fs|));
      && Steps(h, cfg, Orders(fd, fs + [f], first, calls, ios)) == Took(Steps(h, cfg, Orders(fd, fs, first, calls, ios)), cfg, e)
      && (Survives(fd, fs + [f], calls) <==> e != Crash)
  {
    hide EffectOf, Step, Good, Steps, Orders;
    var io := ios(first + |fs|);
    SurvivesConcat(fd, fs, [f], calls);
    CrashAlike(fd, f, calls, io, []);
    assert f in [f];
    OneMore(fd, fs, f, first, calls, ios);
    var e := EffectOf(fd, f, calls, io);
    var before := Orders(fd, fs, first, calls, ios);
    assert before + [] == before;
    if e.Do? { StepsSnoc(h, cfg, before, e.op); }
  }

  lemma OneMore(fd: nat, fs: seq<Deframer.Frame>, f: Deframer.Frame, first: nat, calls: Calls, ios: nat -> seq<Io>)
    requires Survives(fd, fs, calls)
    ensures var e := EffectOf(fd, f, calls, ios(first + |fs|));
      Orders(fd, fs + [f], first, calls, ios) == Orders(fd, fs, first, calls, ios) + if e.Do? then [e.op] else []
  {
    hide EffectOf, Survives;
    assert Front(fs + [f]) == fs;
  }

  lemma NothingYet(h: Hub, cfg: Config, fd: nat, first: nat, calls: Calls, ios: nat -> seq<Io>)
    ensures Survives(fd, [], calls) && Steps(h, cfg, Orders(fd, [], first, calls, ios)) == h
  {}

  /** After an exception nothing more is handled. */
  lemma CrashEnds(fd: nat, done: seq<Deframer.Frame>, fs: seq<Deframer.Frame>, first: nat, calls: Calls, ios: nat -> seq<Io>)
    requires done <= fs && !Survives(fd, done, calls)
    ensures !Survives(fd, fs, calls) && Orders(fd, fs, first, calls, ios) == Orders(fd, done, first, calls, ios)
  {
    hide Survives, Orders;
    var rest := fs[|done|..];
    assert fs == done + rest;
    SurvivesConcat(fd, done, rest, calls);
    OrdersConcat(fd, done, rest, first, calls, ios);
  }

  /** So after any reads the hub is one that some run reaches, and all that holds of every run holds of it. */
  lemma {:induction false} StepsExtendRuns(cfg: Config, ops: seq<Op>, more: seq<Op>)
    ensures Steps(Run(cfg, ops), cfg, more) == Run(cfg, ops + more)
    decreases |more|
  {
    hide Step, Init, Good;
    if more == [] {
      assert ops + more == ops;
    } else {
      StepsExtendRuns(cfg, ops, Front(more));
      assert Front(ops + more) == ops + Front(more);
    }
  }

  /** What one read makes the hub do: its messages in order, then the end of a client whose stream is broken. */
  function ReadOrders(fd: nat, r: Deframer.Inbound, chunk: seq<byte>, calls: Calls, ios: nat -> seq<Io>): seq<Op> {
    var d := Deframer.Drain(r.buf + chunk);
    Orders(fd, d.frames, |r.frames|, calls, ios) + if Survives(fd, d.frames, calls) && d.bad then [OpKill(fd)] else []
  }

  /** The same for read after read, until the client or the process ends. */
  function ReadsOrders(fd: nat, r: Deframer.Inbound, chunks: seq<seq<byte>>, calls: Calls, ios: nat -> seq<Io>): seq<Op>
    decreases |chunks|
  {
    if chunks == [] then []
    else
      var d := Deframer.Drain(r.buf + chunks[0]);
      ReadOrders(fd, r, chunks[0], calls, ios)
      + if Survives(fd, d.frames, calls) && !d.bad
        then ReadsOrders(fd, Deframer.LinkRead(r, chunks[0]), chunks[1..], calls, ios) else []
  }

  /** However a client's bytes are cut into reads, they make the hub do the same things in the same order. */
  lemma {:induction false} OrdersAnyCut(fd: nat, r: Deframer.Inbound, chunks: seq<seq<byte>>, calls: Calls, ios: nat -> seq<Io>)
    requires !r.dead && Deframer.Next(r.buf) == Deframer.Wait
    ensures ReadsOrders(fd, r, chunks, calls, ios) == ReadOrders(fd, r, Deframer.Concat(chunks), calls, ios)
    decreases |chunks|
  {
    hide Deframer.Next, Deframer.Drain, Survives, EffectOf, Orders;
    if chunks == [] {
      assert r.buf + Deframer.Concat(chunks) == r.buf;
      NothingToDo(fd, r, calls, ios);
    } else {
      var c, cs := chunks[0], chunks[1..];
      var later := Deframer.Concat(cs);
      Deframer.ReadStep([], r.buf, c, later);
      var first, all, r' := Deframer.Drain(r.buf + c), Deframer.Drain(r.buf + (c + later)), Deframer.LinkRead(r, c);
      if !first.bad {
        var more := Deframer.Drain(first.rest + later);
        assert [] + all.frames == all.frames && [] + first.frames == first.frames;
        OrdersConcat(fd, first.frames, more.frames, |r.frames|, calls, ios);
        SurvivesConcat(fd, first.frames, more.frames, calls);
        OrdersAnyCut(fd, r', cs, calls, ios);
      }
    }
  }

  lemma NothingToDo(fd: nat, r: Deframer.Inbound, calls: Calls, ios: nat -> seq<Io>)
    requires Deframer.Next(r.buf) == Deframer.Wait
    ensures Deframer.Drain(r.buf) == Deframer.Drained([], r.buf, false)
    ensures Orders(fd, [], |r.frames|, calls, ios) == [] && Survives(fd, [], calls)
  {}

  // ----- every command is answered -----

  function Commands(fs: seq<Deframer.Frame>): seq<seq<byte>> {
    if fs == [] then [] else Commands(Front(fs)) + if Last(fs).header.kind == COMMAND then [Last(fs).body] else []
  }

  function Responses(ops: seq<Op>): seq<seq<byte>> {
    if ops == [] then [] else Responses(Front(ops)) + if Last(ops).OpRespond? then [Last(ops).body] else []
  }

  /** The messages before the first that throws. */
  function BeforeThrow(fd: nat, fs: seq<Deframer.Frame>, calls: Calls): (n: nat)
    ensures n <= |fs| && Survives(fd, fs[..n], calls)
    ensures n < |fs| ==> EffectOf(fd, fs[n], calls, []) == Crash
  {
    if fs == [] then 0
    else
      var n := BeforeThrow(fd, Front(fs), calls);
      assert Front(fs)[..n] == fs[..n] && fs[..|fs|] == fs && fs == Front(fs) + [Last(fs)];
      if n < |fs| - 1 || EffectOf(fd, Last(fs), calls, []) == Crash then n else |fs|
  }

  /** The responses are exactly the answers to the commands before the first message that throws, in their order. */
  lemma CommandsAnswered(fd: nat, fs: seq<Deframer.Frame>, first: nat, calls: Calls, ios: nat -> seq<Io>)
    ensures var given, commands := Responses(Orders(fd, fs, first, calls, ios)), Commands(fs[..BeforeThrow(fd, fs, calls)]);
      |given| == |commands| && forall k | 0 <= k < |given| :: Some(given[k]) == ResponseBody(commands[k], calls)
  {
    hide ResponseBody, EffectOf, Survives, Orders, Commands, Responses;
    var n := BeforeThrow(fd, fs, calls);
    AllAnswered(fd, fs[..n], first, calls, ios);
    if n < |fs| {
      ThrowsNext(fd, fs, n, calls);
      CrashEnds(fd, fs[..n + 1], fs, first, calls, ios);
      OneMore(fd, fs[..n], fs[n], first, calls, ios);
      CrashAlike(fd, fs[n], calls, ios(first + n), []);
      assert fs[..n] + [fs[n]] == fs[..n + 1];
      var before := Orders(fd, fs[..n], first, calls, ios);
      assert before + [] == before;
    } else {
      assert fs[..n] == fs;
    }
  }

  lemma ThrowsNext(fd: nat, fs: seq<Deframer.Frame>, n: nat, calls: Calls)
    requires n < |fs| && EffectOf(fd, fs[n], calls, []) == Crash
    ensures !Survives(fd, fs[..n + 1], calls)
  {
    hide EffectOf;
    assert fs[..n + 1][n] == fs[n];
  }

  lemma {:induction false} AllAnswered(fd: nat, fs: seq<Deframer.Frame>, first: nat, calls: Calls, ios: nat -> seq<Io>)
    requires Survives(fd, fs, calls)
    ensures var given, commands := Responses(Orders(fd, fs, first, calls, ios)), Commands(fs);
      |given| == |commands| && forall k | 0 <= k < |given| :: Some(given[k]) == ResponseBody(commands[k], calls)
    decreases |fs|
  {
    hide ResponseBody, SubscribeEffect, Survives;
    if fs != [] {
      var f, ops := Last(fs), Orders(fd, Front(fs), first, calls, ios);
      SurvivesConcat(fd, Front(fs), [f], calls);
      assert Front(fs) + [f] == fs;
      AllAnswered(fd, Front(fs), first, calls, ios);
      LastSurvives(fd, f, calls, ios(first + |fs| - 1));
      SubscribesOnly(fd, f.body, calls, ios(first + |fs| - 1));
      var e := EffectOf(fd, f, calls, ios(first + |fs| - 1));
      if e.Do? { assert Front(ops + [e.op]) == ops; }
    }
  }

  lemma LastSurvives(fd: nat, f: Deframer.Frame, calls: Calls, io: seq<Io>)
    requires Survives(fd, [f], calls)
    ensures EffectOf(fd, f, calls, io) != Crash
  {
    hide EffectOf;
    assert f in [f];
    CrashAlike(fd, f, calls, io, []);
  }

  lemma SubscribesOnly(fd: nat, body: seq<byte>, calls: Calls, io: seq<Io>)
    ensures var e := SubscribeEffect(fd, body, calls, io); e.Do? ==> e.op.OpSubscribe?
  {}

  // ----- the plugins' events -----

  const EVENT_SNAPSHOT: u16 := 0x0001
  const EVENT_CONNECTION_FAILED: u16 := 0x0101
  const EVENT_CONNECTION_RESTORED: u16 := 0x0102
  const EVENT_PRIME_CAPTURE_FAILED: u16 := 0x0103
  const EVENT_PRIME_CAPTURE_RESTORED: u16 := 0x0104
  const EVENT_CAPTURE_FAILED: u16 := 0x0105
  const EVENT_CAPTURE_RESUMED: u16 := 0x0106
  const EVENT_STATE_CHANGED: u16 := 0x0201
  const EVENT_DETECTION: u16 := 0x0301
  const EVENT_DESCRIPTION: u16 := 0x0302
  const EVENT_RECORDING_SAVED: u16 := 0x0303
  const EVENT_RECORDING_OPENING: u16 := 0x0304
  const EVENT_REVIEW_ASSETS: u16 := 0x0306

  function MapEventCode(kind: string, event: string): u16 {
    if kind == "connection_failed" then EVENT_CONNECTION_FAILED
    else if kind == "connection_restored" then EVENT_CONNECTION_RESTORED
    else if kind == "prime_capture_failed" then EVENT_PRIME_CAPTURE_FAILED
    else if kind == "prime_capture_restored" then EVENT_PRIME_CAPTURE_RESTORED
    else if kind == "capture_failed" then EVENT_CAPTURE_FAILED
    else if kind == "capture_resumed" then EVENT_CAPTURE_RESUMED
    else if kind == "state_changed" then EVENT_STATE_CHANGED
    else if kind == "motion" || kind == "zone_motion" || kind == "detection" then EVENT_DETECTION
    else if kind == "description" then EVENT_DESCRIPTION
    else if kind == "review_assets" then EVENT_REVIEW_ASSETS
    else if event == "EventClip" then EVENT_RECORDING_SAVED
    else if event == "RecordingOpening" then EVENT_RECORDING_OPENING
    else 0
  }

  predicate IsAiCode(code: u16) {
    code in {EVENT_DETECTION, EVENT_DESCRIPTION, EVENT_RECORDING_SAVED, EVENT_RECORDING_OPENING, EVENT_REVIEW_ASSETS}
  }

  /** What an event comes to: an exception, new parameters of a stream, or an EVENT message. */
  datatype Publishing = Throws | Parameters(s: Stream, p: HelloParams) | Announce(ev: MonitorEvent, health: bool)

  function ParametersOf(ms: seq<Member>): Publishing {
    var extradata := Base64.Decode(TextIfAny(ms, "extradata"));
    var media := TextAt(ms, "media", "video");
    var codec, width, height := WordAt(ms, "codec_id"), WordAt(ms, "width"), WordAt(ms, "height");
    var rate, channels := WordAt(ms, "sample_rate"), WordAt(ms, "channels");
    if media.None? || codec.None? || width.None? || height.None? || rate.None? || channels.None? then Throws
    else Parameters(if media.value == "audio" then Audio else Video,
                    HelloParams(codec.value, extradata, width.value, height.value, 0, 0, rate.value, channels.value))
  }

  function AnnounceOf(raw: seq<byte>, kind: string, event: string, now: u64): Publishing {
    var code := MapEventCode(kind, event);
    var ai := IsAiCode(code);
    Announce(MonitorEvent(code, Some(now), if ai then [] else raw, None, None, None, [], None, if ai then raw else []),
             code != 0 && code != EVENT_SNAPSHOT && !ai)
  }

  function SnapshotEvent(raw: seq<byte>, now: u64): MonitorEvent {
    MonitorEvent(EVENT_SNAPSHOT, Some(now), raw, None, None, None, [], None, [])
  }

  function PublishingOf(raw: seq<byte>, parsed: Option<Json>, now: u64): Publishing {
    match parsed
    case Some(JObj(ms)) =>
      var event := TextAt(ms, "event", "");
      if event.None? then Throws
      else if event.value == "StreamMetadata" then ParametersOf(ms)
      else AnnounceOf(raw, TextIfAny(ms, "type"), TextIfAny(ms, "event"), now)
    case _ => AnnounceOf(raw, "", "", now)
  }

  const LIFECYCLE: set<string> := {"connection_failed", "connection_restored", "prime_capture_failed",
                                   "prime_capture_restored", "capture_failed", "capture_resumed", "state_changed"}

  /** The code of each kind of event, as the protocol numbers them. */
  const CODES: map<string, u16> := map["connection_failed" := 0x0101, "connection_restored" := 0x0102,
                                       "prime_capture_failed" := 0x0103, "prime_capture_restored" := 0x0104,
                                       "capture_failed" := 0x0105, "capture_resumed" := 0x0106, "state_changed" := 0x0201,
                                       "motion" := 0x0301, "zone_motion" := 0x0301, "detection" := 0x0301,
                                       "description" := 0x0302, "review_assets" := 0x0306]

  /** The kind decides, then the name of the event, else the code is 0. */
  lemma CodeOfKind(kind: string, event: string)
    ensures MapEventCode(kind, event) ==
      if kind in CODES then CODES[kind] else if event == "EventClip" then 0x0303
      else if event == "RecordingOpening" then 0x0304 else 0
  {}

  /** Stream metadata, its members in any order and any others among them, become parameters, each number under its own
      key and the extradata as encoded in base64. */
  lemma MetadataRead(raw: seq<byte>, ms: seq<Member>, now: u64, s: Stream, p: HelloParams)
    requires Lookup(ms, "event") == Some(JStr("StreamMetadata")) && p.fpsNum == p.fpsDen == 0
    requires Lookup(ms, "media") == if s == Audio then Some(JStr("audio")) else None
    requires Lookup(ms, "codec_id") == Some(JInt(p.codecId))
    requires Lookup(ms, "extradata") == Some(JStr(Base64.Encode(p.extradata)))
    requires Lookup(ms, "width") == Some(JInt(p.width)) && Lookup(ms, "height") == Some(JInt(p.height))
    requires Lookup(ms, "sample_rate") == Some(JInt(p.sampleRate)) && Lookup(ms, "channels") == Some(JInt(p.channels))
    ensures PublishingOf(raw, Some(JObj(ms)), now) == Parameters(s, p)
  {
    hide Lookup;
    Base64.RoundTrip(p.extradata);
  }

  /** Exactly the lifecycle events become the snapshot a new consumer is greeted with. */
  lemma HealthIff(raw: seq<byte>, kind: string, event: string, now: u64)
    ensures AnnounceOf(raw, kind, event, now).health <==> kind in LIFECYCLE
  {}

  ghost function EventBody(ev: MonitorEvent): seq<byte> {
    PresentFits(EventFields(ev));
    PutU16(ev.code) + EncodeTlvs(Present(EventFields(ev)))
  }

  lemma EventBodyUnique(ev: MonitorEvent, out: seq<byte>)
    requires |out| >= 2 && out[..2] == PutU16(ev.code) && Holds(out[2..], EventFields(ev))
    ensures out == EventBody(ev)
  {
    assert out == out[..2] + out[2..];
  }

  /** A consumer that parses a published event gets its code, its time, and its whole document up to 65535 bytes, as the
      message of a lifecycle or unknown event and as the detail of an analysis event. */
  lemma PublishedReadsBack(raw: seq<byte>, parsed: Option<Json>, now: u64)
    requires PublishingOf(raw, parsed, now).Announce?
    ensures var ev := PublishingOf(raw, parsed, now).ev;
      var back := EventOf(EventBody(ev));
      && back.Some? && back.value.code == ev.code && back.value.wallClock == Some(now)
      && (if IsAiCode(ev.code) then back.value.jsonDetail == Clamp(raw) && back.value.message == []
          else back.value.message == Clamp(raw) && back.value.jsonDetail == [])
  {
    hide EventOf, EventFields, MapEventCode;
    EventRoundTrip(PublishingOf(raw, parsed, now).ev);
  }
}
