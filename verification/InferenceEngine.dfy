/** The shared inference engine: concurrent requests are queued, a dispatcher runs them in batches through one model
    call, and every caller must get what a batch of its own would have given. */
module InferenceEngines {
  import opened Common
  import opened Grids

  datatype Box = Box(x: real, y: real, w: real, h: real, confidence: real, cls: int)

  /** A caller's tensor and what its boxes are decoded with. */
  datatype Request = Request(src: seq<real>, params: nat)

  /** The model and the decoder. A tensor has `per` values; an image's output has `cells` values, none when the output
      has not the shape to be decoded. `run` is the batched call, `one` what it does to a single image. */
  datatype Net = Net(per: nat, cells: nat, run: seq<real> -> seq<real>, one: seq<real> -> seq<real>,
                     decode: (seq<real>, nat) -> seq<Box>)

  /** Where image i of a batch begins. */
  function At(i: nat, size: nat): nat { i * size }

  lemma AtSteps(i: nat, size: nat)
    ensures At(0, size) == 0 && At(i + 1, size) == At(i, size) + size
  {}

  lemma AtWithin(i: nat, n: nat, size: nat)
    requires i < n
    ensures At(i, size) + size <= At(n, size)
  {
    Farther(i, n, size);
  }

  /** The model acts on each image of a batch by itself. */
  ghost predicate RowWise(net: Net) {
    forall n: nat, input: seq<real> | |input| == At(n, net.per) :: RowWiseOn(net, n, input)
  }

  ghost predicate RowWiseOn(net: Net, n: nat, input: seq<real>)
    requires |input| == At(n, net.per)
  {
    |net.run(input)| == At(n, net.cells) &&
    forall i: nat | i < n && At(i, net.per) + net.per <= |input| && At(i, net.cells) + net.cells <= |net.run(input)| ::
      net.run(input)[At(i, net.cells)..At(i, net.cells) + net.cells] ==
      net.one(input[At(i, net.per)..At(i, net.per) + net.per])
  }

  /** What a request alone is answered. */
  function Alone(net: Net, r: Request): seq<Box> {
    if net.cells == 0 then [] else net.decode(net.one(r.src), r.params)
  }

  /** The tensors of a batch, one after the other. */
  function Assembled(batch: seq<Request>): seq<real> {
    if batch == [] then [] else Assembled(Front(batch)) + Last(batch).src
  }

  predicate Shaped(batch: seq<Request>, per: nat) { forall r | r in batch :: |r.src| == per }

  /** The i-th answer of a batch, cut out of the batched output. */
  function Answer(net: Net, batch: seq<Request>, out: seq<real>, i: nat): seq<Box>
    requires i < |batch|
  {
    if net.cells == 0 || At(i, net.cells) + net.cells > |out| then []
    else net.decode(out[At(i, net.cells)..At(i, net.cells) + net.cells], batch[i].params)
  }

  lemma SliceOfLeft(a: seq<real>, b: seq<real>, i: nat, k: nat)
    requires i <= k <= |a|
    ensures (a + b)[i..k] == a[i..k]
  {}

  lemma SliceOfRight(a: seq<real>, b: seq<real>)
    ensures (a + b)[|a|..|a| + |b|] == b
  {}

  lemma {:induction false} AssembledSlices(batch: seq<Request>, per: nat, i: nat)
    requires Shaped(batch, per) && i < |batch|
    ensures |Assembled(batch)| == At(|batch|, per) && At(i, per) + per <= |Assembled(batch)|
    ensures Assembled(batch)[At(i, per)..At(i, per) + per] == batch[i].src
  {
    hide At;
    var front := Front(batch);
    AssembledLength(front, per);
    AssembledLength(batch, per);
    AtWithin(i, |batch|, per);
    assert Last(batch) in batch;
    if i < |batch| - 1 {
      AssembledSlices(front, per, i);
      SliceOfLeft(Assembled(front), Last(batch).src, At(i, per), At(i, per) + per);
    } else {
      SliceOfRight(Assembled(front), Last(batch).src);
    }
  }

  lemma {:induction false} AssembledLength(batch: seq<Request>, per: nat)
    requires Shaped(batch, per)
    ensures |Assembled(batch)| == At(|batch|, per)
  {
    hide At;
    AtSteps(|batch|, per);
    if batch != [] {
      assert Last(batch) in batch;
      AssembledLength(Front(batch), per);
      AtSteps(|batch| - 1, per);
    }
  }

  /** Batching changes no answer. */
  lemma BatchedAsAlone(net: Net, batch: seq<Request>, i: nat)
    requires RowWise(net) && Shaped(batch, net.per) && i < |batch|
    ensures Answer(net, batch, net.run(Assembled(batch)), i) == Alone(net, batch[i])
  {
    hide At, Assembled, RowWise, Shaped, RowWiseOn;
    AssembledSlices(batch, net.per, i);
    AssembledLength(batch, net.per);
    OnBatch(net, |batch|, Assembled(batch), i);
  }

  lemma OnBatch(net: Net, n: nat, input: seq<real>, i: nat)
    requires RowWise(net) && |input| == At(n, net.per) && i < n
    ensures At(i, net.per) + net.per <= |input| && At(i, net.cells) + net.cells <= |net.run(input)|
    ensures net.run(input)[At(i, net.cells)..At(i, net.cells) + net.cells] ==
            net.one(input[At(i, net.per)..At(i, net.per) + net.per])
  {
    hide At;
    assert RowWiseOn(net, n, input);
    AtWithin(i, n, net.cells);
    AtWithin(i, n, net.per);
  }

  // ----- callers and dispatcher together -----

  /** Where the dispatcher is: waiting, lingering for more requests, with a batch taken, or answering it. */
  datatype Phase = Waiting | Lingering | Collected(batch: seq<Request>)
                 | Answering(batch: seq<Request>, out: seq<real>, k: nat) | Returned

  /** The engine, and the history: every request submitted, and every answer given, in order. */
  datatype Engine = Engine(queue: seq<Request>, stop: bool, phase: Phase, runs: nat, items: nat,
                           submitted: seq<Request>, answers: seq<seq<Box>>)

  datatype Setting = Setting(maxBatch: nat, lingers: bool)

  datatype Action = Submit(r: Request) | Stop | Wake | Collect | RunModel | AnswerNext

  const FRESH := Engine([], false, Waiting, 0, 0, [], [])

  /** As many waiting requests as fit. */
  function Batch(e: Engine, s: Setting): nat { Min(|e.queue|, s.maxBatch) }

  /** One step: a caller submits or stops, or the dispatcher goes on. Lingering may end at any time. */
  function Step(net: Net, s: Setting, e: Engine, a: Action): Engine {
    match a
    case Submit(r) =>
      if |r.src| == net.per then e.(queue := e.queue + [r], submitted := e.submitted + [r]) else e
    case Stop => e.(stop := true)
    case Wake =>
      if e.phase.Waiting? && e.stop && e.queue == [] then e.(phase := Returned)
      else if e.phase.Waiting? && e.queue != [] then
        if |e.queue| < s.maxBatch && s.lingers then e.(phase := Lingering) else CollectBatch(e, s)
      else e
    case Collect => if e.phase.Lingering? then CollectBatch(e, s) else e
    case RunModel =>
      if e.phase.Collected? then
        var batch := e.phase.batch;
        e.(phase := Answering(batch, net.run(Assembled(batch)), 0), runs := e.runs + 1, items := e.items + |batch|)
      else e
    case AnswerNext =>
      if !e.phase.Answering? then e
      else if e.phase.k < |e.phase.batch| then
        e.(phase := e.phase.(k := e.phase.k + 1),
           answers := e.answers + [Answer(net, e.phase.batch, e.phase.out, e.phase.k)])
      else e.(phase := Waiting)
  }

  /** An empty batch — a limit of 0 — makes the dispatcher go round again. */
  function CollectBatch(e: Engine, s: Setting): Engine {
    var n := Batch(e, s);
    e.(phase := if n == 0 then Waiting else Collected(e.queue[..n]), queue := e.queue[n..])
  }

  function Run(net: Net, s: Setting, actions: seq<Action>): Engine {
    if actions == [] then FRESH else Step(net, s, Run(net, s, Front(actions)), Last(actions))
  }

  /** The requests taken from the queue and not answered yet. */
  function Pending(e: Engine): seq<Request> {
    match e.phase
    case Collected(batch) => batch
    case Answering(batch, _, k) => batch[Min(k, |batch|)..]
    case _ => []
  }

  /** Of what was submitted the first n are answered, then come the pending and then the queued. */
  ghost predicate Accounted(submitted: seq<Request>, n: nat, pending: seq<Request>, queue: seq<Request>) {
    n <= |submitted| && submitted == submitted[..n] + pending + queue
  }

  ghost predicate AsAlone(net: Net, submitted: seq<Request>, answers: seq<seq<Box>>) {
    |answers| <= |submitted| && forall i | 0 <= i < |answers| :: answers[i] == Alone(net, submitted[i])
  }

  /** Everything submitted is answered, pending or queued, in that order, each once; every answer is what its request
      alone would get; batches have 1 to maxBatch rows; items counts the answers, those of a batch from its run on. */
  ghost predicate Sound(net: Net, s: Setting, e: Engine) {
    && Accounted(e.submitted, |e.answers|, Pending(e), e.queue) && AsAlone(net, e.submitted, e.answers)
    && Shaped(e.submitted, net.per)
    && e.items == |e.answers| + (if e.phase.Answering? then |Pending(e)| else 0)
    && (e.phase.Collected? || e.phase.Answering? ==> 1 <= |e.phase.batch| <= s.maxBatch)
    && (e.phase.Answering? ==> e.phase.k <= |e.phase.batch| && Shaped(e.phase.batch, net.per)
                               && e.phase.out == net.run(Assembled(e.phase.batch)))
    && (e.phase.Lingering? ==> e.queue != [])
    && (e.phase.Returned? ==> e.stop)
  }

  lemma CollectSound(net: Net, s: Setting, e: Engine)
    requires Sound(net, s, e) && e.queue != [] && (e.phase.Waiting? || e.phase.Lingering?)
    ensures Sound(net, s, CollectBatch(e, s))
  {
    hide Alone, Shaped;
    var n := Batch(e, s);
    assert e.queue == e.queue[..n] + e.queue[n..];
  }

  lemma AnswerSound(net: Net, s: Setting, e: Engine)
    requires RowWise(net) && Sound(net, s, e)
    ensures Sound(net, s, Step(net, s, e, AnswerNext))
  {
    hide RowWise, Alone, Answer, Shaped, Assembled, Accounted, AsAlone;
    if e.phase.Answering? && e.phase.k < |e.phase.batch| {
      var b, k := e.phase.batch, e.phase.k;
      BatchedAsAlone(net, b, k);
      assert b[k..][0] == b[k] && b[k..][1..] == b[k + 1..];
      OneAnswered(net, e.submitted, e.answers, b[k..], e.queue, Answer(net, b, e.phase.out, k));
    }
  }

  lemma OneAnswered(net: Net, submitted: seq<Request>, answers: seq<seq<Box>>, pending: seq<Request>, queue: seq<Request>,
                    answer: seq<Box>)
    requires Accounted(submitted, |answers|, pending, queue) && AsAlone(net, submitted, answers)
    requires pending != [] && answer == Alone(net, pending[0])
    ensures Accounted(submitted, |answers| + 1, pending[1..], queue) && AsAlone(net, submitted, answers + [answer])
  {
    hide Alone;
    var n := |answers|;
    assert submitted[n] == (submitted[..n] + pending + queue)[n];
    assert submitted[..n + 1] == submitted[..n] + [pending[0]];
  }

  lemma RunModelSound(net: Net, s: Setting, e: Engine)
    requires Sound(net, s, e)
    ensures Sound(net, s, Step(net, s, e, RunModel))
  {
    hide Alone, Assembled;
    if e.phase.Collected? {
      var b, n := e.phase.batch, |e.answers|;
      forall r | r in b ensures |r.src| == net.per { assert r in e.submitted[..n] + b + e.queue; }
      assert b[0..] == b;
    }
  }

  lemma SubmitSound(net: Net, s: Setting, e: Engine, r: Request)
    requires Sound(net, s, e)
    ensures Sound(net, s, Step(net, s, e, Submit(r)))
  {
    hide Alone, Assembled;
    if |r.src| == net.per {
      var more := e.submitted + [r];
      assert more[..|e.answers|] == e.submitted[..|e.answers|];
      assert Shaped(more, net.per);
    }
  }

  lemma StepSound(net: Net, s: Setting, e: Engine, a: Action)
    requires RowWise(net) && Sound(net, s, e)
    ensures Sound(net, s, Step(net, s, e, a))
  {
    hide RowWise, CollectBatch, Alone, Shaped, Assembled, Answer;
    match a
    case Submit(r) => SubmitSound(net, s, e, r);
    case Stop =>
    case Wake => if e.phase.Waiting? && e.queue != [] { CollectSound(net, s, e); }
    case Collect => if e.phase.Lingering? { CollectSound(net, s, e); }
    case RunModel => RunModelSound(net, s, e);
    case AnswerNext => AnswerSound(net, s, e);
  }

  lemma {:induction false} EveryRunSound(net: Net, s: Setting, actions: seq<Action>)
    requires RowWise(net)
    ensures Sound(net, s, Run(net, s, actions))
    decreases |actions|
  {
    hide Sound, Step, RowWise;
    if actions == [] {
      FreshSound(net, s);
    } else {
      EveryRunSound(net, s, Front(actions));
      StepSound(net, s, Run(net, s, Front(actions)), Last(actions));
    }
  }

  lemma FreshSound(net: Net, s: Setting)
    ensures Sound(net, s, FRESH)
  {}

  /** In every interleaving the answers go to the requests in the order they came, each at most once and as its request
      alone would get, and the count of items is theirs. */
  lemma AnswersAsIfAlone(net: Net, s: Setting, actions: seq<Action>)
    requires RowWise(net)
    ensures var e := Run(net, s, actions);
      && |e.answers| <= |e.submitted|
      && (forall i | 0 <= i < |e.answers| :: e.answers[i] ==
            if net.cells == 0 then [] else net.decode(net.one(e.submitted[i].src), e.submitted[i].params))
      && (!e.phase.Answering? ==> e.items == |e.answers|)
  {
    EveryRunSound(net, s, actions);
  }

  // ----- every request is answered -----

  /** A step of the dispatcher, not of a caller. */
  predicate Dispatches(a: Action) { a.Wake? || a.Collect? || a.RunModel? || a.AnswerNext? }

  function Steps(net: Net, s: Setting, e: Engine, actions: seq<Action>): Engine
    decreases |actions|
  {
    if actions == [] then e else Steps(net, s, Step(net, s, e, actions[0]), actions[1..])
  }

  /** The dispatcher's next step. */
  function NextStep(e: Engine): Action {
    match e.phase
    case Lingering => Collect
    case Collected(_) => RunModel
    case Answering(_, _, _) => AnswerNext
    case _ => Wake
  }

  /** How far it is from there to the next answer. */
  function Rank(e: Engine): nat {
    match e.phase
    case Waiting => 3
    case Lingering => 2
    case Collected(_) => 1
    case Answering(batch, _, k) => if k < |batch| then 0 else 4
    case Returned => 5
  }

  /** That step gives an answer or comes nearer to one. */
  lemma StepsNearer(net: Net, s: Setting, e: Engine)
    requires Sound(net, s, e) && s.maxBatch >= 1 && !e.phase.Returned? && |e.answers| < |e.submitted|
    ensures var d := Step(net, s, e, NextStep(e));
      && d.submitted == e.submitted && d.stop == e.stop && !d.phase.Returned?
      && (|d.answers| == |e.answers| + 1 || (d.answers == e.answers && Rank(d) < Rank(e)))
  {
    hide Answer, Alone, Shaped, AsAlone, Assembled;
  }

  /** Left to itself the dispatcher answers everything submitted, from any state in which it has not returned. */
  lemma {:induction false} Drains(net: Net, s: Setting, e: Engine) returns (actions: seq<Action>)
    requires RowWise(net) && Sound(net, s, e) && s.maxBatch >= 1 && !e.phase.Returned?
    ensures forall a | a in actions :: Dispatches(a)
    ensures var d := Steps(net, s, e, actions);
      && d.submitted == e.submitted && |d.answers| == |e.submitted| && Sound(net, s, d)
      && d.stop == e.stop && !d.phase.Returned?
    decreases |e.submitted| - |e.answers|, Rank(e)
  {
    hide Sound, Step, RowWise, Rank;
    AnsweredBound(net, s, e);
    if |e.answers| == |e.submitted| {
      actions := [];
    } else {
      var d := Step(net, s, e, NextStep(e));
      StepsNearer(net, s, e);
      StepSound(net, s, e, NextStep(e));
      AnsweredBound(net, s, d);
      var rest := Drains(net, s, d);
      actions := [NextStep(e)] + rest;
      assert actions[1..] == rest;
    }
  }

  lemma AnsweredBound(net: Net, s: Setting, e: Engine)
    requires Sound(net, s, e)
    ensures |e.answers| <= |e.submitted|
  {}

  /** In every run, what the callers have submitted can still be answered, each as if alone. */
  lemma EveryRequestAnswered(net: Net, s: Setting, actions: seq<Action>) returns (more: seq<Action>)
    requires RowWise(net) && s.maxBatch >= 1 && !Run(net, s, actions).phase.Returned?
    ensures forall a | a in more :: Dispatches(a)
    ensures var e := Run(net, s, actions); var d := Steps(net, s, e, more);
      |d.answers| == |e.submitted| && forall i | 0 <= i < |d.answers| :: d.answers[i] == Alone(net, e.submitted[i])
  {
    hide Run, Steps;
    EveryRunSound(net, s, actions);
    more := Drains(net, s, Run(net, s, actions));
  }

  lemma {:induction false} StepsConcat(net: Net, s: Setting, e: Engine, a: seq<Action>, b: seq<Action>)
    ensures Steps(net, s, e, a + b) == Steps(net, s, Steps(net, s, e, a), b)
    decreases |a|
  {
    hide Step;
    if a == [] {
      assert a + b == b;
    } else {
      StepsConcat(net, s, Step(net, s, e, a[0]), a[1..], b);
      assert (a + b)[0] == a[0] && (a + b)[1..] == a[1..] + b;
    }
  }

  /** The rest of a batch is answered one by one, and the dispatcher waits again. */
  lemma {:induction false} AnswersRest(net: Net, s: Setting, e: Engine) returns (actions: seq<Action>)
    requires RowWise(net) && Sound(net, s, e) && e.phase.Answering?
    ensures forall a | a in actions :: Dispatches(a)
    ensures var d := Steps(net, s, e, actions);
      && d.phase.Waiting? && Sound(net, s, d) && |d.answers| == |e.answers| + |e.phase.batch| - e.phase.k
      && d.queue == e.queue && d.runs == e.runs && d.submitted == e.submitted
    decreases |e.phase.batch| - e.phase.k
  {
    hide Sound, RowWise, Answer, Assembled;
    AtMostBatch(net, s, e);
    var d := Step(net, s, e, AnswerNext);
    StepSound(net, s, e, AnswerNext);
    if e.phase.k < |e.phase.batch| {
      var rest := AnswersRest(net, s, d);
      actions := [AnswerNext] + rest;
      assert actions[1..] == rest;
    } else {
      actions := [AnswerNext];
      assert Steps(net, s, d, []) == d;
    }
  }

  lemma AtMostBatch(net: Net, s: Setting, e: Engine)
    requires Sound(net, s, e) && e.phase.Answering?
    ensures e.phase.k <= |e.phase.batch|
  {}

  /** Collecting takes as many requests as wait and fit, from the front. */
  lemma TakesWhatFits(net: Net, s: Setting, e: Engine) returns (actions: seq<Action>)
    requires e.phase.Waiting? && e.queue != [] && s.maxBatch >= 1
    ensures forall a | a in actions :: Dispatches(a)
    ensures var n := if |e.queue| < s.maxBatch then |e.queue| else s.maxBatch;
      Steps(net, s, e, actions) == e.(phase := Collected(e.queue[..n]), queue := e.queue[n..])
  {
    if |e.queue| < s.maxBatch && s.lingers {
      actions := [Wake, Collect];
      assert actions[1..] == [Collect] && [Collect][1..] == [];
      var d := Step(net, s, e, Wake);
      assert Steps(net, s, d, [Collect]) == Step(net, s, d, Collect);
    } else {
      actions := [Wake];
    }
  }

  /** One turn of the loop: the requests that wait and fit are answered in one run of the model, and no more. */
  lemma OneTurn(net: Net, s: Setting, e: Engine) returns (actions: seq<Action>)
    requires RowWise(net) && Sound(net, s, e) && e.phase.Waiting? && e.queue != [] && s.maxBatch >= 1
    ensures forall a | a in actions :: Dispatches(a)
    ensures var d, n := Steps(net, s, e, actions), if |e.queue| < s.maxBatch then |e.queue| else s.maxBatch;
      && d.phase.Waiting? && Sound(net, s, d) && d.submitted == e.submitted
      && |d.answers| == |e.answers| + n && d.queue == e.queue[n..] && d.runs == e.runs + 1
  {
    hide Sound, RowWise, Steps, Assembled;
    var taking := TakesWhatFits(net, s, e);
    var c := Steps(net, s, e, taking);
    StepsSound(net, s, e, taking);
    var r := Step(net, s, c, RunModel);
    StepSound(net, s, c, RunModel);
    var rest := AnswersRest(net, s, r);
    RunFirst(net, s, c, rest);
    StepsConcat(net, s, e, taking, [RunModel] + rest);
    actions := taking + ([RunModel] + rest);
  }

  lemma RunFirst(net: Net, s: Setting, e: Engine, rest: seq<Action>)
    ensures Steps(net, s, e, [RunModel] + rest) == Steps(net, s, Step(net, s, e, RunModel), rest)
  {
    hide Step;
    assert ([RunModel] + rest)[1..] == rest;
  }

  lemma {:induction false} StepsSound(net: Net, s: Setting, e: Engine, actions: seq<Action>)
    requires RowWise(net) && Sound(net, s, e)
    ensures Sound(net, s, Steps(net, s, e, actions))
    decreases |actions|
  {
    hide Sound, RowWise, Step;
    if actions != [] {
      StepSound(net, s, e, actions[0]);
      StepsSound(net, s, Step(net, s, e, actions[0]), actions[1..]);
    }
  }

  /** Once stopped, the dispatcher left to itself returns, and not before everything submitted is answered. */
  lemma StopReturns(net: Net, s: Setting, e: Engine) returns (actions: seq<Action>)
    requires RowWise(net) && Sound(net, s, e) && s.maxBatch >= 1 && e.stop && !e.phase.Returned?
    ensures forall a | a in actions :: Dispatches(a)
    ensures var d := Steps(net, s, e, actions);
      && d.phase.Returned? && d.queue == [] && d.submitted == e.submitted && |d.answers| == |e.submitted|
      && forall i | 0 <= i < |d.answers| :: d.answers[i] == Alone(net, e.submitted[i])
  {
    hide Steps, RowWise, Step;
    var draining := Drains(net, s, e);
    var d := Steps(net, s, e, draining);
    var closing := Closes(net, s, d);
    StepsConcat(net, s, e, draining, closing);
    actions := draining + closing;
  }

  /** With everything answered, at most the end of a batch is left before the return. */
  lemma Closes(net: Net, s: Setting, d: Engine) returns (actions: seq<Action>)
    requires Sound(net, s, d) && d.stop && !d.phase.Returned? && |d.answers| == |d.submitted|
    ensures forall a | a in actions :: Dispatches(a)
    ensures Steps(net, s, d, actions) == d.(phase := Returned) && d.queue == []
  {
    hide Answer, Alone, Shaped, Assembled, AsAlone;
    if d.phase.Answering? {
      actions := [AnswerNext, Wake];
      assert actions[1..] == [Wake];
      var e := Step(net, s, d, AnswerNext);
      assert Steps(net, s, e, [Wake]) == Step(net, s, e, Wake);
    } else {
      actions := [Wake];
    }
  }

  /** With a limit of 0 nobody is ever answered. */
  lemma {:induction false} NoLimitNoAnswer(net: Net, s: Setting, actions: seq<Action>)
    requires s.maxBatch == 0
    ensures var e := Run(net, s, actions);
      e.answers == [] && e.queue == e.submitted && (e.phase.Waiting? || e.phase.Returned?)
    decreases |actions|
  {
    if actions != [] { NoLimitNoAnswer(net, s, Front(actions)); }
  }

  /** The dispatcher returns only after stop and with everything submitted so far answered. */
  lemma ReturnsDone(net: Net, s: Setting, actions: seq<Action>, a: Action)
    requires RowWise(net)
    requires !Run(net, s, actions).phase.Returned? && Run(net, s, actions + [a]).phase.Returned?
    ensures var e := Run(net, s, actions + [a]);
      e.stop && e.queue == [] && |e.answers| == |e.submitted|
  {
    hide RowWise;
    assert Front(actions + [a]) == actions;
    EveryRunSound(net, s, actions);
  }

  // ----- one turn of the dispatcher, in place -----

  class InferenceEngine {
    const maxBatch: nat
    var q: seq<Request>
    var stop: bool
    var runs: nat
    var items: nat

    constructor (maxBatch: nat)
      ensures this.maxBatch == maxBatch && q == [] && !stop && runs == items == 0
    {
      this.maxBatch := maxBatch;
      q, stop, runs, items := [], false, 0, 0;
    }

    /** infer, up to where the caller waits. */
    method Push(r: Request)
      modifies this`q
      ensures q == old(q) + [r]
    {
      q := q + [r];
    }

    /** The destructor's first step. */
    method RequestStop()
      modifies this`stop
      ensures stop
    {
      stop := true;
    }

    /** One turn, once its waits are over: return when stopped and drained, else take a batch from the front, run the
        model once on the tensors side by side, and answer each request from its rows. A limit of 0 takes nothing. */
    method Turn(net: Net) returns (returned: bool, answers: seq<seq<Box>>)
      requires (stop || q != []) && RowWise(net) && Shaped(q, net.per)
      modifies this`q, this`runs, this`items
      ensures returned <==> stop && old(q) == []
      ensures |answers| == Min(|old(q)|, maxBatch) && q == old(q)[|answers|..]
      ensures forall i | 0 <= i < |answers| :: answers[i] == Alone(net, old(q)[i])
      ensures items == old(items) + |answers| && runs == old(runs) + if answers == [] then 0 else 1
    {
      hide RowWise, Alone, Answer, Shaped, Assembled, At;
      answers := [];
      if stop && q == [] { return true, []; }
      var batch := [];
      ghost var was := q;
      while q != [] && |batch| < maxBatch
        invariant |batch| <= Min(|was|, maxBatch) && batch == was[..|batch|] && q == was[|batch|..]
        decreases |q|
        modifies this`q
      {
        batch, q := batch + [q[0]], q[1..];
      }
      returned := false;
      if batch == [] { return; }
      ShapedPrefix(was, |batch|, net.per);
      var input, i := [], 0;
      assert Assembled([]) == [] by { NoBatch(); }
      assert batch[..0] == [];
      while i < |batch|
        invariant 0 <= i <= |batch| && input == Assembled(batch[..i])
        modifies {}
      {
        AssembledNext(batch, i);
        input := input + batch[i].src;
        i := i + 1;
      }
      assert batch[..|batch|] == batch;
      var out := net.run(input);
      runs, items := runs + 1, items + |batch|;
      i := 0;
      while i < |batch|
        invariant 0 <= i <= |batch| && |answers| == i
        invariant forall m | 0 <= m < i :: answers[m] == Alone(net, batch[m])
        modifies {}
      {
        BatchedAsAlone(net, batch, i);
        answers := answers + [Answer(net, batch, out, i)];
        i := i + 1;
      }
    }
  }

  lemma NoBatch()
    ensures Assembled([]) == []
  {}

  lemma AssembledNext(batch: seq<Request>, i: nat)
    requires i < |batch|
    ensures Assembled(batch[..i + 1]) == Assembled(batch[..i]) + batch[i].src
  {
    assert Front(batch[..i + 1]) == batch[..i];
  }

  lemma ShapedPrefix(s: seq<Request>, n: nat, per: nat)
    requires Shaped(s, per) && n <= |s|
    ensures Shaped(s[..n], per)
  {}
}
