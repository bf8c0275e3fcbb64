/** Pipeline stages: each has a bounded queue that drops its oldest frame, and a thread that takes a frame, processes it
    and may forward it to the stage's children; all threads run at once. */
module StageRunners {
  import opened Common
  import opened PipelineLoaders

  type Frame = seq<byte>

  /** A frame on its way to the children, and the next child's turn. */
  datatype Sending = Sending(frame: Frame, next: nat)

  /** One stage. A busy stage has a frame in hand; its plugin may forward frames meanwhile, one after the other. The
      history records every frame delivered to the stage, every one its thread took, every one its plugin forwarded, and
      how many it has forwarded since it last took one. */
  datatype Stage = Stage(maxDepth: nat, queue: seq<Frame>, running: bool, dropped: nat, processed: nat,
                         hand: Option<Frame>, out: Option<Sending>, delivered: seq<Frame>, taken: seq<Frame>,
                         sent: seq<Frame>, forwarded: nat)

  /** A depth of 0 counts as 1. */
  function NewStage(depth: nat): Stage {
    Stage(if depth == 0 then 1 else depth, [], false, 0, 0, None, None, [], [], [], 0)
  }

  /** An empty frame is ignored; a full queue drops its oldest. */
  function Delivered(s: Stage, f: Frame): Stage {
    if f == [] then s
    else
      var full := |s.queue| >= s.maxDepth && s.queue != [];
      s.(queue := (if full then s.queue[1..] else s.queue) + [f], dropped := if full then s.dropped + 1 else s.dropped,
         delivered := s.delivered + [f])
  }

  /** The stage's thread takes the oldest frame, if it runs and is free. */
  function Taken(s: Stage): Stage {
    if s.running && s.hand.None? && s.queue != []
    then s.(queue := s.queue[1..], hand := Some(s.queue[0]), out := None, taken := s.taken + [s.queue[0]], forwarded := 0)
    else s
  }

  /** The plugin forwards a frame, its own or any other. */
  function Sends(s: Stage, f: Frame): Stage {
    s.(sent := s.sent + [f], forwarded := s.forwarded + 1)
  }

  /** The frame in hand is done, whether the plugin returned or threw. */
  function Finished(s: Stage): Stage {
    if s.hand.Some? then s.(hand := None, out := None, processed := s.processed + 1) else s
  }

  function InHand(s: Stage): nat { if s.hand.Some? then 1 else 0 }

  /** What one stage keeps: the queue is the newest part of what was delivered and no longer than allowed, what was
      taken came in order from the part before it, and every frame delivered is accounted for. */
  ghost predicate Kept(s: Stage) {
    && s.maxDepth >= 1 && |s.queue| <= s.maxDepth && |s.queue| <= |s.delivered|
    && s.queue == s.delivered[|s.delivered| - |s.queue|..]
    && Subsequence(s.taken, s.delivered[..|s.delivered| - |s.queue|])
    && |s.delivered| == s.processed + InHand(s) + s.dropped + |s.queue|
    && |s.taken| == s.processed + InHand(s)
    && (s.hand.Some? ==> s.taken != [] && Last(s.taken) == s.hand.value && s.hand.value != [])
    && (s.out.Some? ==> s.hand.Some? && s.sent != [] && Last(s.sent) == s.out.value.frame)
    && (forall f | f in s.delivered :: f != [])
  }

  lemma SubsequenceSnoc<T(!new)>(a: seq<T>, b: seq<T>, x: T)
    requires Subsequence(a, b)
    ensures Subsequence(a, b + [x]) && Subsequence(a + [x], b + [x])
  {
    assert Front(b + [x]) == b && Front(a + [x]) == a && Last(a + [x]) == Last(b + [x]);
  }

  lemma DeliveredKept(s: Stage, f: Frame)
    requires Kept(s)
    ensures Kept(Delivered(s, f))
    ensures f != [] ==> Last(Delivered(s, f).queue) == f && |Delivered(s, f).queue| == Min(|s.queue| + 1, s.maxDepth)
  {
    hide Subsequence;
    if f != [] {
      var s' := Delivered(s, f);
      var cut := |s.delivered| - |s.queue|;
      if |s.queue| >= s.maxDepth {
        assert s'.delivered[..cut + 1] == s.delivered[..cut] + [s.delivered[cut]];
        SubsequenceSnoc(s.taken, s.delivered[..cut], s.delivered[cut]);
        assert s'.queue == s'.delivered[cut + 1..];
      } else {
        assert s'.delivered[..cut] == s.delivered[..cut];
        assert s'.queue == s'.delivered[cut..];
      }
    }
  }

  /** The frame taken is among the last maxDepth delivered. */
  lemma TakenIsFresh(s: Stage)
    requires Kept(s) && Taken(s) != s
    ensures Kept(Taken(s))
    ensures Taken(s).hand.value in s.delivered[Max(0, |s.delivered| - s.maxDepth)..]
  {
    hide Subsequence;
    var cut := |s.delivered| - |s.queue|;
    assert s.queue[1..] == s.delivered[cut + 1..];
    assert s.queue[0] == s.delivered[cut] && s.delivered[cut] in s.delivered;
    assert s.delivered[..cut + 1] == s.delivered[..cut] + [s.delivered[cut]];
    SubsequenceSnoc(s.taken, s.delivered[..cut], s.delivered[cut]);
    var from := Max(0, |s.delivered| - s.maxDepth);
    assert s.delivered[from..][cut - from] == s.delivered[cut];
  }

  // ----- all stages -----

  /** Each stage's children; every child comes after its parent and has one parent that lists it once. */
  ghost predicate Wired(children: seq<seq<nat>>) {
    && (forall p, k | 0 <= p < |children| && 0 <= k < |children[p]| :: p < children[p][k] < |children|)
    && (forall p, k, q, j | 0 <= p < |children| && 0 <= k < |children[p]| && 0 <= q < |children| && 0 <= j < |children[q]| ::
          children[p][k] == children[q][j] ==> p == q && k == j)
  }

  /** A step of one thread. The source feeds stages nobody feeds; Return ends a forward. */
  datatype Action = Feed(s: nat, f: Frame) | Start(s: nat) | Stop(s: nat) | Take(s: nat) | Forward(s: nat, f: Frame)
                  | DeliverNext(s: nat) | Return(s: nat) | Finish(s: nat)

  ghost predicate IsChild(children: seq<seq<nat>>, s: nat) {
    exists p, k :: 0 <= p < |children| && 0 <= k < |children[p]| && children[p][k] == s
  }

  ghost function Step(children: seq<seq<nat>>, sys: seq<Stage>, a: Action): (next: seq<Stage>)
    requires Wired(children) && |sys| == |children|
    ensures |next| == |sys|
  {
    var s := a.s;
    if s >= |sys| then sys
    else
      var st := sys[s];
      match a
      case Feed(_, f) => if IsChild(children, s) then sys else sys[s := Delivered(st, f)]
      case Start(_) => sys[s := st.(running := true)]
      case Stop(_) => sys[s := st.(running := false)]
      case Take(_) => sys[s := Taken(st)]
      case Forward(_, f) =>
        if st.hand.Some? && st.out.None? then sys[s := Sends(st, f).(out := Some(Sending(f, 0)))] else sys
      case DeliverNext(_) =>
        if st.out.Some? && st.out.value.next < |children[s]| then
          var o := st.out.value;
          var c := children[s][o.next];
          sys[s := st.(out := Some(o.(next := o.next + 1)))][c := Delivered(sys[c], o.frame)]
        else sys
      case Return(_) =>
        if st.out.Some? && st.out.value.next >= |children[s]| then sys[s := st.(out := None)] else sys
      case Finish(_) =>
        if st.hand.Some? && st.out.None? then sys[s := Finished(st)] else sys
  }

  ghost function Run(children: seq<seq<nat>>, depths: seq<nat>, actions: seq<Action>): (sys: seq<Stage>)
    requires Wired(children) && |depths| == |children|
    ensures |sys| == |children|
    decreases |actions|
  {
    if actions == [] then seq(|depths|, i requires 0 <= i < |depths| => NewStage(depths[i]))
    else Step(children, Run(children, depths, Front(actions)), Last(actions))
  }

  /** What the parent has forwarded to its k-th child: everything, but for a frame on its way that has not come to it. */
  function Passed(p: Stage, k: nat): seq<Frame> {
    if p.out.Some? && p.sent != [] && p.out.value.next <= k then Front(p.sent) else p.sent
  }

  /** An empty frame is delivered to nobody. */
  function NonEmpty(fs: seq<Frame>): seq<Frame> {
    if fs == [] then [] else NonEmpty(Front(fs)) + if Last(fs) == [] then [] else [Last(fs)]
  }

  lemma NonEmptySnoc(fs: seq<Frame>, f: Frame)
    ensures NonEmpty(fs + [f]) == NonEmpty(fs) + if f == [] then [] else [f]
  {
    assert Front(fs + [f]) == fs;
  }

  lemma {:induction false} NonEmptySubsequence(fs: seq<Frame>)
    ensures Subsequence(NonEmpty(fs), fs)
  {
    if fs != [] {
      NonEmptySubsequence(Front(fs));
      SubsequenceSnoc(NonEmpty(Front(fs)), Front(fs), Last(fs));
      assert Front(fs) + [Last(fs)] == fs && NonEmpty(Front(fs)) + [] == NonEmpty(Front(fs));
    }
  }

  /** Every link passes every frame, in order: what was delivered to a child is what its parent has passed to it. */
  ghost predicate InOrder(children: seq<seq<nat>>, sys: seq<Stage>)
    requires Wired(children) && |sys| == |children|
  {
    forall p, k | 0 <= p < |children| && 0 <= k < |children[p]| ::
      sys[children[p][k]].delivered == NonEmpty(Passed(sys[p], k))
  }

  ghost predicate Fine(children: seq<seq<nat>>, sys: seq<Stage>)
    requires Wired(children) && |sys| == |children|
  {
    (forall s | 0 <= s < |sys| :: Kept(sys[s])) && InOrder(children, sys)
  }

  lemma FinishedStaysKept(s: Stage)
    requires Kept(s)
    ensures Kept(Finished(s))
  {
    hide Subsequence;
  }

  lemma SendsKept(s: Stage, f: Frame)
    requires Kept(s) && s.hand.Some?
    ensures Kept(Sends(s, f).(out := Some(Sending(f, 0))))
  {
    hide Subsequence;
  }

  /** As much is passed now as before. */
  ghost predicate Passes(was: Stage, now: Stage, k: nat) { Passed(was, k) == Passed(now, k) }

  /** A step that changes one stage, not what was delivered to it unless it is nobody's child, keeps everything. */
  lemma OneStageFine(children: seq<seq<nat>>, sys: seq<Stage>, s: nat, now: Stage)
    requires Wired(children) && |sys| == |children| && s < |sys| && Fine(children, sys)
    requires Kept(now) && (now.delivered == sys[s].delivered || !IsChild(children, s))
    requires forall k: nat | k < |children[s]| :: Passes(sys[s], now, k)
    ensures Fine(children, sys[s := now])
  {
    hide Kept, Passed, NonEmpty;
    var sys' := sys[s := now];
    forall p, k | 0 <= p < |children| && 0 <= k < |children[p]|
      ensures sys'[children[p][k]].delivered == NonEmpty(Passed(sys'[p], k))
    {
      assert sys[children[p][k]].delivered == NonEmpty(Passed(sys[p], k));
      assert sys'[children[p][k]].delivered == sys[children[p][k]].delivered;
      if p == s { assert Passes(sys[s], now, k); }
    }
  }

  lemma DeliverNextFine(children: seq<seq<nat>>, sys: seq<Stage>, s: nat)
    requires Wired(children) && |sys| == |children| && s < |sys| && Fine(children, sys)
    ensures Fine(children, Step(children, sys, DeliverNext(s)))
  {
    hide Kept, Subsequence;
    var st := sys[s];
    if st.out.Some? && st.out.value.next < |children[s]| {
      var o := st.out.value;
      var c := children[s][o.next];
      var sys' := Step(children, sys, DeliverNext(s));
      assert s < c;
      OutIsLast(st);
      DeliveredKept(sys[c], o.frame);
      NextKept(st, Some(o.(next := o.next + 1)));
      forall p, k | 0 <= p < |children| && 0 <= k < |children[p]|
        ensures sys'[children[p][k]].delivered == NonEmpty(Passed(sys'[p], k))
      {
        DeliverNextLink(children, sys, s, p, k);
      }
    }
  }

  /** What a delivery does to one link. */
  lemma DeliverNextLink(children: seq<seq<nat>>, sys: seq<Stage>, s: nat, p: nat, k: nat)
    requires Wired(children) && |sys| == |children| && s < |sys| && InOrder(children, sys)
    requires sys[s].out.Some? && sys[s].sent != [] && Last(sys[s].sent) == sys[s].out.value.frame
    requires sys[s].out.value.next < |children[s]| && p < |children| && k < |children[p]|
    ensures var sys' := Step(children, sys, DeliverNext(s));
      sys'[children[p][k]].delivered == NonEmpty(Passed(sys'[p], k))
  {
    hide NonEmpty;
    var st := sys[s];
    var sys', o := Step(children, sys, DeliverNext(s)), st.out.value;
    var c := children[s][o.next];
    assert sys[children[p][k]].delivered == NonEmpty(Passed(sys[p], k));
    assert Passed(sys'[c], k) == Passed(sys[c], k);
    if p == s && k == o.next {
      NonEmptySnoc(Front(st.sent), o.frame);
      assert Front(st.sent) + [Last(st.sent)] == st.sent && sys[c].delivered + [] == sys[c].delivered;
    }
  }

  lemma OutIsLast(s: Stage)
    requires Kept(s) && s.out.Some?
    ensures s.sent != [] && Last(s.sent) == s.out.value.frame
  {}

  lemma FreeSendsNothing(s: Stage)
    requires Kept(s) && s.hand.None?
    ensures s.out.None?
  {}

  lemma NextKept(s: Stage, out: Option<Sending>)
    requires Kept(s) && s.out.Some? && (out.Some? ==> out.value.frame == s.out.value.frame)
    ensures Kept(s.(out := out))
  {
    hide Subsequence;
  }

  lemma RunningKept(s: Stage, on: bool)
    requires Kept(s)
    ensures Kept(s.(running := on))
  {
    hide Subsequence;
  }

  lemma StepFine(children: seq<seq<nat>>, sys: seq<Stage>, a: Action)
    requires Wired(children) && |sys| == |children| && Fine(children, sys)
    ensures Fine(children, Step(children, sys, a))
  {
    hide Kept, Subsequence, Wired, IsChild, InOrder;
    var s := a.s;
    if s < |sys| {
      var st := sys[s];
      match a
      case Feed(_, f) =>
        DeliveredKept(st, f);
        if !IsChild(children, s) { OneStageFine(children, sys, s, Delivered(st, f)); }
      case Start(_) =>
        RunningKept(st, true);
        OneStageFine(children, sys, s, st.(running := true));
      case Stop(_) =>
        RunningKept(st, false);
        OneStageFine(children, sys, s, st.(running := false));
      case Take(_) =>
        if Taken(st) != st {
          TakenIsFresh(st);
          FreeSendsNothing(st);
          OneStageFine(children, sys, s, Taken(st));
        } else {
          assert sys[s := st] == sys;
        }
      case Forward(_, f) =>
        if st.hand.Some? && st.out.None? {
          SendsKept(st, f);
          assert Front(st.sent + [f]) == st.sent;
          OneStageFine(children, sys, s, Sends(st, f).(out := Some(Sending(f, 0))));
        }
      case DeliverNext(_) => DeliverNextFine(children, sys, s);
      case Return(_) =>
        if st.out.Some? && st.out.value.next >= |children[s]| {
          NextKept(st, None);
          OneStageFine(children, sys, s, st.(out := None));
        }
      case Finish(_) =>
        if st.hand.Some? && st.out.None? {
          FinishedStaysKept(st);
          OneStageFine(children, sys, s, Finished(st));
        }
    }
  }

  /** In every run of all the threads, every stage keeps its account and its order, and every link passes frames in
      order. */
  lemma {:induction false} EveryRunFine(children: seq<seq<nat>>, depths: seq<nat>, actions: seq<Action>)
    requires Wired(children) && |depths| == |children|
    ensures Fine(children, Run(children, depths, actions))
    decreases |actions|
  {
    hide Step, Fine;
    if actions == [] {
      InitFine(children, depths);
    } else {
      EveryRunFine(children, depths, Front(actions));
      StepFine(children, Run(children, depths, Front(actions)), Last(actions));
    }
  }

  lemma InitFine(children: seq<seq<nat>>, depths: seq<nat>)
    requires Wired(children) && |depths| == |children|
    ensures Fine(children, Run(children, depths, []))
  {}

  /** Every stage keeps the depth it was made with, at least 1. */
  lemma {:induction false} DepthStays(children: seq<seq<nat>>, depths: seq<nat>, actions: seq<Action>, i: nat)
    requires Wired(children) && |depths| == |children| && i < |depths|
    ensures Run(children, depths, actions)[i].maxDepth == Max(1, depths[i])
    decreases |actions|
  {
    hide Wired, IsChild;
    if actions != [] { DepthStays(children, depths, Front(actions), i); }
  }

  /** With nothing on its way every child has been delivered everything its parent forwarded, but empty frames. */
  lemma NothingOnItsWay(children: seq<seq<nat>>, depths: seq<nat>, actions: seq<Action>, p: nat, k: nat)
    requires Wired(children) && |depths| == |children| && p < |children| && k < |children[p]|
    requires Run(children, depths, actions)[p].out.None?
    ensures var sys := Run(children, depths, actions); sys[children[p][k]].delivered == NonEmpty(sys[p].sent)
  {
    hide Run, NonEmpty, Kept;
    EveryRunFine(children, depths, actions);
    var sys := Run(children, depths, actions);
    assert sys[children[p][k]].delivered == NonEmpty(Passed(sys[p], k));
  }

  /** A way down the tree. */
  ghost predicate Path(children: seq<seq<nat>>, path: seq<nat>) {
    && path != [] && (forall i | 0 <= i < |path| :: path[i] < |children|)
    && forall i | 0 < i < |path| :: path[i] in children[path[i - 1]]
  }

  /** A stage that passes frames through forwards some of what it takes, in order. */
  ghost predicate PassesThrough(s: Stage) { Subsequence(s.sent, s.taken) }

  /** Along any way down the tree whose stages, up to the last, pass frames through, what the last stage took is an
      ordered selection of what was delivered to the first: frames may be dropped, never swapped or made up. */
  lemma {:induction false} PathKeepsOrder(children: seq<seq<nat>>, depths: seq<nat>, actions: seq<Action>, path: seq<nat>)
    requires Wired(children) && |depths| == |children| && Path(children, path)
    requires forall i | 0 <= i < |path| - 1 :: PassesThrough(Run(children, depths, actions)[path[i]])
    ensures var sys := Run(children, depths, actions);
      Last(path) < |sys| && path[0] < |sys| && Subsequence(sys[Last(path)].taken, sys[path[0]].delivered)
    decreases |path|
  {
    hide Run, Subsequence, Wired;
    var sys := Run(children, depths, actions);
    EveryRunFine(children, depths, actions);
    var last := Last(path);
    TakenInOrder(sys[last]);
    if |path| > 1 {
      var p := path[|path| - 2];
      PathKeepsOrder(children, depths, actions, Front(path));
      LinkInOrder(children, sys, p, last);
      assert PassesThrough(sys[p]);
      SubsequenceTrans(sys[last].taken, sys[last].delivered, sys[p].sent);
      SubsequenceTrans(sys[last].taken, sys[p].sent, sys[p].taken);
      SubsequenceTrans(sys[last].taken, sys[p].taken, sys[path[0]].delivered);
    }
  }

  /** A plugin that forwards nothing but the frame in hand, unchanged and at most once. */
  ghost predicate PlainStep(sys: seq<Stage>, a: Action) {
    a.Forward? && a.s < |sys| && sys[a.s].hand.Some? && sys[a.s].out.None? ==>
      a.f == sys[a.s].hand.value && sys[a.s].forwarded == 0
  }

  ghost predicate Plain(children: seq<seq<nat>>, depths: seq<nat>, actions: seq<Action>)
    requires Wired(children) && |depths| == |children|
    decreases |actions|
  {
    actions == [] || (Plain(children, depths, Front(actions)) && PlainStep(Run(children, depths, Front(actions)), Last(actions)))
  }

  /** What such a stage has forwarded follows what it took, without the frame in hand if that is not forwarded yet. */
  ghost predicate Mirrors(s: Stage) {
    Subsequence(s.sent, if s.hand.Some? && s.forwarded == 0 && s.taken != [] then Front(s.taken) else s.taken)
  }

  /** If every plugin is such a one, every stage passes frames through. */
  lemma {:induction false} PlainPassesThrough(children: seq<seq<nat>>, depths: seq<nat>, actions: seq<Action>)
    requires Wired(children) && |depths| == |children| && Plain(children, depths, actions)
    ensures forall s | s in Run(children, depths, actions) :: Mirrors(s) && PassesThrough(s)
    decreases |actions|
  {
    hide Subsequence, Kept, Step, Wired, Fine;
    if actions == [] {
      NothingMirrors(children, depths);
    } else {
      var was, a := Run(children, depths, Front(actions)), Last(actions);
      PlainPassesThrough(children, depths, Front(actions));
      EveryRunFine(children, depths, Front(actions));
      MirrorStep(children, was, a);
      forall s | s in Step(children, was, a) ensures Mirrors(s) && PassesThrough(s) { MirrorsPass(s); }
    }
  }

  lemma NothingMirrors(children: seq<seq<nat>>, depths: seq<nat>)
    requires Wired(children) && |depths| == |children|
    ensures forall s | s in Run(children, depths, []) :: Mirrors(s) && PassesThrough(s)
  {}

  lemma MirrorsPass(s: Stage)
    requires Mirrors(s)
    ensures PassesThrough(s)
  {
    hide Subsequence;
    if s.taken != [] {
      SubsequenceSnoc([], [], Last(s.taken));
      if Subsequence(s.sent, Front(s.taken)) { SubsequenceSnoc(s.sent, Front(s.taken), Last(s.taken)); }
      assert Front(s.taken) + [Last(s.taken)] == s.taken;
    }
  }

  lemma MirrorStep(children: seq<seq<nat>>, sys: seq<Stage>, a: Action)
    requires Wired(children) && |sys| == |children| && Fine(children, sys) && PlainStep(sys, a)
    requires forall s | s in sys :: Mirrors(s)
    ensures forall s | s in Step(children, sys, a) :: Mirrors(s)
  {
    hide Subsequence, Kept, Wired, InOrder, IsChild;
    var s := a.s;
    if s < |sys| {
      var st := sys[s];
      assert st in sys && Kept(st);
      MirrorsPass(st);
      match a
      case Take(_) => TakeMirrors(st);
      case Forward(_, f) => if st.hand.Some? && st.out.None? { SendMirrors(st); }
      case DeliverNext(_) =>
        if st.out.Some? && st.out.value.next < |children[s]| {
          DeliverNextMirrors(children, sys, s);
        }
      case _ =>
    }
  }

  lemma DeliverNextMirrors(children: seq<seq<nat>>, sys: seq<Stage>, s: nat)
    requires Wired(children) && |sys| == |children| && s < |sys| && forall t | t in sys :: Mirrors(t)
    ensures forall t | t in Step(children, sys, DeliverNext(s)) :: Mirrors(t)
  {
    hide Subsequence, Kept;
    var sys' := Step(children, sys, DeliverNext(s));
    forall i | 0 <= i < |sys| ensures Mirrors(sys'[i]) {
      assert sys[i] in sys && Mirrors(sys[i]);
      assert sys'[i].sent == sys[i].sent && sys'[i].taken == sys[i].taken && sys'[i].hand == sys[i].hand;
    }
  }

  lemma TakeMirrors(s: Stage)
    requires Mirrors(s) && PassesThrough(s)
    ensures Mirrors(Taken(s))
  {
    hide Subsequence;
    if Taken(s) != s { assert Front(Taken(s).taken) == s.taken; }
  }

  lemma SendMirrors(s: Stage)
    requires Mirrors(s) && Kept(s) && s.hand.Some? && s.forwarded == 0
    ensures Mirrors(Sends(s, s.hand.value))
  {
    hide Subsequence;
    SubsequenceSnoc(s.sent, Front(s.taken), s.hand.value);
    assert Front(s.taken) + [Last(s.taken)] == s.taken;
  }

  lemma TakenInOrder(s: Stage)
    requires Kept(s)
    ensures Subsequence(s.taken, s.delivered)
  {
    hide Subsequence;
    var cut := |s.delivered| - |s.queue|;
    PrefixFirst(s.delivered, cut);
    SubsequenceTrans(s.taken, s.delivered[..cut], s.delivered);
  }

  lemma {:induction false} PrefixFirst<T(!new)>(s: seq<T>, n: nat)
    requires n <= |s|
    ensures Subsequence(s[..n], s)
    decreases |s| - n
  {
    if n == |s| {
      assert s[..n] == s;
      SubsequenceRefl(s);
    } else {
      PrefixFirst(Front(s), n);
      assert Front(s)[..n] == s[..n];
      if n > 0 { SubsequenceSnoc(s[..n], Front(s), Last(s)); assert s == Front(s) + [Last(s)]; }
    }
  }

  lemma LinkInOrder(children: seq<seq<nat>>, sys: seq<Stage>, p: nat, c: nat)
    requires Wired(children) && |sys| == |children| && Fine(children, sys) && p < |children| && c in children[p]
    ensures c < |sys| && Subsequence(sys[c].delivered, sys[p].sent)
  {
    hide Kept, Subsequence;
    var k :| 0 <= k < |children[p]| && children[p][k] == c;
    assert sys[children[p][k]].delivered == NonEmpty(Passed(sys[p], k));
    var t := sys[p].sent;
    NonEmptySubsequence(Passed(sys[p], k));
    if t != [] {
      PrefixFirst(t, |t| - 1);
      if Passed(sys[p], k) == Front(t) { SubsequenceTrans(sys[c].delivered, Front(t), t); }
    }
  }

  // ----- a turn of the loop is its steps -----

  ghost function Steps(children: seq<seq<nat>>, sys: seq<Stage>, actions: seq<Action>): (next: seq<Stage>)
    requires Wired(children) && |sys| == |children|
    ensures |next| == |sys|
    decreases |actions|
  {
    if actions == [] then sys else Steps(children, Step(children, sys, actions[0]), actions[1..])
  }

  lemma {:induction false} StepsConcat(children: seq<seq<nat>>, sys: seq<Stage>, a: seq<Action>, b: seq<Action>)
    requires Wired(children) && |sys| == |children|
    ensures Steps(children, sys, a + b) == Steps(children, Steps(children, sys, a), b)
    decreases |a|
  {
    hide Step, Wired;
    if a == [] {
      assert a + b == b;
    } else {
      StepsConcat(children, Step(children, sys, a[0]), a[1..], b);
      assert (a + b)[0] == a[0] && (a + b)[1..] == a[1..] + b;
    }
  }

  lemma OneStep(children: seq<seq<nat>>, sys: seq<Stage>, a: Action)
    requires Wired(children) && |sys| == |children|
    ensures Steps(children, sys, [a]) == Step(children, sys, a)
  {
    hide Step, Wired;
    assert [a][1..] == [];
  }

  /** The stages once s stands as `now` and its children from the k-th on were delivered f. */
  ghost predicate Given(children: seq<seq<nat>>, sys: seq<Stage>, s: nat, now: Stage, k: nat, f: Frame, next: seq<Stage>)
    requires |next| == |sys| == |children| && s < |sys| && k <= |children[s]|
  {
    && next[s] == now
    && forall i | 0 <= i < |sys| && i != s :: next[i] == if i in children[s][k..] then Delivered(sys[i], f) else sys[i]
  }

  lemma {:induction false} DeliverRest(children: seq<seq<nat>>, sys: seq<Stage>, s: nat, f: Frame, k: nat)
    returns (actions: seq<Action>)
    requires Wired(children) && |sys| == |children| && s < |sys| && k <= |children[s]| && sys[s].out == Some(Sending(f, k))
    ensures Given(children, sys, s, sys[s].(out := None), k, f, Steps(children, sys, actions))
    decreases |children[s]| - k
  {
    hide Delivered, Steps;
    if k == |children[s]| {
      actions := [Return(s)];
      OneStep(children, sys, Return(s));
    } else {
      var d := Step(children, sys, DeliverNext(s));
      var c := children[s][k];
      assert d[s] == sys[s].(out := Some(Sending(f, k + 1)));
      var rest := DeliverRest(children, d, s, f, k + 1);
      actions := [DeliverNext(s)] + rest;
      OneStep(children, sys, DeliverNext(s));
      StepsConcat(children, sys, [DeliverNext(s)], rest);
      GivenOneMore(children, sys, s, f, k, Steps(children, sys, actions));
    }
  }

  lemma GivenOneMore(children: seq<seq<nat>>, sys: seq<Stage>, s: nat, f: Frame, k: nat, next: seq<Stage>)
    requires Wired(children) && |next| == |sys| == |children| && s < |sys| && k < |children[s]| && sys[s].out == Some(Sending(f, k))
    requires Given(children, Step(children, sys, DeliverNext(s)), s, sys[s].(out := None), k + 1, f, next)
    ensures Given(children, sys, s, sys[s].(out := None), k, f, next)
  {
    hide Delivered;
    var c, kids := children[s][k], children[s];
    assert kids[k..] == [c] + kids[k + 1..];
    assert c !in kids[k + 1..];
    forall i | 0 <= i < |sys| && i != s ensures next[i] == if i in kids[k..] then Delivered(sys[i], f) else sys[i] {
      assert i in kids[k..] <==> i == c || i in kids[k + 1..];
    }
  }

  /** Forwarding a frame, step by step, delivers it to every child once and to nobody else. */
  lemma ForwardIsItsSteps(children: seq<seq<nat>>, sys: seq<Stage>, s: nat, f: Frame) returns (actions: seq<Action>)
    requires Wired(children) && |sys| == |children| && s < |sys| && sys[s].hand.Some? && sys[s].out.None?
    ensures Given(children, sys, s, Sends(sys[s], f), 0, f, Steps(children, sys, actions))
  {
    hide Delivered, Wired, Steps;
    var d := Step(children, sys, Forward(s, f));
    var rest := DeliverRest(children, d, s, f, 0);
    actions := [Forward(s, f)] + rest;
    OneStep(children, sys, Forward(s, f));
    StepsConcat(children, sys, [Forward(s, f)], rest);
  }

  /** A stage and its children after some forwards, nobody else touched. */
  ghost predicate AllGiven(children: seq<seq<nat>>, sys: seq<Stage>, s: nat, now: Stage, fs: seq<Frame>, next: seq<Stage>)
    requires |next| == |sys| == |children| && s < |sys|
  {
    && next[s] == now
    && forall i | 0 <= i < |sys| && i != s :: next[i] == if i in children[s] then DeliveredAll(sys[i], fs) else sys[i]
  }

  lemma {:induction false} ForwardsAreTheirSteps(children: seq<seq<nat>>, sys: seq<Stage>, s: nat, fs: seq<Frame>)
    returns (actions: seq<Action>)
    requires Wired(children) && |sys| == |children| && s < |sys| && sys[s].hand.Some? && sys[s].out.None?
    ensures AllGiven(children, sys, s, SendsAll(sys[s], fs), fs, Steps(children, sys, actions))
    decreases |fs|
  {
    hide Delivered, Wired, Steps, Step;
    if fs == [] {
      actions := [];
      NoForwards();
      NoSteps(children, sys);
    } else {
      var before := ForwardsAreTheirSteps(children, sys, s, Front(fs));
      var d := Steps(children, sys, before);
      SendsKeepHand(sys[s], Front(fs));
      var last := ForwardIsItsSteps(children, d, s, Last(fs));
      StepsConcat(children, sys, before, last);
      actions := before + last;
      assert children[s][0..] == children[s];
    }
  }

  lemma NoSteps(children: seq<seq<nat>>, sys: seq<Stage>)
    requires Wired(children) && |sys| == |children|
    ensures Steps(children, sys, []) == sys
  {}

  /** One turn of the thread's loop, as its method states it, is such a run of single steps. */
  lemma TurnIsItsSteps(children: seq<seq<nat>>, sys: seq<Stage>, s: nat, fs: seq<Frame>) returns (actions: seq<Action>)
    requires Wired(children) && |sys| == |children| && s < |sys|
    requires sys[s].running && sys[s].queue != [] && sys[s].hand.None? && sys[s].out.None?
    ensures AllGiven(children, sys, s, Finished(SendsAll(Taken(sys[s]), fs)), fs, Steps(children, sys, actions))
  {
    hide Delivered, Wired, Steps, DeliveredAll, SendsAll;
    var d := Step(children, sys, Take(s));
    OneStep(children, sys, Take(s));
    var forwards := ForwardsAreTheirSteps(children, d, s, fs);
    var e := Steps(children, d, forwards);
    SendsKeepHand(Taken(sys[s]), fs);
    OneStep(children, e, Finish(s));
    StepsConcat(children, d, forwards, [Finish(s)]);
    StepsConcat(children, sys, [Take(s)], forwards + [Finish(s)]);
    actions := [Take(s)] + (forwards + [Finish(s)]);
  }

  /** A stage runs from its start to its stop, and takes nothing while it does not run. */
  lemma RunsBetween(children: seq<seq<nat>>, sys: seq<Stage>, s: nat)
    requires Wired(children) && |sys| == |children| && s < |sys|
    ensures Step(children, sys, Start(s))[s] == sys[s].(running := true)
    ensures var d := Step(children, sys, Stop(s)); d[s] == sys[s].(running := false) && Step(children, d, Take(s)) == d
  {
    hide Wired;
  }

  // ----- the loaded pipeline is such a tree -----

  function ChildrenOf(nodes: seq<Node>): (children: seq<seq<nat>>)
    ensures |children| == |nodes| && forall i | 0 <= i < |nodes| :: children[i] == nodes[i].children
  {
    seq(|nodes|, i requires 0 <= i < |nodes| => nodes[i].children)
  }

  lemma CountAtLeastOne(s: seq<nat>, k: nat)
    requires k < |s|
    ensures Count(s, s[k]) >= 1
  {
    assert s[k] in multiset(s);
  }

  /** A value counted once stands in one place. */
  lemma OnePlace(s: seq<nat>, k: nat, j: nat)
    requires k < j < |s| && Count(s, s[k]) <= 1
    ensures s[k] != s[j]
  {
    hide Count;
    assert s == s[..j] + s[j..];
    CountConcat(s[..j], s[j..], s[k]);
    CountAtLeastOne(s[..j], k);
    CountAtLeastOne(s[j..], 0);
  }

  lemma {:induction false} LinkCounted(nodes: seq<Node>, p: nat, k: nat)
    requires p < |nodes| && k < |nodes[p].children|
    ensures Count(Links(nodes), nodes[p].children[k]) >= 1
    decreases |nodes|
  {
    hide Count;
    var x, last := nodes[p].children[k], Last(nodes);
    CountConcat(Links(Front(nodes)), last.children, x);
    if p == |nodes| - 1 { CountAtLeastOne(last.children, k); } else { LinkCounted(Front(nodes), p, k); }
  }

  /** A node that is linked to at most once has one parent, listing it once. */
  lemma {:induction false} OneParent(nodes: seq<Node>, p: nat, k: nat, q: nat, j: nat)
    requires p < |nodes| && k < |nodes[p].children| && q < |nodes| && j < |nodes[q].children|
    requires nodes[p].children[k] == nodes[q].children[j] && Count(Links(nodes), nodes[p].children[k]) <= 1
    ensures p == q && k == j
    decreases |nodes|
  {
    hide Count;
    var x, front, last := nodes[p].children[k], Front(nodes), Last(nodes);
    CountConcat(Links(front), last.children, x);
    if p < |nodes| - 1 { LinkCounted(front, p, k); } else { CountAtLeastOne(last.children, k); }
    if q < |nodes| - 1 { LinkCounted(front, q, j); } else { CountAtLeastOne(last.children, j); }
    if p < |nodes| - 1 && q < |nodes| - 1 {
      OneParent(front, p, k, q, j);
    } else if k < j {
      OnePlace(last.children, k, j);
    } else if j < k {
      OnePlace(last.children, j, k);
    }
  }

  /** Whatever document is loaded, its stages form the tree the runs above are about. */
  lemma LoadedIsWired(ts: seq<Tree>)
    ensures Wired(ChildrenOf(Chained(Flatten(ts, 0))))
  {
    hide Flatten, Roots, Meant, Chained, Links, Count;
    LoadedIsMeant(ts);
    var us := Meant(ts);
    var nodes := Flatten(us, 0);
    FlattenDownward(us, 0);
    forall p, k | 0 <= p < |nodes| && 0 <= k < |nodes[p].children| ensures p < nodes[p].children[k] < |nodes| {
      assert nodes[p].children[k] in nodes[p].children;
    }
    forall p, k, q, j | 0 <= p < |nodes| && 0 <= k < |nodes[p].children| && 0 <= q < |nodes| && 0 <= j < |nodes[q].children|
                        && nodes[p].children[k] == nodes[q].children[j]
      ensures p == q && k == j
    {
      EachIndexOnce(us, 0, nodes[p].children[k]);
      OneParent(nodes, p, k, q, j);
    }
  }

  // ----- the stage in place -----

  class StageRunner {
    const maxDepth: nat
    var children: seq<StageRunner?>
    var queue: seq<Frame>
    var running: bool
    var dropped: nat
    var processed: nat
    ghost var hand: Option<Frame>
    ghost var out: Option<Sending>
    ghost var delivered: seq<Frame>
    ghost var taken: seq<Frame>
    ghost var sent: seq<Frame>
    ghost var forwarded: nat

    ghost function At(): Stage
      reads this
    {
      Stage(maxDepth, queue, running, dropped, processed, hand, out, delivered, taken, sent, forwarded)
    }

    constructor (depth: nat)
      ensures At() == NewStage(depth) && children == []
    {
      maxDepth := if depth == 0 then 1 else depth;
      children, queue, running, dropped, processed := [], [], false, 0, 0;
      hand, out, delivered, taken, sent, forwarded := None, None, [], [], [], 0;
    }

    /** Enqueue a copy, dropping the oldest frame of a full queue. */
    method Deliver(buf: Frame)
      requires maxDepth >= 1
      modifies this
      ensures At() == Delivered(old(At()), buf) && children == old(children)
    {
      if buf == [] { return; }
      if |queue| >= maxDepth {
        queue := queue[1..];
        dropped := dropped + 1;
      }
      queue := queue + [buf];
      delivered := delivered + [buf];
    }

    /** Deliver to every child that is there. */
    method ForwardToChildren(buf: Frame)
      requires forall i, j | 0 <= i < j < |children| && children[i] != null :: children[i] != children[j]
      requires forall c | c in children && c != null :: c != this && c.maxDepth >= 1
      modifies set c | c in children && c != null
      ensures forall c | c in children && c != null :: c.At() == Delivered(old(c.At()), buf)
    {
      var i := 0;
      while i < |children|
        invariant 0 <= i <= |children| && children == old(children)
        invariant forall m | 0 <= m < |children| && children[m] != null ::
            children[m].At() == if m < i then Delivered(old(children[m].At()), buf) else old(children[m].At())
      {
        var child := children[i];
        if child != null { child.Deliver(buf); }
        i := i + 1;
      }
    }

    /** The locked part of the thread's loop, once its wait is over: nothing when the stage was stopped. */
    method TakeOne() returns (item: Option<Frame>)
      requires hand.None? && (queue != [] || !running)
      modifies this
      ensures At() == Taken(old(At())) && children == old(children)
      ensures item.None? <==> !running
      ensures item.Some? ==> old(queue) != [] && item == Some(old(queue[0])) == hand
    {
      if !running { return None; }
      item := Some(queue[0]);
      queue := queue[1..];
      hand, out, taken, forwarded := item, None, taken + [item.value], 0;
    }

    /** One turn of the thread's loop: take a frame, let the plugin handle it — forwarding whatever frames it likes,
        returning or throwing — and count it. */
    method Turn(forwards: seq<Frame>) returns (on: bool)
      requires hand.None? && (queue != [] || !running)
      requires forall i, j | 0 <= i < j < |children| && children[i] != null :: children[i] != children[j]
      requires forall c | c in children && c != null :: c != this && c.maxDepth >= 1
      modifies this, set c | c in children && c != null
      ensures on == running && At() == if on then Finished(SendsAll(Taken(old(At())), forwards)) else old(At())
      ensures forall c | c in old(children) && c != null ::
          c.At() == if on then DeliveredAll(old(c.At()), forwards) else old(c.At())
    {
      hide DeliveredAll, SendsAll, Delivered;
      NoForwards();
      var item := TakeOne();
      if item.None? { return false; }
      ghost var held := At();
      var i := 0;
      while i < |forwards|
        invariant 0 <= i <= |forwards| && children == old(children) && At() == SendsAll(held, forwards[..i])
        invariant forall c | c in children && c != null :: c.At() == DeliveredAll(old(c.At()), forwards[..i])
      {
        assert forwards[..i + 1] == forwards[..i] + [forwards[i]];
        SendsSnoc(held, forwards[..i], forwards[i]);
        DeliveredSnoc(forwards[..i], forwards[i]);
        ForwardToChildren(forwards[i]);
        sent, forwarded := sent + [forwards[i]], forwarded + 1;
        i := i + 1;
      }
      assert forwards[..|forwards|] == forwards;
      SendsKeepHand(held, forwards);
      hand, out := None, None;
      processed := processed + 1;
      return true;
    }
  }

  function DeliveredAll(s: Stage, fs: seq<Frame>): Stage {
    if fs == [] then s else Delivered(DeliveredAll(s, Front(fs)), Last(fs))
  }

  function SendsAll(s: Stage, fs: seq<Frame>): Stage {
    if fs == [] then s else Sends(SendsAll(s, Front(fs)), Last(fs))
  }

  lemma SendsSnoc(s: Stage, fs: seq<Frame>, f: Frame)
    ensures SendsAll(s, fs + [f]) == Sends(SendsAll(s, fs), f)
  {
    assert Front(fs + [f]) == fs;
  }

  lemma DeliveredSnoc(fs: seq<Frame>, f: Frame)
    ensures forall s: Stage :: DeliveredAll(s, fs + [f]) == Delivered(DeliveredAll(s, fs), f)
  {
    hide Delivered;
    assert Front(fs + [f]) == fs;
  }

  lemma NoForwards()
    ensures forall s: Stage :: DeliveredAll(s, []) == s && SendsAll(s, []) == s
  {}

  lemma {:induction false} SendsKeepHand(s: Stage, fs: seq<Frame>)
    ensures SendsAll(s, fs) == s.(sent := s.sent + fs, forwarded := s.forwarded + |fs|)
  {
    if fs == [] {
      assert s.sent + fs == s.sent;
    } else {
      SendsKeepHand(s, Front(fs));
      assert s.sent + Front(fs) + [Last(fs)] == s.sent + fs;
    }
  }
}
