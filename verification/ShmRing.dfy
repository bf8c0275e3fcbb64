/** The shared-memory ring: push and pop as the single loads, copies and stores they are made of, interleaved in
    any way by one producer and one consumer, either of which may see the other's index late. */
module ShmRings {
  import opened Common

  /** Where the producer is inside push, with its locals. */
  datatype Producer =
    | PIdle
    | PAsked(data: seq<byte>)                               // the size was checked
    | PSawHead(data: seq<byte>, head: nat)                  // head.load
    | PClaimed(data: seq<byte>, tail: nat, next: nat)       // tail.load, and not full
    | PCopying(data: seq<byte>, tail: nat, next: nat, k: nat)  // slotSizes[tail] stored, k bytes copied

  /** Where the consumer is inside pop. */
  datatype Consumer =
    | CIdle
    | CAsked(head: nat)                                     // head.load
    | CWaiting(head: nat)                                   // tail.load gave head
    | CFound(head: nat)                                     // tail.load gave something else
    | CCopying(head: nat, size: nat, out: seq<byte>)        // slotSizes[head] read, |out| bytes copied

  /** The shared words, each side's place, and the history: what was pushed and popped, and the newest value of
      the other side's index (counted without wrapping) each side has seen. */
  datatype Ring = Ring(head: nat, tail: nat, sizes: seq<nat>, slots: seq<seq<byte>>, cancelled: bool,
                       producer: Producer, consumer: Consumer,
                       pushed: seq<seq<byte>>, popped: seq<seq<byte>>, seenHead: nat, seenTail: nat)

  /** One atomic step of one side. Loads of the other side's index may be late: they give the value it had after
      `count` pops or pushes, as long as this side has not already seen a newer one. */
  datatype Action =
    | AskPush(data: seq<byte>) | LoadHead(count: nat) | LoadOwnTail | StoreSize | CopyIn | Publish
    | AskPop | LoadTail(count: nat) | CheckCancelled | ReadSize | CopyOut | Release
    | Cancel

  /** The slot of the i-th record: i modulo the slot count. */
  function Slot(i: nat, n: nat): (s: nat)
    requires n > 0
    ensures s < n
  {
    if i == 0 then 0 else (Slot(i - 1, n) + 1) % n
  }

  lemma {:induction false} SlotForward(i: nat, d: nat, n: nat)
    requires n > 0 && d < n
    ensures Slot(i + d, n) == if Slot(i, n) + d < n then Slot(i, n) + d else Slot(i, n) + d - n
  {
    if d > 0 { SlotForward(i, d - 1, n); Next(Slot(i + d - 1, n), n); }
  }

  lemma Next(s: nat, n: nat)
    requires s < n
    ensures (s + 1) % n == if s + 1 < n then s + 1 else 0
  {}

  /** Fewer than n apart, different records have different slots. */
  lemma SlotsDiffer(i: nat, j: nat, n: nat)
    requires n > 0 && i < j < i + n
    ensures Slot(i, n) != Slot(j, n)
  {
    SlotForward(i, j - i, n);
  }

  function Init(n: nat, slotSize: nat): Ring {
    Ring(0, 0, seq(n, i => 0), seq(n, i => seq(slotSize, j => 0)), false, PIdle, CIdle, [], [], 0, 0)
  }

  /** A step that is not this side's next one does nothing. */
  function Step(r: Ring, n: nat, slotSize: nat, a: Action): Ring
    requires n > 0
  {
    match a
    case AskPush(data) =>
      if r.producer.PIdle? && |data| <= slotSize then r.(producer := PAsked(data)) else r
    case LoadHead(count) =>
      if r.producer.PAsked? && r.seenHead <= count <= |r.popped|
      then r.(producer := PSawHead(r.producer.data, Slot(count, n)), seenHead := count) else r
    case LoadOwnTail =>
      if !r.producer.PSawHead? then r
      else
        var next := (r.tail + 1) % n;
        r.(producer := if next == r.producer.head then PIdle else PClaimed(r.producer.data, r.tail, next))
    case StoreSize =>
      if r.producer.PClaimed? && r.producer.tail < |r.sizes|
      then r.(sizes := r.sizes[r.producer.tail := |r.producer.data|],
              producer := PCopying(r.producer.data, r.producer.tail, r.producer.next, 0)) else r
    case CopyIn =>
      if r.producer.PCopying? && r.producer.k < |r.producer.data| && r.producer.tail < |r.slots|
         && r.producer.k < |r.slots[r.producer.tail]|
      then var p := r.producer;
           r.(slots := r.slots[p.tail := r.slots[p.tail][p.k := p.data[p.k]]], producer := p.(k := p.k + 1)) else r
    case Publish =>
      if r.producer.PCopying? && r.producer.k == |r.producer.data|
      then r.(tail := r.producer.next, producer := PIdle, pushed := r.pushed + [r.producer.data]) else r
    case AskPop => if r.consumer.CIdle? then r.(consumer := CAsked(r.head)) else r
    case LoadTail(count) =>
      if (r.consumer.CAsked? || r.consumer.CWaiting?) && r.seenTail <= count <= |r.pushed|
      then r.(consumer := if r.consumer.head == Slot(count, n) then CWaiting(r.consumer.head) else CFound(r.consumer.head),
              seenTail := count) else r
    case CheckCancelled => if r.consumer.CWaiting? && r.cancelled then r.(consumer := CIdle) else r
    case ReadSize =>
      if r.consumer.CFound? && r.consumer.head < |r.sizes|
      then r.(consumer := CCopying(r.consumer.head, r.sizes[r.consumer.head], [])) else r
    case CopyOut =>
      if r.consumer.CCopying? && |r.consumer.out| < r.consumer.size && r.consumer.head < |r.slots|
         && |r.consumer.out| < |r.slots[r.consumer.head]|
      then var c := r.consumer;
           r.(consumer := c.(out := c.out + [r.slots[c.head][|c.out|]])) else r
    case Release =>
      if r.consumer.CCopying? && |r.consumer.out| == r.consumer.size
      then r.(head := (r.consumer.head + 1) % n, consumer := CIdle, popped := r.popped + [r.consumer.out]) else r
    case Cancel => r.(cancelled := true)
  }

  function Run(n: nat, slotSize: nat, actions: seq<Action>): Ring
    requires n > 0
  {
    if actions == [] then Init(n, slotSize) else Step(Run(n, slotSize, Front(actions)), n, slotSize, Last(actions))
  }

  /** Slot i holds this record. */
  ghost predicate Holds(sizes: seq<nat>, slots: seq<seq<byte>>, i: nat, data: seq<byte>) {
    i < |sizes| && i < |slots| && sizes[i] == |data| <= |slots[i]| && slots[i][..|data|] == data
  }

  ghost predicate IndicesOk(r: Ring, n: nat)
    requires n > 0
  {
    var h, t := |r.popped|, |r.pushed|;
    && r.head == Slot(h, n) && r.tail == Slot(t, n)
    && h <= t <= h + n - 1 && t <= r.seenHead + n - 1
    && r.seenHead <= h && h <= r.seenTail <= t
  }

  /** Everything pushed and not yet popped is in its slot. */
  ghost predicate ContentsOk(r: Ring, n: nat)
    requires n > 0
  {
    && r.popped == r.pushed[..Min(|r.popped|, |r.pushed|)]
    && (forall i | |r.popped| <= i < |r.pushed| :: Holds(r.sizes, r.slots, Slot(i, n), r.pushed[i]))
  }

  /** What the producer has claimed is beyond everything the consumer may still read. */
  ghost predicate ProducerOk(r: Ring, n: nat, slotSize: nat)
    requires n > 0
  {
    var t := |r.pushed|;
    match r.producer
    case PIdle => true
    case PAsked(data) => |data| <= slotSize
    case PSawHead(data, head) => |data| <= slotSize && head == Slot(r.seenHead, n)
    case PClaimed(data, tail, next) =>
      |data| <= slotSize && tail == Slot(t, n) && next == Slot(t + 1, n) && t + 1 < r.seenHead + n
    case PCopying(data, tail, next, k) =>
      |data| <= slotSize && tail == Slot(t, n) && next == Slot(t + 1, n) && t + 1 < r.seenHead + n
      && k <= |data| && tail < |r.sizes| && r.sizes[tail] == |data|
      && tail < |r.slots| && k <= |r.slots[tail]| && r.slots[tail][..k] == data[..k]
  }

  ghost predicate ConsumerOk(r: Ring, n: nat)
    requires n > 0
  {
    var h := |r.popped|;
    match r.consumer
    case CIdle => true
    case CAsked(head) => head == Slot(h, n)
    case CWaiting(head) => head == Slot(h, n)
    case CFound(head) => head == Slot(h, n) && h < r.seenTail
    case CCopying(head, size, out) =>
      head == Slot(h, n) && h < r.seenTail <= |r.pushed| && size == |r.pushed[h]| && |out| <= size && out == r.pushed[h][..|out|]
  }

  ghost predicate Sound(r: Ring, n: nat, slotSize: nat)
    requires n > 0
  {
    && |r.sizes| == n && |r.slots| == n && (forall s | s in r.slots :: |s| == slotSize)
    && IndicesOk(r, n) && ContentsOk(r, n) && ProducerOk(r, n, slotSize) && ConsumerOk(r, n)
  }

  // ----- every step keeps the ring sound -----

  lemma InitSound(n: nat, slotSize: nat)
    requires n > 0
    ensures Sound(Init(n, slotSize), n, slotSize)
  {}

  /** The producer's slot holds no record the consumer may read. */
  lemma ClaimedIsFree(r: Ring, n: nat, slotSize: nat, i: nat)
    requires n > 0 && Sound(r, n, slotSize) && (r.producer.PClaimed? || r.producer.PCopying?)
    requires |r.popped| <= i < |r.pushed|
    ensures Slot(i, n) != r.producer.tail
  {
    SlotsDiffer(i, |r.pushed|, n);
  }

  /** The producer never writes the slot being read: race freedom in every interleaving. */
  lemma SlotsNeverShared(r: Ring, n: nat, slotSize: nat)
    requires n > 0 && Sound(r, n, slotSize)
    requires (r.producer.PClaimed? || r.producer.PCopying?) && (r.consumer.CFound? || r.consumer.CCopying?)
    ensures r.producer.tail != r.consumer.head
  {
    ClaimedIsFree(r, n, slotSize, |r.popped|);
  }

  lemma ProducerStep(r: Ring, n: nat, slotSize: nat, a: Action)
    requires n > 0 && Sound(r, n, slotSize)
    requires a.AskPush? || a.LoadHead? || a.LoadOwnTail? || a.StoreSize? || a.CopyIn? || a.Publish?
    ensures Sound(Step(r, n, slotSize, a), n, slotSize)
  {
    var r' := Step(r, n, slotSize, a);
    match a
    case AskPush(_) =>
    case LoadHead(_) =>
    case LoadOwnTail => if r.producer.PSawHead? { NotFull(r, n); }
    case StoreSize => StoreSizeSound(r, n, slotSize);
    case CopyIn => CopyInSound(r, n, slotSize);
    case Publish => PublishSound(r, n, slotSize);
  }

  lemma StoreSizeSound(r: Ring, n: nat, slotSize: nat)
    requires n > 0 && Sound(r, n, slotSize)
    ensures Sound(Step(r, n, slotSize, StoreSize), n, slotSize)
  {
    if r.producer.PClaimed? {
      forall i | |r.popped| <= i < |r.pushed| ensures Slot(i, n) != r.producer.tail { ClaimedIsFree(r, n, slotSize, i); }
    }
  }

  lemma CopyInSound(r: Ring, n: nat, slotSize: nat)
    requires n > 0 && Sound(r, n, slotSize)
    ensures Sound(Step(r, n, slotSize, CopyIn), n, slotSize)
  {
    hide ContentsOk, Slot;
    CopyInContents(r, n, slotSize);
    var p, r' := r.producer, Step(r, n, slotSize, CopyIn);
    if p.PCopying? && p.k < |p.data| {
      assert r'.slots[p.tail][..p.k + 1] == r.slots[p.tail][..p.k] + [p.data[p.k]];
    }
  }

  lemma CopyInContents(r: Ring, n: nat, slotSize: nat)
    requires n > 0 && Sound(r, n, slotSize)
    ensures ContentsOk(Step(r, n, slotSize, CopyIn), n)
  {
    hide ConsumerOk, Slot;
    if r.producer.PCopying? {
      forall i | |r.popped| <= i < |r.pushed| ensures Slot(i, n) != r.producer.tail { ClaimedIsFree(r, n, slotSize, i); }
    }
  }

  lemma PublishSound(r: Ring, n: nat, slotSize: nat)
    requires n > 0 && Sound(r, n, slotSize)
    ensures Sound(Step(r, n, slotSize, Publish), n, slotSize)
  {
    hide ContentsOk, Slot;
    PublishContents(r, n, slotSize);
  }

  lemma PublishContents(r: Ring, n: nat, slotSize: nat)
    requires n > 0 && Sound(r, n, slotSize)
    ensures ContentsOk(Step(r, n, slotSize, Publish), n)
  {
    hide ConsumerOk, Slot;
    if r.producer.PCopying? && r.producer.k == |r.producer.data| {
      var r', p, t := Step(r, n, slotSize, Publish), r.producer, |r.pushed|;
      assert Holds(r'.sizes, r'.slots, Slot(t, n), p.data);
      forall i | |r.popped| <= i < t ensures Holds(r'.sizes, r'.slots, Slot(i, n), r'.pushed[i]) {
        assert r'.pushed[i] == r.pushed[i] && Holds(r.sizes, r.slots, Slot(i, n), r.pushed[i]);
      }
      assert r'.pushed[..|r.popped|] == r.pushed[..|r.popped|];
    }
  }

  /** The full test is right: the next slot is the head seen exactly when n - 1 records lie between. */
  lemma NotFull(r: Ring, n: nat)
    requires n > 0 && IndicesOk(r, n) && r.producer.PSawHead? && r.producer.head == Slot(r.seenHead, n)
    requires |r.pushed| <= r.seenHead + n - 1
    ensures (r.tail + 1) % n == Slot(|r.pushed| + 1, n)
    ensures (r.tail + 1) % n == r.producer.head <==> |r.pushed| == r.seenHead + n - 1
  {
    var t, seen := |r.pushed|, r.seenHead;
    if t + 1 < seen + n { SlotsDiffer(seen, t + 1, n); }
    else { SlotForward(seen, n - 1, n); Next(Slot(seen + n - 1, n), n); }
  }

  lemma ConsumerStep(r: Ring, n: nat, slotSize: nat, a: Action)
    requires n > 0 && Sound(r, n, slotSize)
    requires a.AskPop? || a.LoadTail? || a.CheckCancelled? || a.ReadSize? || a.CopyOut? || a.Release? || a.Cancel?
    ensures Sound(Step(r, n, slotSize, a), n, slotSize)
  {
    hide Holds, Slot, Sound, Step;
    match a
    case LoadTail(count) => LoadTailSound(r, n, slotSize, count);
    case ReadSize => ReadSizeSound(r, n, slotSize);
    case CopyOut => CopyOutSound(r, n, slotSize);
    case Release => ReleaseSound(r, n, slotSize);
    case _ => QuietSound(r, n, slotSize, a);
  }

  lemma LoadTailSound(r: Ring, n: nat, slotSize: nat, count: nat)
    requires n > 0 && Sound(r, n, slotSize)
    ensures Sound(Step(r, n, slotSize, LoadTail(count)), n, slotSize)
  {
    hide Holds, Slot;
    if r.seenTail <= count <= |r.pushed| { EmptyTest(r, n, slotSize, count); }
  }

  lemma QuietSound(r: Ring, n: nat, slotSize: nat, a: Action)
    requires n > 0 && Sound(r, n, slotSize) && (a.AskPop? || a.CheckCancelled? || a.Cancel?)
    ensures Sound(Step(r, n, slotSize, a), n, slotSize)
  {
    hide Holds, Slot;
  }

  /** The empty test is right: head equals the tail seen exactly when nothing lies between. */
  lemma EmptyTest(r: Ring, n: nat, slotSize: nat, count: nat)
    requires n > 0 && Sound(r, n, slotSize) && r.seenTail <= count <= |r.pushed|
    ensures Slot(|r.popped|, n) == Slot(count, n) <==> |r.popped| == count
  {
    if |r.popped| < count { SlotsDiffer(|r.popped|, count, n); }
  }

  lemma ReadSizeSound(r: Ring, n: nat, slotSize: nat)
    requires n > 0 && Sound(r, n, slotSize)
    ensures Sound(Step(r, n, slotSize, ReadSize), n, slotSize)
  {
    if r.consumer.CFound? { assert Holds(r.sizes, r.slots, Slot(|r.popped|, n), r.pushed[|r.popped|]); }
  }

  lemma CopyOutSound(r: Ring, n: nat, slotSize: nat)
    requires n > 0 && Sound(r, n, slotSize)
    ensures Sound(Step(r, n, slotSize, CopyOut), n, slotSize)
  {
    if r.consumer.CCopying? && |r.consumer.out| < r.consumer.size {
      var c, h := r.consumer, |r.popped|;
      assert Holds(r.sizes, r.slots, Slot(h, n), r.pushed[h]);
      assert r.slots[c.head][|c.out|] == r.slots[c.head][..c.size][|c.out|] == r.pushed[h][|c.out|];
      assert r.pushed[h][..|c.out| + 1] == c.out + [r.pushed[h][|c.out|]];
    }
  }

  lemma ReleaseSound(r: Ring, n: nat, slotSize: nat)
    requires n > 0 && Sound(r, n, slotSize)
    ensures Sound(Step(r, n, slotSize, Release), n, slotSize)
  {
    hide ContentsOk, Slot;
    ReleaseContents(r, n, slotSize);
    if r.consumer.CCopying? { Next(Slot(|r.popped|, n), n); NextSlot(|r.popped|, n); }
  }

  lemma NextSlot(i: nat, n: nat)
    requires n > 0
    ensures Slot(i + 1, n) == (Slot(i, n) + 1) % n
  {}

  lemma ReleaseContents(r: Ring, n: nat, slotSize: nat)
    requires n > 0 && Sound(r, n, slotSize)
    ensures ContentsOk(Step(r, n, slotSize, Release), n)
  {
    hide ProducerOk, Slot, Holds;
    if r.consumer.CCopying? && |r.consumer.out| == r.consumer.size {
      var h := |r.popped|;
      assert r.consumer.out == r.pushed[h];
      assert r.popped + [r.pushed[h]] == r.pushed[..h + 1];
    }
  }

  lemma StepSound(r: Ring, n: nat, slotSize: nat, a: Action)
    requires n > 0 && Sound(r, n, slotSize)
    ensures Sound(Step(r, n, slotSize, a), n, slotSize)
  {
    hide Sound, Step;
    if a.AskPush? || a.LoadHead? || a.LoadOwnTail? || a.StoreSize? || a.CopyIn? || a.Publish? {
      ProducerStep(r, n, slotSize, a);
    } else {
      ConsumerStep(r, n, slotSize, a);
    }
  }

  lemma {:induction false} EveryRunSound(n: nat, slotSize: nat, actions: seq<Action>)
    requires n > 0
    ensures Sound(Run(n, slotSize, actions), n, slotSize)
    decreases |actions|
  {
    if actions == [] {
      InitSound(n, slotSize);
    } else {
      EveryRunSound(n, slotSize, Front(actions));
      StepSound(Run(n, slotSize, Front(actions)), n, slotSize, Last(actions));
    }
  }

  /** In every interleaving the byte strings popped are a prefix of those pushed, in order and whole, and at most
      n - 1 are held. */
  lemma Fifo(n: nat, slotSize: nat, actions: seq<Action>)
    requires n > 0
    ensures var r := Run(n, slotSize, actions);
      r.popped <= r.pushed && |r.pushed| - |r.popped| <= n - 1
  {
    EveryRunSound(n, slotSize, actions);
  }

  /** A push is refused for want of room exactly when, at the head it saw, n - 1 records were held. */
  lemma RefusedIffFull(n: nat, slotSize: nat, actions: seq<Action>)
    requires n > 0 && Run(n, slotSize, actions).producer.PSawHead?
    ensures var r := Run(n, slotSize, actions);
      Step(r, n, slotSize, LoadOwnTail).producer.PIdle? <==> |r.pushed| - r.seenHead == n - 1
  {
    hide Run, Step;
    EveryRunSound(n, slotSize, actions);
    RefusedWhenFull(Run(n, slotSize, actions), n, slotSize);
  }

  lemma RefusedWhenFull(r: Ring, n: nat, slotSize: nat)
    requires n > 0 && Sound(r, n, slotSize) && r.producer.PSawHead?
    ensures Step(r, n, slotSize, LoadOwnTail).producer.PIdle? <==> |r.pushed| - r.seenHead == n - 1
  {
    hide ContentsOk, ConsumerOk;
    NotFull(r, n);
  }

  // ----- push and pop run through without interference -----

  function Steps(r: Ring, n: nat, slotSize: nat, actions: seq<Action>): Ring
    requires n > 0
    decreases |actions|
  {
    if actions == [] then r else Steps(Step(r, n, slotSize, actions[0]), n, slotSize, actions[1..])
  }

  /** The ring after a whole push. */
  function Pushed(r: Ring, n: nat, slotSize: nat, data: seq<byte>): Ring
    requires n > 0 && r.tail < |r.sizes| && r.tail < |r.slots| && |r.slots[r.tail]| == slotSize
  {
    if |data| > slotSize then r
    else if (r.tail + 1) % n == Slot(|r.popped|, n) then r.(seenHead := |r.popped|)
    else
      r.(sizes := r.sizes[r.tail := |data|], slots := r.slots[r.tail := data + r.slots[r.tail][|data|..]],
         tail := (r.tail + 1) % n, pushed := r.pushed + [data], seenHead := |r.popped|)
  }

  function PushActions(r: Ring, data: seq<byte>): seq<Action> {
    [AskPush(data), LoadHead(|r.popped|), LoadOwnTail, StoreSize] + seq(|data|, i => CopyIn) + [Publish]
  }

  lemma {:induction false} CopyAll(r: Ring, n: nat, slotSize: nat, left: nat)
    requires n > 0 && r.producer.PCopying? && r.producer.k + left == |r.producer.data|
    requires r.producer.tail < |r.slots| && |r.producer.data| <= |r.slots[r.producer.tail]|
    ensures Steps(r, n, slotSize, seq(left, i => CopyIn) + [Publish]) ==
      var p := r.producer;
      r.(slots := r.slots[p.tail := r.slots[p.tail][..p.k] + p.data[p.k..] + r.slots[p.tail][|p.data|..]],
         tail := p.next, producer := PIdle, pushed := r.pushed + [p.data])
    decreases left
  {
    var p, todo := r.producer, seq(left, i => CopyIn) + [Publish];
    if left == 0 {
      assert todo == [Publish] && todo[1..] == [];
      assert r.slots[p.tail][..p.k] + p.data[p.k..] + r.slots[p.tail][|p.data|..] == r.slots[p.tail];
      assert r.slots[p.tail := r.slots[p.tail]] == r.slots;
    } else {
      var r' := Step(r, n, slotSize, CopyIn);
      assert todo[0] == CopyIn && todo[1..] == seq(left - 1, i => CopyIn) + [Publish];
      CopyAll(r', n, slotSize, left - 1);
      assert r'.slots[p.tail][..p.k + 1] + p.data[p.k + 1..] == r.slots[p.tail][..p.k] + p.data[p.k..];
      assert r'.slots[p.tail][|p.data|..] == r.slots[p.tail][|p.data|..];
    }
  }

  /** With no producer at work, the inner steps of a push do nothing. */
  lemma {:induction false} Inert(r: Ring, n: nat, slotSize: nat, actions: seq<Action>)
    requires n > 0 && r.producer.PIdle?
    requires forall a | a in actions :: a.LoadHead? || a.LoadOwnTail? || a.StoreSize? || a.CopyIn? || a.Publish?
    ensures Steps(r, n, slotSize, actions) == r
    decreases |actions|
  {
    if actions != [] {
      assert actions[0] in actions;
      Inert(r, n, slotSize, actions[1..]);
    }
  }

  lemma FirstStep(r: Ring, n: nat, slotSize: nat, a: Action, rest: seq<Action>)
    requires n > 0
    ensures Steps(r, n, slotSize, [a] + rest) == Steps(Step(r, n, slotSize, a), n, slotSize, rest)
  {
    assert ([a] + rest)[1..] == rest;
  }

  /** The first three steps of a push: check the size, load head, load tail. */
  lemma PushBegins(r: Ring, n: nat, slotSize: nat, data: seq<byte>, rest: seq<Action>)
    requires n > 0 && r.producer.PIdle? && r.seenHead <= |r.popped| && |data| <= slotSize
    ensures Steps(r, n, slotSize, [AskPush(data), LoadHead(|r.popped|), LoadOwnTail] + rest) ==
      var full := (r.tail + 1) % n == Slot(|r.popped|, n);
      Steps(r.(producer := if full then PIdle else PClaimed(data, r.tail, (r.tail + 1) % n), seenHead := |r.popped|),
            n, slotSize, rest)
  {
    hide Slot, Steps;
    var all, h := [AskPush(data), LoadHead(|r.popped|), LoadOwnTail] + rest, |r.popped|;
    var r1, r2 := r.(producer := PAsked(data)), r.(producer := PSawHead(data, Slot(h, n)), seenHead := h);
    assert all == [AskPush(data)] + ([LoadHead(h)] + ([LoadOwnTail] + rest));
    FirstStep(r, n, slotSize, AskPush(data), [LoadHead(h)] + ([LoadOwnTail] + rest));
    FirstStep(r1, n, slotSize, LoadHead(h), [LoadOwnTail] + rest);
    FirstStep(r2, n, slotSize, LoadOwnTail, rest);
  }

  /** Run through without interference, the steps of a push are Pushed. */
  lemma PushIsItsSteps(r: Ring, n: nat, slotSize: nat, data: seq<byte>)
    requires n > 0 && r.producer.PIdle? && r.seenHead <= |r.popped|
    requires r.tail < |r.sizes| && r.tail < |r.slots| && |r.slots[r.tail]| == slotSize
    ensures Steps(r, n, slotSize, PushActions(r, data)) == Pushed(r, n, slotSize, data)
  {
    hide Slot;
    var all, rest := PushActions(r, data), seq(|data|, i => CopyIn) + [Publish];
    if |data| > slotSize {
      assert Step(r, n, slotSize, all[0]) == r;
      Inert(r, n, slotSize, all[1..]);
    } else {
      var tail := [StoreSize] + rest;
      assert all == [AskPush(data), LoadHead(|r.popped|), LoadOwnTail] + tail;
      PushBegins(r, n, slotSize, data, tail);
      if (r.tail + 1) % n == Slot(|r.popped|, n) {
        Inert(r.(seenHead := |r.popped|), n, slotSize, tail);
      } else {
        StoreAndCopy(r.(producer := PClaimed(data, r.tail, (r.tail + 1) % n), seenHead := |r.popped|), n, slotSize);
      }
    }
  }

  lemma StoreAndCopy(r: Ring, n: nat, slotSize: nat)
    requires n > 0 && r.producer.PClaimed? && |r.producer.data| <= slotSize
    requires r.producer.tail < |r.sizes| && r.producer.tail < |r.slots| && |r.slots[r.producer.tail]| == slotSize
    ensures var p := r.producer;
      Steps(r, n, slotSize, [StoreSize] + (seq(|p.data|, i => CopyIn) + [Publish])) ==
      r.(sizes := r.sizes[p.tail := |p.data|], slots := r.slots[p.tail := p.data + r.slots[p.tail][|p.data|..]],
         tail := p.next, producer := PIdle, pushed := r.pushed + [p.data])
  {
    var p := r.producer;
    var rest := seq(|p.data|, i => CopyIn) + [Publish];
    assert ([StoreSize] + rest)[1..] == rest;
    CopyAll(Step(r, n, slotSize, StoreSize), n, slotSize, |p.data|);
    assert r.slots[p.tail][..0] + p.data[0..] == p.data;
  }

  /** The ring after a whole pop of a ring that is not empty, and what pop hands out. */
  function Popped(r: Ring, n: nat): (res: (Ring, seq<byte>))
    requires n > 0 && r.head < |r.sizes| && r.head < |r.slots| && r.sizes[r.head] <= |r.slots[r.head]|
  {
    var out := r.slots[r.head][..r.sizes[r.head]];
    (r.(head := (r.head + 1) % n, popped := r.popped + [out], seenTail := |r.pushed|), out)
  }

  function PopActions(r: Ring): seq<Action>
    requires r.head < |r.sizes|
  {
    [AskPop, LoadTail(|r.pushed|), ReadSize] + (seq(r.sizes[r.head], i => CopyOut) + [Release])
  }

  lemma {:induction false} CopyOutAll(r: Ring, n: nat, slotSize: nat, left: nat)
    requires n > 0 && r.consumer.CCopying? && |r.consumer.out| + left == r.consumer.size
    requires r.consumer.head < |r.slots| && r.consumer.size <= |r.slots[r.consumer.head]|
    ensures Steps(r, n, slotSize, seq(left, i => CopyOut) + [Release]) ==
      var c := r.consumer;
      r.(head := (c.head + 1) % n, consumer := CIdle,
         popped := r.popped + [c.out + r.slots[c.head][|c.out|..c.size]])
    decreases left
  {
    var c, todo := r.consumer, seq(left, i => CopyOut) + [Release];
    if left == 0 {
      assert todo == [Release] && todo[1..] == [];
      assert c.out + r.slots[c.head][|c.out|..c.size] == c.out;
    } else {
      var r' := Step(r, n, slotSize, CopyOut);
      assert todo[0] == CopyOut && todo[1..] == seq(left - 1, i => CopyOut) + [Release];
      CopyOutAll(r', n, slotSize, left - 1);
      assert r'.consumer.out + r.slots[c.head][|c.out| + 1..c.size] == c.out + r.slots[c.head][|c.out|..c.size];
    }
  }

  /** Run through without interference, the steps of a pop are Popped. */
  lemma PopIsItsSteps(r: Ring, n: nat, slotSize: nat)
    requires n > 0 && r.consumer.CIdle? && r.seenTail <= |r.pushed| && r.head != Slot(|r.pushed|, n)
    requires r.head < |r.sizes| && r.head < |r.slots| && r.sizes[r.head] <= |r.slots[r.head]|
    ensures Steps(r, n, slotSize, PopActions(r)) == Popped(r, n).0
  {
    hide Slot, Steps;
    var rest, t := seq(r.sizes[r.head], i => CopyOut) + [Release], |r.pushed|;
    assert PopActions(r) == [AskPop] + ([LoadTail(t)] + ([ReadSize] + rest));
    FirstStep(r, n, slotSize, AskPop, [LoadTail(t)] + ([ReadSize] + rest));
    FirstStep(r.(consumer := CAsked(r.head)), n, slotSize, LoadTail(t), [ReadSize] + rest);
    FirstStep(r.(consumer := CFound(r.head), seenTail := t), n, slotSize, ReadSize, rest);
    CopyOutAll(r.(consumer := CCopying(r.head, r.sizes[r.head], []), seenTail := t), n, slotSize, r.sizes[r.head]);
    assert [] + r.slots[r.head][0..r.sizes[r.head]] == r.slots[r.head][..r.sizes[r.head]];
  }

  // ----- the ring in place -----

  /** Where slot i begins in the buffer. */
  function Offset(i: nat, slotSize: nat): nat { i * slotSize }

  lemma SlotBounds(i: nat, n: nat, slotSize: nat)
    requires i < n
    ensures Offset(i, slotSize) + slotSize <= Offset(n, slotSize)
  {
    assert (n - i - 1) * slotSize >= 0;
  }

  lemma SlotsApart(i: nat, j: nat, slotSize: nat)
    requires i < j
    ensures Offset(i, slotSize) + slotSize <= Offset(j, slotSize)
  {
    assert (j - i - 1) * slotSize >= 0;
  }

  function CutOne(buffer: seq<byte>, n: nat, slotSize: nat, i: nat): (slot: seq<byte>)
    requires |buffer| == Offset(n, slotSize) && i < n
    ensures Offset(i, slotSize) + slotSize <= |buffer| && slot == buffer[Offset(i, slotSize)..Offset(i, slotSize) + slotSize]
  {
    SlotBounds(i, n, slotSize);
    buffer[Offset(i, slotSize)..Offset(i, slotSize) + slotSize]
  }

  /** The slots, cut out of the one buffer that holds them. */
  function Cut(buffer: seq<byte>, n: nat, slotSize: nat): (slots: seq<seq<byte>>)
    requires |buffer| == Offset(n, slotSize)
    ensures |slots| == n && forall i | 0 <= i < n :: slots[i] == CutOne(buffer, n, slotSize, i)
  {
    hide Offset;
    seq(n, i requires 0 <= i < n => CutOne(buffer, n, slotSize, i))
  }

  /** Overwriting bytes of slot s changes that slot only. */
  lemma CutUpdate(was: seq<byte>, now: seq<byte>, n: nat, slotSize: nat, s: nat, data: seq<byte>)
    requires |was| == |now| == Offset(n, slotSize) && s < n && |data| <= slotSize
    requires Offset(s, slotSize) + slotSize <= |was|
    requires now == was[..Offset(s, slotSize)] + data + was[Offset(s, slotSize) + |data|..]
    ensures Cut(now, n, slotSize) == Cut(was, n, slotSize)[s := data + Cut(was, n, slotSize)[s][|data|..]]
  {
    hide Offset;
    var a, b := Cut(was, n, slotSize), Cut(now, n, slotSize);
    forall i | 0 <= i < n ensures b[i] == a[s := data + a[s][|data|..]][i] {
      SlotBounds(i, n, slotSize);
      if i < s { SlotsApart(i, s, slotSize); } else if s < i { SlotsApart(s, i, slotSize); }
    }
  }

  /** Any steps keep the ring sound. */
  lemma {:induction false} StepsSound(r: Ring, n: nat, slotSize: nat, actions: seq<Action>)
    requires n > 0 && Sound(r, n, slotSize)
    ensures Sound(Steps(r, n, slotSize, actions), n, slotSize)
    decreases |actions|
  {
    hide Sound, Step;
    if actions != [] {
      StepSound(r, n, slotSize, actions[0]);
      StepsSound(Step(r, n, slotSize, actions[0]), n, slotSize, actions[1..]);
    }
  }

  /** Between calls the indices are in range and the full test at the true head is right. */
  lemma FullTest(r: Ring, n: nat, slotSize: nat)
    requires n > 0 && Sound(r, n, slotSize)
    ensures r.tail < n && r.head == Slot(|r.popped|, n) && r.seenHead <= |r.popped|
    ensures (r.tail + 1) % n == r.head <==> |r.pushed| - |r.popped| >= n - 1
    ensures |r.slots| == |r.sizes| == n && |r.slots[r.tail]| == slotSize
  {
    hide ContentsOk, ProducerOk, ConsumerOk, Slot;
    NotFull(r.(producer := PSawHead([], Slot(|r.popped|, n)), seenHead := |r.popped|), n);
    assert r.slots[r.tail] in r.slots;
  }

  lemma PushedSound(r: Ring, n: nat, slotSize: nat, data: seq<byte>)
    requires n > 0 && Sound(r, n, slotSize) && r.producer.PIdle?
    ensures r.tail < n && |r.slots| == |r.sizes| == n && |r.slots[r.tail]| == slotSize
    ensures Sound(Pushed(r, n, slotSize, data), n, slotSize) && r.head == Slot(|r.popped|, n)
    ensures (r.tail + 1) % n == r.head <==> |r.pushed| - |r.popped| >= n - 1
  {
    hide Sound, Slot, Pushed, Steps, PushActions;
    FullTest(r, n, slotSize);
    PushIsItsSteps(r, n, slotSize, data);
    StepsSound(r, n, slotSize, PushActions(r, data));
  }

  lemma PoppedSound(r: Ring, n: nat, slotSize: nat)
    requires n > 0 && Sound(r, n, slotSize) && r.consumer.CIdle?
    ensures r.popped <= r.pushed && r.head < n && r.tail < n && (r.head == r.tail <==> |r.pushed| <= |r.popped|)
    ensures |r.popped| < |r.pushed| ==> r.sizes[r.head] <= slotSize && |r.slots[r.head]| == slotSize
    ensures |r.popped| < |r.pushed| ==>
      Sound(Popped(r, n).0, n, slotSize) && Popped(r, n).1 == r.pushed[|r.popped|]
  {
    var h := |r.popped|;
    if h < |r.pushed| {
      assert Holds(r.sizes, r.slots, Slot(h, n), r.pushed[h]);
      assert r.slots[r.head] in r.slots;
      SlotsDiffer(h, |r.pushed|, n);
      PopIsItsSteps(r, n, slotSize);
      StepsSound(r, n, slotSize, PopActions(r));
    }
  }

  /** memcpy into the buffer, byte by byte. */
  method CopyInto(buffer: array<byte>, dst: nat, data: seq<byte>)
    requires dst + |data| <= buffer.Length
    modifies buffer
    ensures buffer[..] == old(buffer[..])[..dst] + data + old(buffer[..])[dst + |data|..]
  {
    ghost var was := buffer[..];
    var k := 0;
    while k < |data|
      invariant 0 <= k <= |data|
      invariant forall i | 0 <= i < buffer.Length :: buffer[i] == if dst <= i < dst + k then data[i - dst] else was[i]
    {
      buffer[dst + k] := data[k];
      k := k + 1;
    }
  }

  /** memcpy out of the buffer. */
  method CopyFrom(buffer: array<byte>, src: nat, size: nat) returns (out: seq<byte>)
    requires src + size <= buffer.Length
    ensures out == buffer[src..src + size]
  {
    out := [];
    var k := 0;
    while k < size
      invariant 0 <= k <= size && out == buffer[src..src + k]
    {
      out, k := out + [buffer[src + k]], k + 1;
    }
  }

  /** How a pop ends: with a record, cancelled, or not yet. */
  datatype Outcome = Got(data: seq<byte>) | GaveUp | StillWaiting

  /** The ring as the process maps it: a header, an array of sizes and one flat buffer of slots. */
  class ShmRing {
    const slotCount: nat
    const slotSize: nat
    var head: nat
    var tail: nat
    const sizes: array<nat>
    const buffer: array<byte>
    var cancelled: bool
    ghost var pushed: seq<seq<byte>>
    ghost var popped: seq<seq<byte>>
    ghost var seenHead: nat
    ghost var seenTail: nat

    ghost predicate Valid()
      reads this, sizes, buffer
    {
      && slotCount > 0 && sizes.Length == slotCount && buffer.Length == Offset(slotCount, slotSize)
      && Sound(At(), slotCount, slotSize)
    }

    /** The ring between calls, as the steps see it. */
    ghost function At(): Ring
      reads this, sizes, buffer
      requires buffer.Length == Offset(slotCount, slotSize)
    {
      Ring(head, tail, sizes[..], Cut(buffer[..], slotCount, slotSize), cancelled, PIdle, CIdle, pushed, popped,
           seenHead, seenTail)
    }

    /** One slot at least: the code divides by the count. */
    constructor (slotCount: nat, slotSize: nat)
      requires slotCount > 0
      ensures Valid() && fresh(sizes) && fresh(buffer) && At() == Init(slotCount, slotSize)
    {
      this.slotCount, this.slotSize := slotCount, slotSize;
      head, tail, cancelled, pushed, popped, seenHead, seenTail := 0, 0, false, [], [], 0, 0;
      sizes := new nat[slotCount](i => 0);
      buffer := new byte[Offset(slotCount, slotSize)](i => 0);
      new;
      assert sizes[..] == Init(slotCount, slotSize).sizes;
      CutZeros(buffer[..], slotCount, slotSize);
      InitSound(slotCount, slotSize);
    }

    /** push, with no consumer at work meanwhile: it is refused exactly when the record is too long or slotCount - 1
        records are held, and the ring is as its steps leave it. */
    method Push(data: seq<byte>) returns (ok: bool)
      requires Valid()
      modifies this`tail, this`pushed, this`seenHead, sizes, buffer
      ensures Valid() && At() == Pushed(old(At()), slotCount, slotSize, data)
      ensures ok <==> |data| <= slotSize && |old(pushed)| - |popped| < slotCount - 1
      ensures pushed == if ok then old(pushed) + [data] else old(pushed)
    {
      hide Sound, Slot, Cut, CutOne, Offset;
      ghost var was := At();
      PushedSound(was, slotCount, slotSize, data);
      if |data| > slotSize { return false; }
      var next := (tail + 1) % slotCount;
      seenHead := |popped|;
      if next == head { return false; }
      sizes[tail] := |data|;
      SlotBounds(tail, slotCount, slotSize);
      CopyInto(buffer, Offset(tail, slotSize), data);
      CutUpdate(old(buffer[..]), buffer[..], slotCount, slotSize, tail, data);
      tail, pushed := next, pushed + [data];
      assert sizes[..] == was.sizes[was.tail := |data|];
      return true;
    }

    /** pop, with no producer at work meanwhile, waiting as often as `patience` allows: it hands out the oldest record,
        gives up when the ring is empty and cancelled, and waits on when it is empty and not cancelled. */
    method Pop(patience: nat) returns (res: Outcome)
      requires Valid()
      modifies this`head, this`popped, this`seenTail
      ensures Valid()
      ensures res.Got? <==> |old(popped)| < |pushed|
      ensures res.Got? ==> At() == Popped(old(At()), slotCount).0 && popped == old(popped) + [res.data]
      ensures res.Got? ==> res.data == pushed[|old(popped)|]
      ensures !res.Got? ==> At() == old(At()) && res == if cancelled then GaveUp else StillWaiting
    {
      hide Sound, Slot, Offset;
      ghost var was := At();
      PoppedSound(was, slotCount, slotSize);
      var polls := 0;
      while head == tail
        invariant polls <= patience
        decreases patience - polls
        modifies {}
      {
        if cancelled { return GaveUp; }
        if polls == patience { return StillWaiting; }
        polls := polls + 1;
      }
      SlotBounds(head, slotCount, slotSize);
      var out := CopyFrom(buffer, Offset(head, slotSize), sizes[head]);
      assert out == was.slots[was.head][..sizes[head]];
      head, popped, seenTail := (head + 1) % slotCount, popped + [out], |pushed|;
      return Got(out);
    }

    method Cancel()
      requires Valid()
      modifies this`cancelled
      ensures Valid() && At() == old(At()).(cancelled := true)
    {
      cancelled := true;
    }
  }

  lemma CutZeros(buffer: seq<byte>, n: nat, slotSize: nat)
    requires |buffer| == Offset(n, slotSize) && forall i | 0 <= i < |buffer| :: buffer[i] == 0
    ensures Cut(buffer, n, slotSize) == seq(n, i => seq(slotSize, j => 0))
  {
    forall i | 0 <= i < n ensures Cut(buffer, n, slotSize)[i] == seq(slotSize, j => 0) {
      SlotBounds(i, n, slotSize);
    }
  }
}
