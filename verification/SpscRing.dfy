/** The lock-free rings of combat_hooks.cpp and char_tracker_hooks.cpp, broken
    into their atomic actions: one producer and one consumer, interleaved in any
    way, refine a bounded first-in-first-out queue of capacity N - 1. */
module SpscRing {
  import opened Modular

  /** PushEvent between its atomic actions. */
  datatype Producer<T> =
    | PIdle
    | PLoaded(evt: T, idx: nat)    // own index read
    | PWriting(evt: T, idx: nat)   // room seen, slot being written
    | PWritten(evt: T, idx: nat)   // slot written, index not yet published

  /** PopEvent between its atomic actions. */
  datatype Consumer<T> =
    | CIdle
    | CLoaded(idx: nat)
    | CReading(idx: nat)           // an event seen, slot being copied out
    | CRead(idx: nat, value: T)    // slot copied, index not yet published

  /** The shared ring with the history of accepted pushes and finished pops. */
  datatype State<T> = State(slots: seq<T>, w: nat, r: nat, prod: Producer<T>, cons: Consumer<T>,
                            pushed: seq<T>, popped: seq<T>)

  datatype Action<T> =
    | BeginPush(evt: T)
    | CheckRoom
    | TornWrite(junk: T)
    | FinishWrite
    | PublishWrite
    | BeginPop
    | CheckData
    | CopyOut
    | PublishRead

  function N<T>(s: State<T>): nat {
    |s.slots|
  }

  predicate Enabled<T>(s: State<T>, a: Action<T>) {
    match a
    case BeginPush(_) => s.prod.PIdle?
    case CheckRoom => s.prod.PLoaded?
    case TornWrite(_) => s.prod.PWriting? && s.prod.idx < N(s)
    case FinishWrite => s.prod.PWriting? && s.prod.idx < N(s)
    case PublishWrite => s.prod.PWritten?
    case BeginPop => s.cons.CIdle?
    case CheckData => s.cons.CLoaded?
    case CopyOut => s.cons.CReading? && s.cons.idx < N(s)
    case PublishRead => s.cons.CRead?
  }

  function Next<T>(s: State<T>, a: Action<T>): State<T>
    requires Enabled(s, a) && 0 < N(s)
  {
    match a
    case BeginPush(e) => s.(prod := PLoaded(e, s.w))
    case CheckRoom =>
      if (s.prod.idx + 1) % N(s) == s.r then s.(prod := PIdle)
      else s.(prod := PWriting(s.prod.evt, s.prod.idx))
    case TornWrite(junk) => s.(slots := s.slots[s.prod.idx := junk])
    case FinishWrite => s.(slots := s.slots[s.prod.idx := s.prod.evt], prod := PWritten(s.prod.evt, s.prod.idx))
    case PublishWrite => s.(w := (s.prod.idx + 1) % N(s), pushed := s.pushed + [s.prod.evt], prod := PIdle)
    case BeginPop => s.(cons := CLoaded(s.r))
    case CheckData => if s.cons.idx == s.w then s.(cons := CIdle) else s.(cons := CReading(s.cons.idx))
    case CopyOut => s.(cons := CRead(s.cons.idx, s.slots[s.cons.idx]))
    case PublishRead => s.(r := (s.cons.idx + 1) % N(s), popped := s.popped + [s.cons.value], cons := CIdle)
  }

  // ---- The queue it implements -------------------------------------------------

  /** What a caller of push and pop can observe. */
  datatype Visible<T> = Silent | Enqueued(evt: T) | Refused | Dequeued(evt: T) | FoundEmpty

  function Observe<T>(s: State<T>, a: Action<T>): Visible<T>
    requires Enabled(s, a) && 0 < N(s)
  {
    match a
    case CheckRoom => if (s.prod.idx + 1) % N(s) == s.r then Refused else Silent
    case PublishWrite => Enqueued(s.prod.evt)
    case CheckData => if s.cons.idx == s.w then FoundEmpty else Silent
    case PublishRead => Dequeued(s.cons.value)
    case _ => Silent
  }

  /** A queue of at most cap elements: refuses exactly when full, reports empty
      exactly when empty, and hands out the oldest element. */
  predicate QueueStep<T(==)>(cap: int, q: seq<T>, v: Visible<T>, q': seq<T>) {
    match v
    case Silent => q' == q
    case Enqueued(e) => |q| < cap && q' == q + [e]
    case Refused => |q| == cap && q' == q
    case Dequeued(e) => q != [] && e == q[0] && q' == q[1..]
    case FoundEmpty => q == [] && q' == q
  }

  function Queue<T>(s: State<T>): seq<T>
    requires |s.popped| <= |s.pushed|
  {
    s.pushed[|s.popped|..]
  }

  // ---- Invariant ----------------------------------------------------------------

  ghost predicate Counted<T>(s: State<T>) {
    && 0 < N(s)
    && |s.popped| <= |s.pushed| < |s.popped| + N(s)
    && s.w == |s.pushed| % N(s) && s.r == |s.popped| % N(s)
    && s.popped == s.pushed[..|s.popped|]
  }

  ghost predicate SlotsHold<T>(s: State<T>)
    requires Counted(s)
  {
    forall k :: |s.popped| <= k < |s.pushed| ==> s.slots[k % N(s)] == s.pushed[k]
  }

  ghost predicate ProducerOk<T>(s: State<T>)
    requires Counted(s)
  {
    match s.prod
    case PIdle => true
    case PLoaded(_, i) => i == s.w
    case PWriting(_, i) => i == s.w && |s.pushed| + 1 < |s.popped| + N(s)
    case PWritten(e, i) => i == s.w && |s.pushed| + 1 < |s.popped| + N(s) && s.slots[i] == e
  }

  ghost predicate ConsumerOk<T>(s: State<T>)
    requires Counted(s)
  {
    match s.cons
    case CIdle => true
    case CLoaded(i) => i == s.r
    case CReading(i) => i == s.r && |s.popped| < |s.pushed|
    case CRead(i, v) => i == s.r && |s.popped| < |s.pushed| && v == s.pushed[|s.popped|]
  }

  ghost predicate Inv<T>(s: State<T>) {
    Counted(s) && SlotsHold(s) && ProducerOk(s) && ConsumerOk(s)
  }

  /** The slot being written is never the slot being copied out. */
  predicate NoRace<T>(s: State<T>) {
    s.prod.PWriting? && s.cons.CReading? ==> s.prod.idx != s.cons.idx
  }

  lemma InvExcludesRace<T>(s: State<T>)
    requires Inv(s)
    ensures NoRace(s)
  {
    SameIndex(|s.popped|, |s.pushed|, N(s));
  }

  /** The full test compares indices; it means N - 1 events are outstanding. */
  lemma FullMeans<T>(s: State<T>)
    requires Counted(s)
    ensures (s.w + 1) % N(s) == s.r <==> |s.pushed| - |s.popped| == N(s) - 1
    ensures s.r == s.w <==> |s.pushed| == |s.popped|
  {
    NextIndex(|s.pushed|, N(s));
    SameIndex(|s.popped|, |s.pushed|, N(s));
    if |s.pushed| + 1 < |s.popped| + N(s) {
      SameIndex(|s.popped|, |s.pushed| + 1, N(s));
    } else {
      assert |s.pushed| + 1 == |s.popped| + N(s);
      WrapOnce(|s.popped|, N(s));
    }
  }

  lemma WriteKeepsQueue<T>(s: State<T>, v: T)
    requires Inv(s) && s.prod.PWriting?
    ensures var s' := s.(slots := s.slots[s.prod.idx := v]); Counted(s') && SlotsHold(s')
  {
    var s' := s.(slots := s.slots[s.prod.idx := v]);
    forall k | |s.popped| <= k < |s.pushed| ensures s'.slots[k % N(s)] == s.pushed[k] {
      SameIndex(k, |s.pushed|, N(s));
    }
  }

  lemma PublishWriteOk<T>(s: State<T>)
    requires Inv(s) && s.prod.PWritten?
    ensures Inv(Next(s, PublishWrite)) && Queue(Next(s, PublishWrite)) == Queue(s) + [s.prod.evt]
  {
    NextIndex(|s.pushed|, N(s));
    var s' := Next(s, PublishWrite);
    assert s'.pushed[..|s.popped|] == s.pushed[..|s.popped|];
    forall k | |s'.popped| <= k < |s'.pushed| ensures s'.slots[k % N(s)] == s'.pushed[k] {
      if k < |s.pushed| {
        assert s.slots[k % N(s)] == s.pushed[k];
      }
    }
  }

  lemma PublishReadOk<T>(s: State<T>)
    requires Inv(s) && s.cons.CRead?
    ensures Inv(Next(s, PublishRead))
    ensures Queue(s) != [] && s.cons.value == Queue(s)[0] && Queue(Next(s, PublishRead)) == Queue(s)[1..]
  {
    NextIndex(|s.popped|, N(s));
    var s' := Next(s, PublishRead);
    assert s.pushed[..|s.popped| + 1] == s.pushed[..|s.popped|] + [s.pushed[|s.popped|]];
    assert SlotsHold(s');
  }

  /** Each atomic action keeps the invariant and is one step, or none, of the queue. */
  lemma StepRefines<T>(s: State<T>, a: Action<T>)
    requires Inv(s) && Enabled(s, a)
    ensures Inv(Next(s, a)) && N(Next(s, a)) == N(s)
    ensures QueueStep(N(s) - 1, Queue(s), Observe(s, a), Queue(Next(s, a)))
  {
    match a
    case CheckRoom => FullMeans(s);
    case TornWrite(junk) => WriteKeepsQueue(s, junk);
    case FinishWrite => WriteKeepsQueue(s, s.prod.evt);
    case PublishWrite => PublishWriteOk(s);
    case CheckData => FullMeans(s);
    case PublishRead => PublishReadOk(s);
    case CopyOut =>
      assert s.slots[|s.popped| % N(s)] == s.pushed[|s.popped|];
    case _ =>
  }

  // ---- Runs ----------------------------------------------------------------------

  ghost predicate Initial<T>(s: State<T>) {
    0 < N(s) && s.w == 0 && s.r == 0 && s.prod.PIdle? && s.cons.CIdle? && s.pushed == [] && s.popped == []
  }

  ghost predicate Interleaving<T>(ss: seq<State<T>>, acts: seq<Action<T>>) {
    && |ss| == |acts| + 1 && Initial(ss[0])
    && (forall i :: 0 <= i < |acts| ==>
      0 < N(ss[i]) && Enabled(ss[i], acts[i]) && ss[i + 1] == Next(ss[i], acts[i]))
  }

  /** Under every interleaving: what came out is a prefix of what went in, at
      most N - 1 events are outstanding, no slot is written while it is being
      copied, and the observable steps are those of the bounded queue. */
  lemma {:induction false} EveryInterleavingIsFifo<T>(ss: seq<State<T>>, acts: seq<Action<T>>, i: nat)
    requires Interleaving(ss, acts) && i <= |acts|
    ensures Inv(ss[i]) && NoRace(ss[i]) && N(ss[i]) == N(ss[0])
    ensures ss[i].popped <= ss[i].pushed && |ss[i].pushed| - |ss[i].popped| <= N(ss[0]) - 1
    ensures i < |acts| ==>
      Inv(ss[i + 1]) && QueueStep(N(ss[0]) - 1, Queue(ss[i]), Observe(ss[i], acts[i]), Queue(ss[i + 1]))
  {
    if i > 0 {
      EveryInterleavingIsFifo(ss, acts, i - 1);
      StepRefines(ss[i - 1], acts[i - 1]);
    }
    InvExcludesRace(ss[i]);
    if i < |acts| {
      StepRefines(ss[i], acts[i]);
    }
  }
}
