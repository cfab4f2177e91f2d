/** The deferred-event rings as the program runs them on the game thread: push,
    pop and the two capped drains, and the ledger of what becomes of events. */
module EventRings {
  import opened Base
  import opened Modular

  const COMBAT_CAP: nat := 16
  const TRACKER_CAP: nat := 8

  /** One slot is always kept free, so N slots hold at most N - 1 events. */
  class EventRing<T> {
    const ring: array<T>
    var writeIdx: nat
    var readIdx: nat

    ghost predicate Valid()
      reads this
    {
      writeIdx < ring.Length && readIdx < ring.Length
    }

    ghost function Contents(): (s: seq<T>)
      requires Valid()
      reads this, ring
      ensures |s| <= ring.Length - 1
    {
      if readIdx <= writeIdx then ring[readIdx..writeIdx] else ring[readIdx..] + ring[..writeIdx]
    }

    constructor (n: nat, fill: T)
      requires 0 < n
      ensures Valid() && Contents() == [] && fresh(ring) && ring.Length == n
    {
      ring := new T[n](_ => fill);
      writeIdx, readIdx := 0, 0;
    }

    method PushEvent(evt: T) returns (ok: bool)
      requires Valid()
      modifies this`writeIdx, ring
      ensures Valid()
      ensures ok == (|old(Contents())| < ring.Length - 1)
      ensures Contents() == if ok then old(Contents()) + [evt] else old(Contents())
    {
      var nextIdx := if writeIdx + 1 == ring.Length then 0 else writeIdx + 1;
      assert nextIdx == (writeIdx + 1) % ring.Length by { Wrap(writeIdx, ring.Length); }
      if nextIdx == readIdx {
        return false;
      }
      ring[writeIdx] := evt;
      writeIdx := nextIdx;
      return true;
    }

    method PopEvent() returns (ok: bool, out: T)
      requires Valid()
      modifies this`readIdx
      ensures Valid()
      ensures ok == (old(Contents()) != [])
      ensures ok ==> out == old(Contents())[0]
      ensures Contents() == if ok then old(Contents())[1..] else []
    {
      out := ring[readIdx];
      if readIdx == writeIdx {
        return false, out;
      }
      var nextIdx := if readIdx + 1 == ring.Length then 0 else readIdx + 1;
      assert nextIdx == (readIdx + 1) % ring.Length by { Wrap(readIdx, ring.Length); }
      readIdx := nextIdx;
      return true, out;
    }

    /** while (PopEvent(discard)) {} */
    method DiscardAll()
      requires Valid()
      modifies this`readIdx
      ensures Valid() && Contents() == []
    {
      var more, evt := PopEvent();
      while more
        invariant Valid()
        invariant !more ==> Contents() == []
        decreases |Contents()|, more
      {
        more, evt := PopEvent();
      }
    }

    /** The combat drain pops before it looks at its cap: with more than sixteen
        events queued the seventeenth is taken out and dropped unexamined. */
    method ProcessDeferredEvents(connected: bool) returns (examined: seq<T>)
      requires Valid()
      modifies this`readIdx
      ensures Valid()
      ensures var q := old(Contents());
        if connected then examined == q[..Min(|q|, 16)] && Contents() == q[Min(|q|, 17)..]
        else examined == [] && Contents() == []
      ensures var q, d := old(Contents()), Drained(old(Contents()), connected);
        |d| <= |q| && Contents() == q[|d|..] && Examinees(d) == examined
    {
      hide Contents, Valid, Drained, Examinees;
      examined := [];
      ghost var q := Contents();
      DrainMatches(q, connected);
      if !connected {
        DiscardAll();
        return;
      }
      var processed := 0;
      var more, evt := PopEvent();
      while more && processed < COMBAT_CAP
        invariant Valid() && processed <= COMBAT_CAP && processed <= |q|
        invariant examined == q[..processed]
        invariant if more then processed < |q| && evt == q[processed] && Contents() == q[processed + 1..]
                  else processed == |q| && Contents() == []
        decreases COMBAT_CAP - processed
      {
        processed := processed + 1;
        examined := examined + [evt];
        RestOf(q, processed);
        more, evt := PopEvent();
      }
    }

    /** The tracker drain checks its cap first and loses nothing. */
    method ProcessDeferredDiscovery() returns (examined: seq<T>)
      requires Valid()
      modifies this`readIdx
      ensures Valid()
      ensures var q := old(Contents());
        examined == q[..Min(|q|, 8)] && Contents() == q[Min(|q|, 8)..]
    {
      hide Contents, Valid;
      examined := [];
      ghost var q := Contents();
      var processed := 0;
      while processed < TRACKER_CAP
        invariant Valid() && processed <= TRACKER_CAP && processed <= |q|
        invariant examined == q[..processed] && Contents() == q[processed..]
      {
        var more, evt := PopEvent();
        if !more {
          break;
        }
        processed := processed + 1;
        examined := examined + [evt];
      }
    }
  }

  lemma RestOf<T>(q: seq<T>, i: nat)
    requires i <= |q|
    ensures q[i..] == [] <==> i == |q|
    ensures i < |q| ==> q[i..][0] == q[i] && q[i..][1..] == q[i + 1..]
  {
  }

  lemma Wrap(i: nat, n: nat)
    requires i < n
    ensures (i + 1) % n == if i + 1 == n then 0 else i + 1
  {
    if i + 1 < n {
      Quotient(i + 1, n, 0, i + 1);
    } else {
      Quotient(n, n, 1, 0);
    }
  }

  // ---- The ledger over a whole session --------------------------------------------

  datatype Fate = Examined | DroppedByCap | Discarded

  /** queue is the ring; removed lists everything taken out, with its fate. */
  datatype Ledger<T> = Ledger(queue: seq<T>, removed: seq<(T, Fate)>, accepted: seq<T>)

  datatype Op<T> = Push(evt: T) | Drain(connected: bool)

  function Tag<T>(s: seq<T>, f: Fate): seq<(T, Fate)> {
    seq(|s|, i requires 0 <= i < |s| => (s[i], f))
  }

  /** What one combat drain removes. */
  function Drained<T>(q: seq<T>, connected: bool): seq<(T, Fate)> {
    if !connected then Tag(q, Discarded)
    else Tag(q[..Min(|q|, COMBAT_CAP)], Examined)
         + (if |q| > COMBAT_CAP then [(q[COMBAT_CAP], DroppedByCap)] else [])
  }

  /** Those of the removed events that were examined. */
  function Examinees<T>(removed: seq<(T, Fate)>): seq<T> {
    if removed == [] then []
    else
      var rest, e := Examinees(removed[..|removed| - 1]), removed[|removed| - 1];
      if e.1 == Examined then rest + [e.0] else rest
  }

  function Act<T>(cap: nat, l: Ledger<T>, op: Op<T>): Ledger<T> {
    match op
    case Push(e) =>
      if |l.queue| < cap then Ledger(l.queue + [e], l.removed, l.accepted + [e]) else l
    case Drain(connected) =>
      var d := Drained(l.queue, connected);
      Ledger(if |d| <= |l.queue| then l.queue[|d|..] else [], l.removed + d, l.accepted)
  }

  function After<T>(cap: nat, ops: seq<Op<T>>): Ledger<T> {
    if ops == [] then Ledger([], [], []) else Act(cap, After(cap, ops[..|ops| - 1]), ops[|ops| - 1])
  }

  function Events<T>(removed: seq<(T, Fate)>): seq<T> {
    seq(|removed|, i requires 0 <= i < |removed| => removed[i].0)
  }

  function CountFate<T>(removed: seq<(T, Fate)>, f: Fate): nat {
    if removed == [] then 0
    else CountFate(removed[..|removed| - 1], f) + (if removed[|removed| - 1].1 == f then 1 else 0)
  }

  lemma DrainedIsPrefix<T>(q: seq<T>, connected: bool)
    ensures var d := Drained(q, connected); |d| <= |q| && Events(d) == q[..|d|]
    ensures |Drained(q, connected)| == if connected then Min(|q|, COMBAT_CAP + 1) else |q|
  {
  }

  lemma {:induction false} ExamineesOfTag<T>(s: seq<T>, f: Fate)
    ensures Examinees(Tag(s, f)) == if f == Examined then s else []
  {
    if s != [] {
      ExamineesOfTag(s[..|s| - 1], f);
      assert Tag(s, f)[..|s| - 1] == Tag(s[..|s| - 1], f);
    }
  }

  /** What the drain loop does, in the ledger's terms. */
  lemma DrainMatches<T>(q: seq<T>, connected: bool)
    ensures var d := Drained(q, connected);
      && |d| == (if connected then Min(|q|, COMBAT_CAP + 1) else |q|)
      && Examinees(d) == if connected then q[..Min(|q|, COMBAT_CAP)] else []
  {
    var front := q[..Min(|q|, COMBAT_CAP)];
    DrainedIsPrefix(q, connected);
    ExamineesOfTag(front, Examined);
    ExamineesOfTag(q, Discarded);
    if |q| > COMBAT_CAP {
      var d := Tag(front, Examined) + [(q[COMBAT_CAP], DroppedByCap)];
      assert d[..|d| - 1] == Tag(front, Examined);
    } else {
      assert Tag(front, Examined) + [] == Tag(front, Examined);
    }
  }

  lemma {:induction false} CountConcat<T>(a: seq<(T, Fate)>, b: seq<(T, Fate)>, f: Fate)
    ensures CountFate(a + b, f) == CountFate(a, f) + CountFate(b, f)
  {
    if b == [] {
      assert a + b == a;
    } else {
      CountConcat(a, b[..|b| - 1], f);
      assert (a + b)[..|a + b| - 1] == a + b[..|b| - 1];
    }
  }

  lemma {:induction false} CountTag<T>(s: seq<T>, g: Fate, f: Fate)
    ensures CountFate(Tag(s, g), f) == if f == g then |s| else 0
  {
    if s != [] {
      CountTag(s[..|s| - 1], g, f);
      assert Tag(s, g)[..|s| - 1] == Tag(s[..|s| - 1], g);
    }
  }

  /** How many connected drains found more than sixteen events. */
  function Overfull<T>(cap: nat, ops: seq<Op<T>>): nat {
    if ops == [] then 0
    else
      var rest, op := ops[..|ops| - 1], ops[|ops| - 1];
      Overfull(cap, rest)
      + (if op.Drain? && op.connected && |After(cap, rest).queue| > COMBAT_CAP then 1 else 0)
  }

  lemma {:induction false} CountsCover<T>(removed: seq<(T, Fate)>)
    ensures |removed| == CountFate(removed, Examined) + CountFate(removed, DroppedByCap) + CountFate(removed, Discarded)
  {
    if removed != [] {
      CountsCover(removed[..|removed| - 1]);
    }
  }

  lemma {:induction false} DropsPerDrain<T>(q: seq<T>, connected: bool)
    ensures CountFate(Drained(q, connected), DroppedByCap) == if connected && |q| > COMBAT_CAP then 1 else 0
  {
    if connected {
      var a := Tag(q[..Min(|q|, COMBAT_CAP)], Examined);
      CountTag(q[..Min(|q|, COMBAT_CAP)], Examined, DroppedByCap);
      if |q| > COMBAT_CAP {
        var b := [(q[COMBAT_CAP], DroppedByCap)];
        CountConcat(a, b, DroppedByCap);
        assert b[..0] == [];
      } else {
        assert Drained(q, connected) == a;
      }
    } else {
      CountTag(q, Discarded, DroppedByCap);
    }
  }

  /** Over any session: accepted events are, in order, the removed ones followed
      by those still queued; they split into examined, dropped by the cap,
      discarded while disconnected and queued; and one is dropped by the cap for
      each connected drain that found more than sixteen. */
  lemma {:induction false} LedgerBalances<T>(cap: nat, ops: seq<Op<T>>)
    ensures var l := After(cap, ops);
      && l.accepted == Events(l.removed) + l.queue && |l.queue| <= cap
      && |l.removed| == CountFate(l.removed, Examined) + CountFate(l.removed, DroppedByCap)
                        + CountFate(l.removed, Discarded)
      && CountFate(l.removed, DroppedByCap) == Overfull(cap, ops)
  {
    hide Drained, Overfull, Events, CountFate;
    var l := After(cap, ops);
    CountsCover(l.removed);
    if ops == [] {
      NothingYet<T>(cap);
    } else {
      var rest, op := ops[..|ops| - 1], ops[|ops| - 1];
      LedgerBalances(cap, rest);
      OverfullStep(cap, ops);
      if op.Drain? {
        DrainBalances(After(cap, rest), op.connected);
      }
    }
  }

  lemma NothingYet<T>(cap: nat)
    ensures Events<T>([]) == [] && (forall f :: CountFate<T>([], f) == 0) && Overfull<T>(cap, []) == 0
  {
  }

  lemma OverfullStep<T>(cap: nat, ops: seq<Op<T>>)
    requires ops != []
    ensures var rest, op := ops[..|ops| - 1], ops[|ops| - 1];
      Overfull(cap, ops) == Overfull(cap, rest)
        + (if op.Drain? && op.connected && |After(cap, rest).queue| > COMBAT_CAP then 1 else 0)
  {
  }

  lemma DrainBalances<T>(k: Ledger<T>, connected: bool)
    requires k.accepted == Events(k.removed) + k.queue
    ensures var d := Drained(k.queue, connected);
      && |d| <= |k.queue| && k.accepted == Events(k.removed + d) + k.queue[|d|..]
      && CountFate(k.removed + d, DroppedByCap) == CountFate(k.removed, DroppedByCap)
         + (if connected && |k.queue| > COMBAT_CAP then 1 else 0)
  {
    var d := Drained(k.queue, connected);
    DrainedIsPrefix(k.queue, connected);
    assert Events(k.removed + d) == Events(k.removed) + Events(d);
    assert Events(d) + k.queue[|d|..] == k.queue;
    CountConcat(k.removed, d, DroppedByCap);
    DropsPerDrain(k.queue, connected);
  }
}
