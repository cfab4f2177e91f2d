/** Per-player message rate limits, and what forgetting old timestamps may change. */
module RateLimits {
  import opened Base

  /** Timestamps of the messages recorded for each player, in seconds. */
  type Limits = map<U32, seq<real>>

  datatype Op = Record(id: U32, at: real) | Cleanup(at: real, window: real)

  function Within(ts: seq<real>, now: real, window: real): nat {
    if ts == [] then 0
    else Within(ts[..|ts| - 1], now, window) + (if now - ts[|ts| - 1] <= window then 1 else 0)
  }

  function Kept(ts: seq<real>, now: real, window: real): seq<real> {
    if ts == [] then []
    else Kept(ts[..|ts| - 1], now, window) + (if now - ts[|ts| - 1] > window then [] else [ts[|ts| - 1]])
  }

  predicate Throttled(l: Limits, id: U32, now: real, window: real, maxMessages: int) {
    id in l && Within(l[id], now, window) >= maxMessages
  }

  /** An entry whose timestamps are all gone stays in the map. */
  function On(l: Limits, op: Op): Limits {
    match op
    case Record(id, at) => l[id := (if id in l then l[id] else []) + [at]]
    case Cleanup(at, window) => map id | id in l :: Kept(l[id], at, window)
  }

  function After(ops: seq<Op>): Limits {
    if ops == [] then map[] else On(After(ops[..|ops| - 1]), ops[|ops| - 1])
  }

  // ---- What a verdict means ----------------------------------------------------------------

  /** Messages ever recorded for id and at most `window` old. */
  function Recent(ops: seq<Op>, id: U32, now: real, window: real): nat {
    if ops == [] then 0
    else
      var op := ops[|ops| - 1];
      Recent(ops[..|ops| - 1], id, now, window)
      + (if op.Record? && op.id == id && now - op.at <= window then 1 else 0)
  }

  ghost predicate Known(ops: seq<Op>, id: U32) {
    exists i :: 0 <= i < |ops| && ops[i].Record? && ops[i].id == id
  }

  /** No cleanup lies ahead of the clock or used a shorter window. */
  ghost predicate Covered(ops: seq<Op>, now: real, window: real) {
    forall i :: 0 <= i < |ops| && ops[i].Cleanup? ==> ops[i].at <= now && window <= ops[i].window
  }

  /** A cleanup keeps exactly the timestamps at most `window` old, in their order. */
  lemma {:induction false} KeptInOrder(ts: seq<real>, now: real, window: real) returns (at: seq<int>)
    ensures forall j, k :: 0 <= j < k < |at| ==> at[j] < at[k]
    ensures forall i :: i in at <==> 0 <= i < |ts| && now - ts[i] <= window
    ensures |Kept(ts, now, window)| == |at|
    ensures forall j :: 0 <= j < |at| ==> 0 <= at[j] < |ts| && Kept(ts, now, window)[j] == ts[at[j]]
  {
    at := [];
    if ts != [] {
      var n := |ts| - 1;
      at := KeptInOrder(ts[..n], now, window);
      assert forall i :: 0 <= i < n ==> ts[..n][i] == ts[i];
      if now - ts[n] <= window {
        at := at + [n];
      }
    }
  }

  lemma {:induction false} KeptCounts(ts: seq<real>, at: real, w: real, now: real, window: real)
    requires at <= now && window <= w
    ensures Within(Kept(ts, at, w), now, window) == Within(ts, now, window)
  {
    if ts != [] {
      var rest := Kept(ts[..|ts| - 1], at, w);
      KeptCounts(ts[..|ts| - 1], at, w, now, window);
      assert rest + [] == rest && (rest + [ts[|ts| - 1]])[..|rest|] == rest;
    }
  }

  lemma {:induction false} CountIsRecent(ops: seq<Op>, id: U32, now: real, window: real)
    requires Covered(ops, now, window)
    ensures id in After(ops) <==> Known(ops, id)
    ensures id in After(ops) ==> Within(After(ops)[id], now, window) == Recent(ops, id, now, window)
    ensures id !in After(ops) ==> Recent(ops, id, now, window) == 0
  {
    hide Within, Kept, Known;
    if ops == [] {
      NobodyKnown(id);
    } else {
      var p, op := ops[..|ops| - 1], ops[|ops| - 1];
      CountIsRecent(p, id, now, window);
      KnownSnoc(p, op, id);
      assert p + [op] == ops;
      if op.Record? && op.id == id {
        WithinSnoc(if id in After(p) then After(p)[id] else [], op.at, now, window);
      } else if op.Cleanup? && id in After(p) {
        KeptCounts(After(p)[id], op.at, op.window, now, window);
      }
    }
  }

  lemma NobodyKnown(id: U32)
    ensures !Known([], id)
  {
  }

  lemma WithinSnoc(ts: seq<real>, at: real, now: real, window: real)
    ensures Within([], now, window) == 0
    ensures Within(ts + [at], now, window) == Within(ts, now, window) + (if now - at <= window then 1 else 0)
  {
    assert (ts + [at])[..|ts|] == ts;
  }

  /** A player is throttled exactly when enough of the messages ever recorded lie
      in the window, whatever cleanups with at least that window ran before. */
  lemma VerdictExact(ops: seq<Op>, id: U32, now: real, window: real, maxMessages: int)
    requires Covered(ops, now, window)
    ensures Throttled(After(ops), id, now, window, maxMessages) <==>
      Known(ops, id) && Recent(ops, id, now, window) >= maxMessages
  {
    hide Within, Recent, After, Known, Covered;
    CountIsRecent(ops, id, now, window);
  }

  function WithoutCleanups(ops: seq<Op>): seq<Op> {
    if ops == [] then []
    else WithoutCleanups(ops[..|ops| - 1]) + (if ops[|ops| - 1].Cleanup? then [] else [ops[|ops| - 1]])
  }

  lemma {:induction false} RecordsRemain(ops: seq<Op>, id: U32, now: real, window: real)
    ensures Recent(WithoutCleanups(ops), id, now, window) == Recent(ops, id, now, window)
    ensures Known(WithoutCleanups(ops), id) <==> Known(ops, id)
    ensures forall i :: 0 <= i < |WithoutCleanups(ops)| ==> WithoutCleanups(ops)[i].Record?
  {
    if ops != [] {
      var p, op := ops[..|ops| - 1], ops[|ops| - 1];
      var q := WithoutCleanups(p);
      RecordsRemain(p, id, now, window);
      KnownSnoc(p, op, id);
      assert p + [op] == ops;
      if op.Record? {
        KnownSnoc(q, op, id);
        assert (q + [op])[..|q|] == q;
      } else {
        assert q + [] == q;
      }
    }
  }

  lemma KnownSnoc(p: seq<Op>, op: Op, id: U32)
    ensures Known(p + [op], id) <==> Known(p, id) || (op.Record? && op.id == id)
  {
    var ops := p + [op];
    assert forall i :: 0 <= i < |p| ==> ops[i] == p[i];
    assert ops[|p|] == op;
  }

  /** Cleaning up with window w never changes a later verdict whose window is at
      most w: the verdict is the one of a limiter that never cleans up. */
  lemma CleanupInvisible(ops: seq<Op>, id: U32, now: real, window: real, maxMessages: int)
    requires Covered(ops, now, window)
    ensures Throttled(After(ops), id, now, window, maxMessages) <==>
      Throttled(After(WithoutCleanups(ops)), id, now, window, maxMessages)
  {
    hide Throttled, Recent, After, Known, WithoutCleanups;
    RecordsRemain(ops, id, now, window);
    VerdictExact(ops, id, now, window, maxMessages);
    VerdictExact(WithoutCleanups(ops), id, now, window, maxMessages);
  }

  /** A shorter cleanup window is visible. */
  lemma ShortCleanupForgets()
    ensures var ops := [Record(1, 0.0), Cleanup(3.0, 2.0)];
      !Throttled(After(ops), 1, 3.0, 5.0, 1) && Throttled(After(WithoutCleanups(ops)), 1, 3.0, 5.0, 1)
  {
    var ops := [Record(1, 0.0), Cleanup(3.0, 2.0)];
    assert ops[..1] == [Record(1, 0.0)] && ops[..1][..0] == [];
    assert After([]) == map[] && [] + [0.0] == [0.0];
    assert After([Record(1, 0.0)]) == On(After([]), Record(1, 0.0));
    assert After([Record(1, 0.0)])[1] == [0.0];
    assert [0.0][..0] == [];
    assert Kept([0.0], 3.0, 2.0) == [];
    assert WithoutCleanups([Record(1, 0.0)]) == [Record(1, 0.0)] by { assert [Record(1, 0.0)][..0] == []; }
    assert WithoutCleanups(ops) == [Record(1, 0.0)];
  }

  class RateLimiter {
    var limits: Limits

    constructor ()
      ensures limits == map[]
    {
      limits := map[];
    }

    method CheckRateLimit(id: U32, now: real, window: real, maxMessages: int) returns (throttled: bool)
      ensures throttled == Throttled(limits, id, now, window, maxMessages)
    {
      if id !in limits {
        return false;
      }
      var timestamps := limits[id];
      var count := 0;
      for i := 0 to |timestamps|
        invariant count == Within(timestamps[..i], now, window)
      {
        assert timestamps[..i + 1][..i] == timestamps[..i];
        if now - timestamps[i] <= window {
          count := count + 1;
        }
      }
      assert timestamps[..|timestamps|] == timestamps;
      return count >= maxMessages;
    }

    method RecordMessage(id: U32, now: real)
      modifies this
      ensures limits == On(old(limits), Record(id, now))
    {
      limits := limits[id := (if id in limits then limits[id] else []) + [now]];
    }

    method CleanupRateLimits(now: real, window: real)
      modifies this
      ensures limits == On(old(limits), Cleanup(now, window))
    {
      var todo := limits.Keys;
      while todo != {}
        invariant todo <= limits.Keys == old(limits).Keys
        invariant forall id :: id in todo ==> limits[id] == old(limits)[id]
        invariant forall id :: id in limits && id !in todo ==> limits[id] == Kept(old(limits)[id], now, window)
        decreases |todo|
      {
        var id :| id in todo;
        todo := todo - {id};
        var kept := Filter(limits[id], now, window);
        limits := limits[id := kept];
      }
    }

    /** std::remove_if with erase: the survivors keep their order. */
    method Filter(ts: seq<real>, now: real, window: real) returns (kept: seq<real>)
      ensures kept == Kept(ts, now, window)
    {
      kept := [];
      for i := 0 to |ts|
        invariant kept == Kept(ts[..i], now, window)
      {
        assert ts[..i + 1][..i] == ts[..i];
        if !(now - ts[i] > window) {
          kept := kept + [ts[i]];
        }
      }
      assert ts[..|ts|] == ts;
    }
  }
}
