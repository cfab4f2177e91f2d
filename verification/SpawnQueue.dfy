/** The client's queue of characters to create: the hook drain with its template
    priorities and bounded retry, the direct spawn with its per-player cap, and
    where every queued request ends up. */
module SpawnQueue {
  import opened Base
  import opened ModTemplates

  const MAX_SPAWN_RETRIES: nat := 200
  const MAX_DIRECT_SPAWNS_PER_PLAYER: nat := 1

  datatype Request = Request(netId: U32, owner: U32, templateName: string, position: Vec3, retryCount: U32)

  /** What the spawner knows when a drain starts. */
  datatype Catalog = Catalog(
    characters: map<string, Ptr>,
    lastCharacter: Ptr,
    inputs: map<string, Ptr>,
    lastInput: Ptr,
    mods: seq<Ptr>,
    modCount: nat,
    factory: Ptr,
    process: bool)

  /** What the game answers for one request, by template, and what the network
      thread queues meanwhile. created: RootObjectFactory::create; processed: the
      trampoline. */
  datatype Answer = Answer(created: Ptr -> Ptr, processed: Ptr -> Ptr, arrivals: seq<Request>)

  datatype Exit = Spawned(character: Ptr) | Direct(character: Ptr) | Dropped | Cleared | Capped

  predicate ValidCharacter(p: Ptr) {
    0x10000 < p < 0x0000_7FFF_FFFF_FFFF && p % 8 == 0
  }

  function Lookup(m: map<string, Ptr>, name: string): Ptr {
    if name != "" && name in m then m[name] else 0
  }

  /** Named character, last character, named factory input, last factory input. */
  function ChooseTemplate(c: Catalog, name: string): Ptr {
    if Lookup(c.characters, name) != 0 then Lookup(c.characters, name)
    else if c.lastCharacter != 0 then c.lastCharacter
    else if Lookup(c.inputs, name) != 0 then Lookup(c.inputs, name)
    else c.lastInput
  }

  /** The four fallbacks in the order they are tried. */
  function Fallbacks(c: Catalog, name: string): seq<Ptr> {
    [Lookup(c.characters, name), c.lastCharacter, Lookup(c.inputs, name), c.lastInput]
  }

  /** t is the first non-null entry; null when there is none. */
  ghost predicate FirstNonNull(ts: seq<Ptr>, t: Ptr) {
    if t == 0 then forall k :: 0 <= k < |ts| ==> ts[k] == 0
    else exists k :: 0 <= k < |ts| && ts[k] == t && forall j :: 0 <= j < k ==> ts[j] == 0
  }

  /** A named character template is preferred, then the latest character seen, then
      a named factory input, then the latest factory input. */
  lemma ChoiceIsFirst(c: Catalog, name: string)
    ensures FirstNonNull(Fallbacks(c, name), ChooseTemplate(c, name))
  {
    var ts, t := Fallbacks(c, name), ChooseTemplate(c, name);
    if t != 0 {
      var k := if ts[0] != 0 then 0 else if ts[1] != 0 then 1 else if ts[2] != 0 then 2 else 3;
      assert ts[k] == t && forall j :: 0 <= j < k ==> ts[j] == 0;
    }
  }

  /** The mod template of the owner's slot; null when there is none. */
  function ModTemplate(c: Catalog, owner: U32): Ptr {
    var slot := ModSlot(owner, c.modCount);
    if slot < MAX_MOD_TEMPLATES && slot < |c.mods| then c.mods[slot] else 0
  }

  function FromMod(c: Catalog, owner: U32, created: Ptr -> Ptr): Ptr {
    var template := ModTemplate(c, owner);
    if template != 0 && c.factory != 0 && ValidCharacter(created(template)) then created(template) else 0
  }

  /** The character made for a request, or 0. */
  function Made(c: Catalog, r: Request, a: Answer): Ptr {
    var mod := FromMod(c, r.owner, a.created);
    if mod != 0 then mod
    else if ChooseTemplate(c, r.templateName) == 0 then 0
    else a.processed(ChooseTemplate(c, r.templateName))
  }

  function Retried(r: Request): Request {
    r.(retryCount := Inc32(r.retryCount))
  }

  // ---- The drain -------------------------------------------------------------------

  type Gone = seq<(Request, Exit)>

  /** arrived: queued meanwhile; retry: to be queued again; gone: finished. */
  datatype Progress = Progress(arrived: seq<Request>, retry: seq<Request>, gone: Gone)

  function At(answers: seq<Answer>, i: nat): Answer {
    if i < |answers| then answers[i] else Answer(_ => 0, _ => 0, [])
  }

  function Handle(c: Catalog, p: Progress, r: Request, a: Answer): Progress {
    var character := Made(c, r, a);
    var more := p.arrived + a.arrivals;
    if character != 0 then Progress(more, p.retry, p.gone + [(r, Spawned(character))])
    else if Retried(r).retryCount < MAX_SPAWN_RETRIES then Progress(more, p.retry + [Retried(r)], p.gone)
    else Progress(more, p.retry, p.gone + [(r, Dropped)])
  }

  function Drained(c: Catalog, q: seq<Request>, answers: seq<Answer>): Progress {
    if q == [] then Progress([], [], [])
    else Handle(c, Drained(c, q[..|q| - 1], answers), q[|q| - 1], At(answers, |q| - 1))
  }

  // ---- Filtering by owner -----------------------------------------------------------

  function Others(q: seq<Request>, owner: U32): seq<Request> {
    if q == [] then []
    else Others(q[..|q| - 1], owner) + (if q[|q| - 1].owner == owner then [] else [q[|q| - 1]])
  }

  function Removed(q: seq<Request>, owner: U32): Gone {
    if q == [] then []
    else Removed(q[..|q| - 1], owner) + (if q[|q| - 1].owner == owner then [(q[|q| - 1], Cleared)] else [])
  }

  // ---- The queue over a whole session -------------------------------------------------

  /** queued and gone are history: every request ever queued, every one that left. */
  datatype Desk = Desk(queue: seq<Request>, direct: map<U32, nat>, queued: seq<Request>, gone: Gone)

  const EMPTY_DESK := Desk([], map[], [], [])

  datatype Op =
    | Queue(r: Request)
    | ClearOwner(owner: U32)
    | Drain(catalog: Catalog, answers: seq<Answer>)
    | DirectSpawn(modCount: nat, fromMod: nat -> Ptr, random: Ptr)

  function Count(m: map<U32, nat>, owner: U32): nat {
    if owner in m then m[owner] else 0
  }

  function OnDrain(d: Desk, c: Catalog, answers: seq<Answer>): Desk {
    if d.queue == [] || !c.process then d
    else
      var p := Drained(c, d.queue, answers);
      Desk(p.arrived + p.retry, d.direct, d.queued + p.arrived, d.gone + p.gone)
  }

  /** The mod template of the owner's slot, if any was found and works, else the
      random character. */
  function DirectCharacter(owner: U32, modCount: nat, fromMod: nat -> Ptr, random: Ptr): Ptr {
    if modCount > 0 && fromMod(ModSlot(owner, modCount)) != 0 then fromMod(ModSlot(owner, modCount)) else random
  }

  function OnDirect(d: Desk, modCount: nat, fromMod: nat -> Ptr, random: Ptr): Desk {
    if d.queue == [] then d
    else
      var r, rest := d.queue[0], d.queue[1..];
      var character := DirectCharacter(r.owner, modCount, fromMod, random);
      if Count(d.direct, r.owner) >= MAX_DIRECT_SPAWNS_PER_PLAYER then d.(queue := rest, gone := d.gone + [(r, Capped)])
      else if ValidCharacter(character) then
        Desk(rest, d.direct[r.owner := Count(d.direct, r.owner) + 1], d.queued, d.gone + [(r, Direct(character))])
      else if Retried(r).retryCount < MAX_SPAWN_RETRIES then d.(queue := rest + [Retried(r)])
      else d.(queue := rest, gone := d.gone + [(r, Dropped)])
  }

  function On(d: Desk, op: Op): Desk {
    match op
    case Queue(r) => d.(queue := d.queue + [r], queued := d.queued + [r])
    case ClearOwner(owner) => d.(queue := Others(d.queue, owner), gone := d.gone + Removed(d.queue, owner))
    case Drain(c, answers) => OnDrain(d, c, answers)
    case DirectSpawn(modCount, fromMod, random) => OnDirect(d, modCount, fromMod, random)
  }

  function After(ops: seq<Op>): Desk {
    if ops == [] then EMPTY_DESK else On(After(ops[..|ops| - 1]), ops[|ops| - 1])
  }

  /** Callers queue requests that have not been tried yet. */
  predicate Fresh(q: seq<Request>) {
    forall i :: 0 <= i < |q| ==> q[i].retryCount == 0
  }

  predicate Lawful(op: Op) {
    match op
    case Queue(r) => r.retryCount == 0
    case Drain(_, answers) => forall i :: 0 <= i < |answers| ==> Fresh(answers[i].arrivals)
    case _ => true
  }

  // ---- Conservation -----------------------------------------------------------------

  /** How many entries of q stand for the request first queued as `who`. */
  function Tally(q: seq<Request>, who: Request): nat {
    if q == [] then 0
    else Tally(q[..|q| - 1], who) + (if q[|q| - 1].(retryCount := who.retryCount) == who then 1 else 0)
  }

  function Requests(g: Gone): seq<Request> {
    if g == [] then [] else Requests(g[..|g| - 1]) + [g[|g| - 1].0]
  }

  ghost predicate Conserved(d: Desk) {
    forall who :: Tally(d.queued, who) == Tally(d.queue, who) + Tally(Requests(d.gone), who)
  }

  lemma {:induction false} TallyConcat(a: seq<Request>, b: seq<Request>, who: Request)
    ensures Tally(a + b, who) == Tally(a, who) + Tally(b, who)
  {
    if b == [] {
      assert a + b == a;
    } else {
      TallyConcat(a, b[..|b| - 1], who);
      assert (a + b)[..|a + b| - 1] == a + b[..|b| - 1];
    }
  }

  /** Counting a retry does not change which request it is. */
  lemma TallySnoc(q: seq<Request>, r: Request, who: Request)
    ensures Tally(q + [r], who) == Tally(q, who) + Tally([r], who)
    ensures Tally([Retried(r)], who) == Tally([r], who)
  {
    TallyConcat(q, [r], who);
  }

  lemma RequestsSnoc(g: Gone, r: Request, e: Exit)
    ensures Requests(g + [(r, e)]) == Requests(g) + [r]
  {
    assert (g + [(r, e)])[..|g|] == g;
  }

  lemma {:induction false} RequestsConcat(a: Gone, b: Gone)
    ensures Requests(a + b) == Requests(a) + Requests(b)
  {
    if b == [] {
      assert a + b == a;
    } else {
      RequestsConcat(a, b[..|b| - 1]);
      assert (a + b)[..|a + b| - 1] == a + b[..|b| - 1];
    }
  }

  /** A drain accounts for each request it took: spawned, dropped or queued again. */
  lemma {:induction false} DrainConserves(c: Catalog, q: seq<Request>, answers: seq<Answer>, who: Request)
    ensures var p := Drained(c, q, answers);
      Tally(q, who) == Tally(p.retry, who) + Tally(Requests(p.gone), who)
  {
    hide Made, Requests, Tally, Retried;
    if q == [] {
      NothingQueued(who);
    } else {
      var r, a := q[|q| - 1], At(answers, |q| - 1);
      var p := Drained(c, q[..|q| - 1], answers);
      DrainConserves(c, q[..|q| - 1], answers, who);
      assert q == q[..|q| - 1] + [r];
      TallySnoc(q[..|q| - 1], r, who);
      TallySnoc(p.retry, Retried(r), who);
      TallySnoc(Requests(p.gone), r, who);
      RequestsSnoc(p.gone, r, Dropped);
      RequestsSnoc(p.gone, r, Spawned(Made(c, r, a)));
    }
  }

  lemma NothingQueued(who: Request)
    ensures Requests([]) == [] && Tally([], who) == 0
  {
  }

  /** Clearing keeps the other owners' requests and accounts for the rest. */
  lemma {:induction false} ClearConserves(q: seq<Request>, owner: U32, who: Request)
    ensures Tally(q, who) == Tally(Others(q, owner), who) + Tally(Requests(Removed(q, owner)), who)
  {
    hide Requests, Tally;
    if q == [] {
      NothingQueued(who);
    } else {
      var p, r := q[..|q| - 1], q[|q| - 1];
      ClearConserves(p, owner, who);
      assert q == p + [r];
      assert Others(p, owner) + [] == Others(p, owner) && Removed(p, owner) + [] == Removed(p, owner);
      TallySnoc(p, r, who);
      TallySnoc(Others(p, owner), r, who);
      TallySnoc(Requests(Removed(p, owner)), r, who);
      RequestsSnoc(Removed(p, owner), r, Cleared);
    }
  }

  /** After a clear nothing of that owner is left, and everyone else is. */
  lemma {:induction false} ClearExact(q: seq<Request>, owner: U32)
    ensures forall r :: r in Others(q, owner) <==> r in q && r.owner != owner
  {
    if q != [] {
      ClearExact(q[..|q| - 1], owner);
      assert forall r :: r in q <==> r in q[..|q| - 1] || r == q[|q| - 1];
    }
  }

  lemma StepConserves(d: Desk, op: Op)
    requires Conserved(d)
    ensures Conserved(On(d, op))
  {
    hide Tally, Requests, On;
    forall who
      ensures var e := On(d, op);
        Tally(e.queued, who) == Tally(e.queue, who) + Tally(Requests(e.gone), who)
    {
      OnConserves(d, op, who);
    }
  }

  lemma OnConserves(d: Desk, op: Op, who: Request)
    requires Tally(d.queued, who) == Tally(d.queue, who) + Tally(Requests(d.gone), who)
    ensures var e := On(d, op);
      Tally(e.queued, who) == Tally(e.queue, who) + Tally(Requests(e.gone), who)
  {
    hide Tally, Requests, Drained, Others, Removed, Retried, ValidCharacter, Count;
    match op {
      case Queue(r) =>
        TallyConcat(d.queued, [r], who);
        TallyConcat(d.queue, [r], who);
      case ClearOwner(owner) =>
        ClearConserves(d.queue, owner, who);
        RequestsConcat(d.gone, Removed(d.queue, owner));
        TallyConcat(Requests(d.gone), Requests(Removed(d.queue, owner)), who);
      case Drain(c, answers) =>
        var p := Drained(c, d.queue, answers);
        DrainConserves(c, d.queue, answers, who);
        TallyConcat(p.arrived, p.retry, who);
        TallyConcat(d.queued, p.arrived, who);
        RequestsConcat(d.gone, p.gone);
        TallyConcat(Requests(d.gone), Requests(p.gone), who);
      case DirectSpawn(_, _, _) =>
        if d.queue != [] {
          var r, rest := d.queue[0], d.queue[1..];
          assert d.queue == [r] + rest;
          TallyConcat([r], rest, who);
          TallyConcat(rest, [Retried(r)], who);
          TallySnoc(rest, r, who);
          TallyConcat(Requests(d.gone), [r], who);
          forall e ensures Requests(d.gone + [(r, e)]) == Requests(d.gone) + [r] {
            RequestsSnoc(d.gone, r, e);
          }
        }
    }
  }

  // ---- Bounded retry -----------------------------------------------------------------

  /** Everything in q was tried at least k times and may be tried again. */
  predicate Aged(q: seq<Request>, k: nat) {
    forall i :: 0 <= i < |q| ==> k <= q[i].retryCount < MAX_SPAWN_RETRIES
  }

  lemma {:induction false} DrainAges(c: Catalog, q: seq<Request>, answers: seq<Answer>, k: nat)
    requires Aged(q, k)
    ensures Aged(Drained(c, q, answers).retry, k + 1)
  {
    hide Made;
    if q != [] {
      DrainAges(c, q[..|q| - 1], answers, k);
    }
  }

  lemma {:induction false} ArrivalsFresh(c: Catalog, q: seq<Request>, answers: seq<Answer>)
    requires forall i :: 0 <= i < |answers| ==> Fresh(answers[i].arrivals)
    ensures Fresh(Drained(c, q, answers).arrived)
  {
    hide Made;
    if q != [] {
      ArrivalsFresh(c, q[..|q| - 1], answers);
    }
  }

  /** No player is given two characters by direct spawning. */
  ghost predicate OneDirectEach(d: Desk) {
    && (forall o :: o in d.direct ==> d.direct[o] <= MAX_DIRECT_SPAWNS_PER_PLAYER)
    && (forall i :: 0 <= i < |d.gone| && d.gone[i].1.Direct? ==> Count(d.direct, d.gone[i].0.owner) >= 1)
    && (forall i, j :: 0 <= i < j < |d.gone| && d.gone[i].1.Direct? && d.gone[j].1.Direct? ==>
          d.gone[i].0.owner != d.gone[j].0.owner)
  }

  ghost predicate NoDirect(g: Gone) {
    forall i :: 0 <= i < |g| ==> !g[i].1.Direct?
  }

  lemma {:induction false} DrainHasNoDirect(c: Catalog, q: seq<Request>, answers: seq<Answer>)
    ensures NoDirect(Drained(c, q, answers).gone)
  {
    hide Made;
    if q != [] {
      DrainHasNoDirect(c, q[..|q| - 1], answers);
    }
  }

  lemma {:induction false} ClearHasNoDirect(q: seq<Request>, owner: U32)
    ensures NoDirect(Removed(q, owner))
  {
    if q != [] {
      ClearHasNoDirect(q[..|q| - 1], owner);
    }
  }

  lemma StepKeepsOneDirect(d: Desk, op: Op)
    requires OneDirectEach(d)
    ensures OneDirectEach(On(d, op))
  {
    hide Drained, Others, Removed, ValidCharacter, Retried, Lookup, Made;
    match op {
      case Queue(_) =>
      case ClearOwner(owner) => ClearHasNoDirect(d.queue, owner);
      case Drain(c, answers) => DrainHasNoDirect(c, d.queue, answers);
      case DirectSpawn(_, _, _) =>
    }
  }

  lemma StepKeepsAged(d: Desk, op: Op)
    requires Aged(d.queue, 0) && Lawful(op)
    ensures Aged(On(d, op).queue, 0)
  {
    hide Drained, Others, Removed, ValidCharacter;
    match op {
      case Queue(_) =>
      case ClearOwner(owner) =>
        ClearExact(d.queue, owner);
        var q := Others(d.queue, owner);
        assert forall i :: 0 <= i < |q| ==> q[i] in d.queue;
      case Drain(c, answers) =>
        DrainAges(c, d.queue, answers, 0);
        ArrivalsFresh(c, d.queue, answers);
      case DirectSpawn(_, _, _) =>
    }
  }

  /** Over any session: nothing queued is lost or invented, no waiting request has
      been tried 200 times, and direct spawning makes at most one character a player. */
  lemma {:induction false} SpawnLedgerOverRuns(ops: seq<Op>)
    requires forall i :: 0 <= i < |ops| ==> Lawful(ops[i])
    ensures Conserved(After(ops)) && Aged(After(ops).queue, 0) && OneDirectEach(After(ops))
  {
    hide On;
    if ops != [] {
      var d := After(ops[..|ops| - 1]);
      SpawnLedgerOverRuns(ops[..|ops| - 1]);
      StepConserves(d, ops[|ops| - 1]);
      StepKeepsAged(d, ops[|ops| - 1]);
      StepKeepsOneDirect(d, ops[|ops| - 1]);
    }
  }

  // ---- Order and termination of drains ---------------------------------------------------

  /** The survivors of a drain, by position in the drained queue. */
  ghost predicate Survivors(c: Catalog, q: seq<Request>, answers: seq<Answer>, at: seq<nat>) {
    && (forall j :: 0 <= j < |at| ==> at[j] < |q|)
    && (forall j, k :: 0 <= j < k < |at| ==> at[j] < at[k])
    && (forall i :: 0 <= i < |q| ==>
          (i in at <==> Made(c, q[i], At(answers, i)) == 0 && Retried(q[i]).retryCount < MAX_SPAWN_RETRIES))
  }

  /** Exactly the failed requests with tries left are queued again, in their old
      order, each with one more try counted. */
  lemma {:induction false} SurvivorsKeepOrder(c: Catalog, q: seq<Request>, answers: seq<Answer>) returns (at: seq<nat>)
    ensures Survivors(c, q, answers, at)
    ensures var retry := Drained(c, q, answers).retry;
      |retry| == |at| && forall j :: 0 <= j < |at| ==> retry[j] == Retried(q[at[j]])
  {
    hide Made, Retried, At;
    if q == [] {
      at := [];
    } else {
      var n := |q| - 1;
      at := SurvivorsKeepOrder(c, q[..n], answers);
      assert forall i :: 0 <= i < n ==> q[..n][i] == q[i];
      assert forall j :: 0 <= j < |at| ==> q[..n][at[j]] == q[at[j]];
      if Made(c, q[n], At(answers, n)) == 0 && Retried(q[n]).retryCount < MAX_SPAWN_RETRIES {
        at := at + [n];
      }
    }
  }

  // ---- Positions after each operation ------------------------------------------------------

  /** Every request drained: those queued meanwhile occupy the stretch of q' that
      starts[i] to starts[i + 1] names, in the order they came. */
  ghost predicate ArrivedAt(q': seq<Request>, n: nat, answers: seq<Answer>, starts: seq<nat>) {
    && |starts| == n + 1 && starts[0] == 0 && starts[n] <= |q'|
    && forall i :: 0 <= i < n ==> Arrival(q', At(answers, i).arrivals, starts[i], starts[i + 1])
  }

  ghost predicate Arrival(q': seq<Request>, batch: seq<Request>, start: nat, end: nat) {
    && end == start + |batch| && end <= |q'|
    && forall j :: 0 <= j < |batch| ==> q'[start + j] == batch[j]
  }

  lemma {:induction false} ArrivalsInOrder(c: Catalog, q: seq<Request>, answers: seq<Answer>) returns (starts: seq<nat>)
    ensures var arrived := Drained(c, q, answers).arrived;
      ArrivedAt(arrived, |q|, answers, starts) && starts[|q|] == |arrived|
  {
    hide Made, Retried, At, Arrival;
    if q == [] {
      starts := [0];
    } else {
      var n := |q| - 1;
      var front := ArrivalsInOrder(c, q[..n], answers);
      var old', batch := Drained(c, q[..n], answers).arrived, At(answers, n).arrivals;
      starts := front + [|old'| + |batch|];
      ArrivesLast(old', batch);
      forall i | 0 <= i < n
        ensures Arrival(old' + batch, At(answers, i).arrivals, starts[i], starts[i + 1])
      {
        assert Arrival(old', At(answers, i).arrivals, front[i], front[i + 1]);
        ArrivalStays(old', batch, At(answers, i).arrivals, front[i], front[i + 1]);
      }
    }
  }

  lemma ArrivesLast(q: seq<Request>, batch: seq<Request>)
    ensures Arrival(q + batch, batch, |q|, |q| + |batch|)
  {
  }

  lemma ArrivalStays(q: seq<Request>, more: seq<Request>, batch: seq<Request>, start: nat, end: nat)
    requires Arrival(q, batch, start, end)
    ensures Arrival(q + more, batch, start, end)
  {
  }

  /** r after one more failed try. */
  ghost predicate OneMoreTry(r: Request, r': Request) {
    r' == r.(retryCount := if r.retryCount == 0xFFFF_FFFF then 0 else r.retryCount + 1)
  }

  /** Nothing could be made for r, and it has tries left of its 200. */
  ghost predicate TryAgain(c: Catalog, r: Request, a: Answer) {
    Made(c, r, a) == 0 && (r.retryCount < 199 || r.retryCount == 0xFFFF_FFFF)
  }

  /** Request i of the drained queue is tried again, or it leaves. */
  ghost predicate StaysAt(c: Catalog, q: seq<Request>, answers: seq<Answer>, i: nat) {
    i < |q| && TryAgain(c, q[i], At(answers, i))
  }

  ghost predicate LeavesAt(c: Catalog, q: seq<Request>, answers: seq<Answer>, i: nat) {
    i < |q| && !TryAgain(c, q[i], At(answers, i))
  }

  ghost predicate Increasing(at: seq<nat>) {
    forall j, k :: 0 <= j < k < |at| ==> at[j] < at[k]
  }

  /** How a request that is not tried again leaves: with its character, or dropped. */
  ghost predicate Leaves(c: Catalog, r: Request, a: Answer, g: (Request, Exit)) {
    g.0 == r && g.1 == if Made(c, r, a) != 0 then Spawned(Made(c, r, a)) else Dropped
  }

  lemma OneLeaves(c: Catalog, p: Progress, r: Request, a: Answer)
    ensures var gone := Handle(c, p, r, a).gone;
      if TryAgain(c, r, a) then gone == p.gone
      else |gone| == |p.gone| + 1 && gone[..|p.gone|] == p.gone && Leaves(c, r, a, gone[|p.gone|])
  {
    hide Made;
  }

  lemma {:induction false} LeaversInOrder(c: Catalog, q: seq<Request>, answers: seq<Answer>) returns (out: seq<nat>)
    ensures Increasing(out) && forall i: nat :: i in out <==> LeavesAt(c, q, answers, i)
    ensures var gone := Drained(c, q, answers).gone;
      |gone| == |out| && forall j :: 0 <= j < |out| ==>
        LeavesAt(c, q, answers, out[j]) && Leaves(c, q[out[j]], At(answers, out[j]), gone[j])
  {
    hide Handle, TryAgain, Leaves, At;
    if q == [] {
      out := [];
    } else {
      var n := |q| - 1;
      OneLeaves(c, Drained(c, q[..n], answers), q[n], At(answers, n));
      out := LeaversInOrder(c, q[..n], answers);
      assert forall i: nat :: i < n ==> (LeavesAt(c, q[..n], answers, i) <==> LeavesAt(c, q, answers, i));
      assert forall j :: 0 <= j < |out| ==> out[j] in out && q[..n][out[j]] == q[out[j]];
      if LeavesAt(c, q, answers, n) {
        out := out + [n];
      }
    }
  }

  /** A drain leaves the requests that came meanwhile in the order they came, and
      behind them those that failed and have tries left, in their old order, each
      with one more try. The others have left, in order, with their character or
      dropped. Without the factory function nothing happens. */
  ghost predicate DrainedTo(d: Desk, d': Desk, c: Catalog, answers: seq<Answer>,
                            starts: seq<nat>, at: seq<nat>, out: seq<nat>) {
    var q := d.queue;
    if q == [] || !c.process then d' == d
    else
      && ArrivedAt(d'.queue, |q|, answers, starts) && |d'.queue| == starts[|q|] + |at|
      && Increasing(at) && (forall i: nat :: i in at <==> StaysAt(c, q, answers, i))
      && (forall j :: 0 <= j < |at| ==>
            StaysAt(c, q, answers, at[j]) && OneMoreTry(q[at[j]], d'.queue[starts[|q|] + j]))
      && Increasing(out) && (forall i: nat :: i in out <==> LeavesAt(c, q, answers, i))
      && |d'.gone| == |d.gone| + |out| && d'.gone[..|d.gone|] == d.gone
      && (forall j :: 0 <= j < |out| ==>
            LeavesAt(c, q, answers, out[j]) && Leaves(c, q[out[j]], At(answers, out[j]), d'.gone[|d.gone| + j]))
      && d'.direct == d.direct && d'.queued == d.queued + d'.queue[..starts[|q|]]
  }

  lemma DrainExact(d: Desk, c: Catalog, answers: seq<Answer>)
    returns (starts: seq<nat>, at: seq<nat>, out: seq<nat>)
    ensures DrainedTo(d, On(d, Drain(c, answers)), c, answers, starts, at, out)
  {
    hide Drained, Made, At, Arrival, StaysAt, LeavesAt, Leaves;
    var q := d.queue;
    starts, at, out := [], [], [];
    if q != [] && c.process {
      var p := Drained(c, q, answers);
      starts := ArrivalsInOrder(c, q, answers);
      at := SurvivorsKeepOrder(c, q, answers);
      out := LeaversInOrder(c, q, answers);
      SurvivorPlaces(c, q, answers, at);
      forall i | 0 <= i < |q| ensures Arrival(p.arrived + p.retry, At(answers, i).arrivals, starts[i], starts[i + 1]) {
        ArrivalStays(p.arrived, p.retry, At(answers, i).arrivals, starts[i], starts[i + 1]);
      }
    }
  }

  lemma SurvivorPlaces(c: Catalog, q: seq<Request>, answers: seq<Answer>, at: seq<nat>)
    requires Survivors(c, q, answers, at)
    ensures Increasing(at) && (forall i: nat :: i in at <==> StaysAt(c, q, answers, i))
    ensures forall j :: 0 <= j < |at| ==> StaysAt(c, q, answers, at[j])
  {
    hide Made, At;
    assert forall j :: 0 <= j < |at| ==> at[j] in at;
  }

  /** A new request goes to the back. */
  lemma QueueExact(d: Desk, r: Request)
    ensures var q := On(d, Queue(r)).queue;
      && |q| == |d.queue| + 1 && q[|d.queue|] == r && forall i :: 0 <= i < |d.queue| ==> q[i] == d.queue[i]
  {
  }

  ghost predicate KeptAt(q: seq<Request>, owner: U32, i: nat) {
    i < |q| && q[i].owner != owner
  }

  /** A clear keeps exactly the other owners' requests, in their old order. */
  lemma {:induction false} ClearKeepsOrder(q: seq<Request>, owner: U32) returns (at: seq<nat>)
    ensures Increasing(at) && forall i: nat :: i in at <==> KeptAt(q, owner, i)
    ensures var kept := On(EMPTY_DESK.(queue := q), ClearOwner(owner)).queue;
      |kept| == |at| && forall j :: 0 <= j < |at| ==> KeptAt(q, owner, at[j]) && kept[j] == q[at[j]]
  {
    hide Removed;
    if q == [] {
      at := [];
    } else {
      var n := |q| - 1;
      at := ClearKeepsOrder(q[..n], owner);
      assert forall i: nat :: i < n ==> (KeptAt(q[..n], owner, i) <==> KeptAt(q, owner, i));
      assert forall j :: 0 <= j < |at| ==> at[j] in at && q[..n][at[j]] == q[at[j]];
      if KeptAt(q, owner, n) {
        at := at + [n];
      }
    }
  }

  /** A direct spawn takes the oldest request. A player that had one already loses
      it; otherwise a plausible character is counted for that player, and without one
      the request goes to the back with one more try, up to 200. */
  lemma DirectExact(d: Desk, modCount: nat, fromMod: nat -> Ptr, random: Ptr)
    ensures var q, d' := d.queue, On(d, DirectSpawn(modCount, fromMod, random));
      if q == [] then d' == d
      else
        var r := q[0];
        var mod := if modCount == 0 then 0 else fromMod(ModSlot(r.owner, modCount));
        var character := if mod != 0 then mod else random;
        var plausible := 0x10000 < character < 0x0000_7FFF_FFFF_FFFF && character % 8 == 0;
        var again := !plausible && (r.retryCount < 199 || r.retryCount == 0xFFFF_FFFF);
        var had := r.owner in d.direct && d.direct[r.owner] >= 1;
        && d'.queued == d.queued
        && |d'.queue| == |q| - (if !had && again then 0 else 1)
        && (forall i :: 0 <= i < |q| - 1 ==> d'.queue[i] == q[i + 1])
        && (!had && again ==> OneMoreTry(r, d'.queue[|q| - 1]))
        && d'.gone == (if had then d.gone + [(r, Capped)] else if plausible then d.gone + [(r, Direct(character))]
                       else if again then d.gone else d.gone + [(r, Dropped)])
        && d'.direct == (if !had && plausible then d.direct[r.owner := 1] else d.direct)
  {
  }

  /** Tries left over the whole queue. */
  function Budget(q: seq<Request>): int {
    if q == [] then 0 else Budget(q[..|q| - 1]) + (MAX_SPAWN_RETRIES - q[|q| - 1].retryCount)
  }

  lemma BudgetSnoc(q: seq<Request>, r: Request)
    ensures Budget(q + [r]) == Budget(q) + (MAX_SPAWN_RETRIES - r.retryCount)
  {
    assert (q + [r])[..|q|] == q;
  }

  /** Each drained request costs at least one of the tries left. */
  lemma {:induction false} DrainSpendsBudget(c: Catalog, q: seq<Request>, answers: seq<Answer>)
    requires Aged(q, 0)
    ensures 0 <= Budget(Drained(c, q, answers).retry) <= Budget(q) - |q|
  {
    hide Made;
    if q != [] {
      DrainSpendsBudget(c, q[..|q| - 1], answers);
      BudgetSnoc(Drained(c, q[..|q| - 1], answers).retry, Retried(q[|q| - 1]));
    }
  }

  datatype Round = Round(catalog: Catalog, answers: seq<Answer>)

  function DrainTimes(q: seq<Request>, rounds: seq<Round>): seq<Request> {
    if rounds == [] then q
    else
      var before, r := DrainTimes(q, rounds[..|rounds| - 1]), rounds[|rounds| - 1];
      OnDrain(Desk(before, map[], [], []), r.catalog, r.answers).queue
  }

  ghost predicate Undisturbed(rounds: seq<Round>) {
    forall i :: 0 <= i < |rounds| ==>
      rounds[i].catalog.process && forall j :: 0 <= j < |rounds[i].answers| ==> rounds[i].answers[j].arrivals == []
  }

  lemma {:induction false} NothingArrives(c: Catalog, q: seq<Request>, answers: seq<Answer>)
    requires forall j :: 0 <= j < |answers| ==> answers[j].arrivals == []
    ensures Drained(c, q, answers).arrived == []
  {
    hide Made;
    if q != [] {
      NothingArrives(c, q[..|q| - 1], answers);
    }
  }

  lemma {:induction false} DrainTimesAges(q: seq<Request>, rounds: seq<Round>)
    requires Aged(q, 0) && Undisturbed(rounds)
    ensures Aged(DrainTimes(q, rounds), |rounds|)
  {
    hide Drained;
    if rounds != [] {
      var before, r := rounds[..|rounds| - 1], rounds[|rounds| - 1];
      DrainTimesAges(q, before);
      DrainAges(r.catalog, DrainTimes(q, before), r.answers, |before|);
      NothingArrives(r.catalog, DrainTimes(q, before), r.answers);
    }
  }

  lemma OldQueueIsEmpty(q: seq<Request>, k: nat)
    requires Aged(q, k) && k >= MAX_SPAWN_RETRIES
    ensures q == []
  {
    AgedBelow(q, k);
  }

  lemma AgedBelow(q: seq<Request>, k: nat)
    requires Aged(q, k)
    ensures q == [] || k < MAX_SPAWN_RETRIES
  {
    if q != [] {
      assert k <= q[0].retryCount;
    }
  }

  /** Whatever the factory answers, two hundred drains empty a queue nothing is added to. */
  lemma TwoHundredDrainsEmpty(q: seq<Request>, rounds: seq<Round>)
    requires Aged(q, 0) && Undisturbed(rounds) && |rounds| >= MAX_SPAWN_RETRIES
    ensures DrainTimes(q, rounds) == []
  {
    hide DrainTimes, Undisturbed;
    DrainTimesAges(q, rounds);
    OldQueueIsEmpty(DrainTimes(q, rounds), |rounds|);
  }

  function SpawnCount(g: Gone): nat {
    if g == [] then 0 else SpawnCount(g[..|g| - 1]) + (if g[|g| - 1].1.Spawned? then 1 else 0)
  }

  lemma SpawnCountNone()
    ensures SpawnCount([]) == 0
  {
  }

  lemma SpawnCountSnoc(g: Gone, r: Request, e: Exit)
    ensures SpawnCount(g + [(r, e)]) == SpawnCount(g) + (if e.Spawned? then 1 else 0)
  {
    assert (g + [(r, e)])[..|g|] == g;
  }

  // ---- The object -------------------------------------------------------------------------

  class SpawnManager {
    var queue: seq<Request>
    var direct: map<U32, nat>
    ghost var queued: seq<Request>
    ghost var gone: Gone

    ghost function View(): Desk
      reads this
    {
      Desk(queue, direct, queued, gone)
    }

    constructor ()
      ensures View() == EMPTY_DESK
    {
      queue, direct := [], map[];
      queued, gone := [], [];
    }

    method QueueSpawn(r: Request)
      modifies this
      ensures View() == On(old(View()), Queue(r))
    {
      queue := queue + [r];
      queued := queued + [r];
    }

    method RequeueSpawn(r: Request)
      modifies this`queue
      ensures queue == old(queue) + [r]
    {
      queue := queue + [r];
    }

    method PopNextSpawn() returns (ok: bool, r: Option<Request>)
      modifies this`queue
      ensures ok == (old(queue) != [])
      ensures ok ==> r == Some(old(queue)[0]) && queue == old(queue)[1..]
      ensures !ok ==> r == None && queue == []
    {
      if queue == [] {
        return false, None;
      }
      r := Some(queue[0]);
      queue := queue[1..];
      return true, r;
    }

    method ClearSpawnsForOwner(owner: U32) returns (removed: nat)
      modifies this
      ensures View() == On(old(View()), ClearOwner(owner))
      ensures removed == |old(queue)| - |queue|
    {
      ghost var q := queue;
      var filtered := [];
      removed := 0;
      while queue != []
        invariant |queue| <= |q| && queue == q[|q| - |queue|..]
        invariant filtered == Others(q[..|q| - |queue|], owner)
        invariant removed + |filtered| + |queue| == |q|
        invariant direct == old(direct) && queued == old(queued) && gone == old(gone)
        decreases |queue|
      {
        ghost var k := |q| - |queue|;
        assert q[..k + 1][..k] == q[..k];
        var req := queue[0];
        queue := queue[1..];
        if req.owner == owner {
          removed := removed + 1;
        } else {
          filtered := filtered + [req];
        }
      }
      assert q[..|q|] == q;
      queue := filtered;
      gone := gone + Removed(q, owner);
    }

    /** `answers[i]` belongs to the i-th drained request. Without the factory
        function the queue is swapped back. */
    method ProcessSpawnQueueFromHook(c: Catalog, answers: seq<Answer>) returns (spawned: nat)
      modifies this
      ensures View() == On(old(View()), Drain(c, answers))
      ensures exists starts, at, out :: DrainedTo(old(View()), View(), c, answers, starts, at, out)
      ensures |old(gone)| <= |gone| && spawned == SpawnCount(gone[|old(gone)|..])
    {
      hide Drained, Handle, Made, SpawnCount, DrainedTo;
      ghost var starts, at, out := DrainExact(View(), c, answers);
      spawned := 0;
      SpawnCountNone();
      assert gone[|gone|..] == [];
      if queue == [] {
        return;
      }
      if !c.process {
        return;
      }
      var toProcess := queue;
      queue := [];
      ghost var q := toProcess;
      ghost var here: Gone := [];
      var retryQueue := [];
      var i := 0;
      DrainedNothing(c, answers);
      while toProcess != []
        invariant i <= |q| && toProcess == q[i..] && spawned == SpawnCount(here)
        invariant Progress(queue, retryQueue, here) == Drained(c, q[..i], answers)
        invariant direct == old(direct) && queued == old(queued) && gone == old(gone)
        decreases |toProcess|
      {
        ghost var p := Progress(queue, retryQueue, here);
        DrainedNext(c, q, answers, i);
        var req := toProcess[0];
        toProcess := toProcess[1..];
        var a := At(answers, i);
        var character, _ := MakeCharacter(c, req, a);
        queue := queue + a.arrivals;
        if character != 0 {
          here := here + [(req, Spawned(character))];
          spawned := spawned + 1;
        } else {
          req := req.(retryCount := Inc32(req.retryCount));
          if req.retryCount < MAX_SPAWN_RETRIES {
            retryQueue := retryQueue + [req];
          } else {
            here := here + [(q[i], Dropped)];
          }
        }
        HandleCases(c, p, q[i], a);
        SpawnCountSnoc(p.gone, q[i], Spawned(character));
        SpawnCountSnoc(p.gone, q[i], Dropped);
        i := i + 1;
      }
      assert q[..i] == q;
      queued := queued + queue;
      gone := gone + here;
      assert gone[|old(gone)|..] == here;
      while retryQueue != []
        invariant queue + retryQueue == Drained(c, q, answers).arrived + Drained(c, q, answers).retry
        invariant direct == old(direct)
        invariant queued == old(queued) + Drained(c, q, answers).arrived
        invariant gone == old(gone) + Drained(c, q, answers).gone
        decreases |retryQueue|
      {
        queue := queue + [retryQueue[0]];
        retryQueue := retryQueue[1..];
      }
    }

    /** One direct spawn attempt of HandleSpawnQueue. */
    method TryDirectSpawn(modCount: nat, fromMod: nat -> Ptr, random: Ptr)
      modifies this
      ensures View() == On(old(View()), DirectSpawn(modCount, fromMod, random))
    {
      var ok, popped := PopNextSpawn();
      if !ok {
        return;
      }
      var r := popped.value;
      if r.owner in direct && direct[r.owner] >= MAX_DIRECT_SPAWNS_PER_PLAYER {
        gone := gone + [(r, Capped)];
      } else {
        var character := 0;
        if modCount > 0 {
          character := fromMod(ModSlot(r.owner, modCount));
        }
        if character == 0 {
          character := random;
        }
        if character != 0 && ValidCharacter(character) {
          direct := direct[r.owner := (if r.owner in direct then direct[r.owner] else 0) + 1];
          gone := gone + [(r, Direct(character))];
        } else {
          var again := r.(retryCount := Inc32(r.retryCount));
          if again.retryCount < MAX_SPAWN_RETRIES {
            RequeueSpawn(again);
          } else {
            gone := gone + [(r, Dropped)];
          }
        }
      }
    }
  }

  /** The body of the drain loop up to the factory's answer. `template` is the
      template the character was asked from: the mod template of the owner's slot
      if that worked, else the first of the fallbacks there is. */
  method MakeCharacter(c: Catalog, r: Request, a: Answer) returns (character: Ptr, template: Ptr)
    ensures character == Made(c, r, a)
    ensures var mod := ModTemplate(c, r.owner);
      if mod != 0 && c.factory != 0 && ValidCharacter(a.created(mod)) then template == mod && character == a.created(mod)
      else
        && FirstNonNull(Fallbacks(c, r.templateName), template)
        && character == if template == 0 then 0 else a.processed(template)
  {
    character, template := 0, 0;
    var slot := ModSlot(r.owner, c.modCount);
    if slot < MAX_MOD_TEMPLATES && slot < |c.mods| && c.mods[slot] != 0 {
      if c.factory != 0 && ValidCharacter(a.created(c.mods[slot])) {
        template := c.mods[slot];
        character := a.created(template);
      }
    }
    if character == 0 {
      if r.templateName != "" && r.templateName in c.characters {
        template := c.characters[r.templateName];
      }
      if template == 0 && c.lastCharacter != 0 {
        template := c.lastCharacter;
      }
      if template == 0 && r.templateName != "" && r.templateName in c.inputs {
        template := c.inputs[r.templateName];
      }
      if template == 0 && c.lastInput != 0 {
        template := c.lastInput;
      }
      ChoiceIsFirst(c, r.templateName);
      assert template == ChooseTemplate(c, r.templateName);
      if template != 0 {
        character := a.processed(template);
      }
    }
  }

  lemma DrainedNothing(c: Catalog, answers: seq<Answer>)
    ensures Drained(c, [], answers) == Progress([], [], [])
  {
  }

  lemma DrainedNext(c: Catalog, q: seq<Request>, answers: seq<Answer>, i: nat)
    requires i < |q|
    ensures Drained(c, q[..i + 1], answers) == Handle(c, Drained(c, q[..i], answers), q[i], At(answers, i))
  {
    assert q[..i + 1][..i] == q[..i];
  }

  lemma HandleCases(c: Catalog, p: Progress, r: Request, a: Answer)
    ensures var character, h, more := Made(c, r, a), Handle(c, p, r, a), p.arrived + a.arrivals;
      && (character != 0 ==> h == Progress(more, p.retry, p.gone + [(r, Spawned(character))]))
      && (character == 0 && Retried(r).retryCount < MAX_SPAWN_RETRIES ==> h == Progress(more, p.retry + [Retried(r)], p.gone))
      && (character == 0 && Retried(r).retryCount >= MAX_SPAWN_RETRIES ==> h == Progress(more, p.retry, p.gone + [(r, Dropped)]))
  {
  }
}
