/** The loading state machine that decides when a character may be spawned.
    Clock readings are integers in nanoseconds and appear as parameters, one for
    each place where the code reads the clock. */
module LoadingGate {

  const SPAWN_COOLDOWN_MS: int := 2000
  const ZONE_SETTLE_MS: int := 1500
  const BURST_TIMEOUT_MS: int := 30000

  const MS: int := 1_000_000

  /** duration_cast to milliseconds rounds toward zero. */
  function Millis(ns: int): int {
    if ns >= 0 then ns / MS else -(-ns / MS)
  }

  lemma MillisAtLeast(ns: int, limit: int)
    requires 0 < limit
    ensures Millis(ns) >= limit <==> ns >= limit * MS
  {
    if ns >= 0 {
      assert ns == MS * (ns / MS) + ns % MS;
    }
  }

  datatype Phase = Idle | InitialLoad | ZoneTransition | SpawnLoad

  datatype Gate = Gate(
    phase: Phase,
    pending: set<string>,
    hooks: bool,
    loaded: bool,
    inBurst: bool,
    burstStart: int,
    lastComplete: int,
    zoneLoadEnd: int)

  const START := Gate(InitialLoad, {}, false, false, false, 0, 0, 0)

  /** What GetSpawnBlockReason reports, without the wording. */
  datatype Reason =
    | NeedIdle(phase: Phase) | BurstInProgress | NotLoaded | Pending(count: nat) | Cooldown(ms: int) | OK

  predicate Safe(g: Gate, now: int) {
    && g.phase == Idle
    && !g.inBurst
    && g.loaded
    && (g.hooks ==> g.pending == {})
    && Millis(now - g.lastComplete) >= SPAWN_COOLDOWN_MS
  }

  function BlockReason(g: Gate, now: int): Reason {
    if g.phase != Idle then NeedIdle(g.phase)
    else if g.inBurst then BurstInProgress
    else if !g.loaded then NotLoaded
    else if g.hooks && g.pending != {} then Pending(|g.pending|)
    else
      var elapsed := Millis(now - g.lastComplete);
      if elapsed < SPAWN_COOLDOWN_MS then Cooldown(SPAWN_COOLDOWN_MS - elapsed) else OK
  }

  // ---- Events -----------------------------------------------------------------

  /** A Tick reads the clock up to four times: for the burst timeout, when it
      clears a burst, for zone settling, and for the final gate test. */
  datatype Event =
    | Requested(name: string)
    | Loaded(name: string, at: int)
    | Failed(name: string, at: int)
    | BurstDetected(at: int)
    | BurstEnded(at: int)
    | GameLoaded(at: int)
    | ZoneLoadStart
    | ZoneLoadEnd(at: int)
    | Tick(burst: int, clear: int, zone: int, gate: int)

  function Settled(p: Phase): Phase {
    if p == InitialLoad || p == ZoneTransition then Idle else p
  }

  function Complete(g: Gate, name: string, at: int): Gate {
    g.(pending := g.pending - {name}, lastComplete := at)
  }

  function OnTick(g: Gate, burst: int, clear: int, zone: int): Gate {
    var cleared :=
      if g.inBurst && Millis(burst - g.burstStart) >= BURST_TIMEOUT_MS
      then g.(inBurst := false, lastComplete := clear, phase := Settled(g.phase))
      else g;
    if g.phase == ZoneTransition && !cleared.inBurst && Millis(zone - cleared.zoneLoadEnd) >= ZONE_SETTLE_MS
    then cleared.(phase := Idle)
    else cleared
  }

  function On(g: Gate, e: Event): Gate {
    match e
    case Requested(name) => g.(pending := g.pending + {name}, hooks := true)
    case Loaded(name, at) => Complete(g, name, at)
    case Failed(name, at) => Complete(g, name, at)
    case BurstDetected(at) =>
      g.(inBurst := true, burstStart := at, phase := if g.phase == Idle && g.loaded then ZoneTransition else g.phase)
    case BurstEnded(at) => g.(inBurst := false, lastComplete := at, phase := Settled(g.phase))
    case GameLoaded(at) =>
      g.(loaded := true, lastComplete := at, phase := if g.phase == InitialLoad then Idle else g.phase)
    case ZoneLoadStart => if g.loaded then g.(phase := ZoneTransition) else g
    case ZoneLoadEnd(at) => g.(zoneLoadEnd := at, lastComplete := at)
    case Tick(burst, clear, zone, _) => OnTick(g, burst, clear, zone)
  }

  function After(h: seq<Event>): Gate {
    if h == [] then START else On(After(h[..|h| - 1]), h[|h| - 1])
  }

  /** Later clock readings are never smaller; `before` is the latest so far. */
  predicate InOrder(e: Event, before: int) {
    match e
    case Requested(_) => true
    case ZoneLoadStart => true
    case Tick(burst, clear, zone, gate) => before <= burst <= clear <= zone <= gate
    case _ => before <= e.at
  }

  function Latest(e: Event, before: int): int {
    match e
    case Requested(_) => before
    case ZoneLoadStart => before
    case Tick(_, _, _, gate) => gate
    case _ => e.at
  }

  function Clock(h: seq<Event>): int {
    if h == [] then 0 else Latest(h[|h| - 1], Clock(h[..|h| - 1]))
  }

  predicate Timed(h: seq<Event>) {
    h == [] || (Timed(h[..|h| - 1]) && InOrder(h[|h| - 1], Clock(h[..|h| - 1])))
  }

  // ---- Reachable states ---------------------------------------------------------

  ghost predicate GateOk(g: Gate, now: int) {
    && g.phase != SpawnLoad
    && (g.phase == ZoneTransition ==> g.loaded)
    && (g.phase == InitialLoad ==> !g.loaded)
    && (g.pending != {} ==> g.hooks)
    && 0 <= g.burstStart <= now
    && 0 <= g.zoneLoadEnd <= g.lastComplete <= now
  }

  lemma {:induction false} GateOverRuns(h: seq<Event>)
    requires Timed(h)
    ensures GateOk(After(h), Clock(h))
  {
    if h != [] {
      hide *;
      GateHistory(h);
      GateOverRuns(h[..|h| - 1]);
      StepKeepsGate(After(h[..|h| - 1]), h[|h| - 1], Clock(h[..|h| - 1]));
    }
  }

  lemma StepKeepsGate(g: Gate, e: Event, now: int)
    requires GateOk(g, now) && InOrder(e, now)
    ensures GateOk(On(g, e), Latest(e, now))
  {
    hide Millis;
  }

  lemma GateHistory(h: seq<Event>)
    requires h != []
    ensures var p, e := h[..|h| - 1], h[|h| - 1];
      && After(h) == On(After(p), e) && Clock(h) == Latest(e, Clock(p))
      && (Timed(h) <==> Timed(p) && InOrder(e, Clock(p)))
  {
  }

  /** Waiting ms opens the gate, and ms is 1 to 2000. */
  predicate CooldownExact(g: Gate, now: int, ms: int) {
    1 <= ms <= SPAWN_COOLDOWN_MS && !Safe(g, now) && Safe(g, now + ms * MS)
  }

  /** The report and the gate agree, and a reported wait is 1 to 2000 ms. */
  lemma ReasonMatchesGate(h: seq<Event>, now: int)
    requires Timed(h) && Clock(h) <= now
    ensures var g := After(h);
      && (BlockReason(g, now) == OK <==> Safe(g, now))
      && (BlockReason(g, now).Cooldown? ==> CooldownExact(g, now, BlockReason(g, now).ms))
  {
    hide After, Timed, Clock;
    GateOverRuns(h);
    var g := After(h);
    if BlockReason(g, now).Cooldown? {
      var wait := BlockReason(g, now).ms;
      assert Millis(now - g.lastComplete) == SPAWN_COOLDOWN_MS - wait;
      assert now - g.lastComplete >= 0;
      assert now - g.lastComplete >= MS * (SPAWN_COOLDOWN_MS - wait);
      MillisAtLeast(now + wait * MS - g.lastComplete, SPAWN_COOLDOWN_MS);
    }
  }

  // ---- What an open gate says about the past --------------------------------------

  predicate Completes(e: Event, name: string) {
    (e.Loaded? || e.Failed?) && e.name == name
  }

  /** Requested, and neither loaded nor failed since. */
  ghost predicate Outstanding(h: seq<Event>, name: string) {
    exists i :: 0 <= i < |h| && h[i] == Requested(name) && forall j :: i < j < |h| ==> !Completes(h[j], name)
  }

  predicate Completion(e: Event) {
    e.Loaded? || e.Failed? || e.BurstEnded? || e.GameLoaded? || e.ZoneLoadEnd?
  }

  /** The burst detected at position i was ended, or a Tick timed it out. */
  ghost predicate BurstOver(h: seq<Event>, i: nat)
    requires i < |h| && h[i].BurstDetected?
  {
    exists j :: i < j < |h| && (h[j].BurstEnded? || (h[j].Tick? && h[j].burst >= h[i].at + BURST_TIMEOUT_MS * MS))
  }

  lemma {:induction false} PendingIsOutstanding(h: seq<Event>, name: string)
    ensures name in After(h).pending <==> Outstanding(h, name)
  {
    if h != [] {
      var p, e := h[..|h| - 1], h[|h| - 1];
      PendingIsOutstanding(p, name);
      if e == Requested(name) {
        assert Outstanding(h, name);
      } else if Completes(e, name) {
        assert forall i :: 0 <= i < |h| && h[i] == Requested(name) ==> i < |h| - 1;
      } else {
        UnrelatedEvent(p, e, name);
        assert h == p + [e];
      }
    }
  }

  lemma UnrelatedEvent(p: seq<Event>, e: Event, name: string)
    requires e != Requested(name) && !Completes(e, name)
    ensures Outstanding(p + [e], name) <==> Outstanding(p, name)
  {
    var h := p + [e];
    assert forall j :: 0 <= j < |p| ==> p[j] == h[j];
    if Outstanding(p, name) {
      var i :| 0 <= i < |p| && p[i] == Requested(name) && forall j :: i < j < |p| ==> !Completes(p[j], name);
      assert h[i] == Requested(name);
    }
    if Outstanding(h, name) {
      var i :| 0 <= i < |h| && h[i] == Requested(name) && forall j :: i < j < |h| ==> !Completes(h[j], name);
      assert p[i] == Requested(name);
    }
  }

  lemma {:induction false} LoadedMeansEvent(h: seq<Event>)
    ensures After(h).loaded <==> exists i :: 0 <= i < |h| && h[i].GameLoaded?
  {
    if h != [] {
      LoadedMeansEvent(h[..|h| - 1]);
    }
  }

  lemma {:induction false} CompletionsBeforeLast(h: seq<Event>, i: nat)
    requires Timed(h) && i < |h| && Completion(h[i])
    ensures h[i].at <= After(h).lastComplete
  {
    GateOverRuns(h[..|h| - 1]);
    if i < |h| - 1 {
      CompletionsBeforeLast(h[..|h| - 1], i);
    }
  }

  lemma {:induction false} BurstsAccounted(h: seq<Event>, i: nat)
    requires Timed(h) && i < |h| && h[i].BurstDetected?
    ensures BurstOver(h, i) || (After(h).inBurst && h[i].at <= After(h).burstStart)
  {
    GateOverRuns(h[..|h| - 1]);
    var p, e := h[..|h| - 1], h[|h| - 1];
    if i < |p| {
      BurstsAccounted(p, i);
      if BurstOver(p, i) {
        var j :| i < j < |p| && (p[j].BurstEnded? || (p[j].Tick? && p[j].burst >= p[i].at + BURST_TIMEOUT_MS * MS));
        assert h[j] == p[j];
      } else if e.Tick? {
        MillisAtLeast(e.burst - After(p).burstStart, BURST_TIMEOUT_MS);
        if !After(h).inBurst {
          assert h[|h| - 1].Tick? && h[|h| - 1].burst >= h[i].at + BURST_TIMEOUT_MS * MS;
        }
      } else if e.BurstEnded? {
        assert h[|h| - 1].BurstEnded?;
      }
    }
  }

  /** When the gate is open the game has loaded, nothing requested is still
      outstanding, every burst ended or timed out, and no load, failure, burst
      end, game load or zone load finished within the last two seconds. */
  lemma OpenGateMeansQuiet(h: seq<Event>, now: int)
    requires Timed(h) && Clock(h) <= now && Safe(After(h), now)
    ensures exists i :: 0 <= i < |h| && h[i].GameLoaded?
    ensures forall name :: !Outstanding(h, name)
    ensures forall i :: 0 <= i < |h| && h[i].BurstDetected? ==> BurstOver(h, i)
    ensures forall i :: 0 <= i < |h| && Completion(h[i]) ==> h[i].at + SPAWN_COOLDOWN_MS * MS <= now
  {
    hide After, Timed, Clock, Outstanding, BurstOver;
    var g := After(h);
    GateOverRuns(h);
    LoadedMeansEvent(h);
    MillisAtLeast(now - g.lastComplete, SPAWN_COOLDOWN_MS);
    forall name ensures !Outstanding(h, name) {
      PendingIsOutstanding(h, name);
    }
    forall i | 0 <= i < |h| && h[i].BurstDetected? ensures BurstOver(h, i) {
      BurstsAccounted(h, i);
    }
    forall i | 0 <= i < |h| && Completion(h[i]) ensures h[i].at + SPAWN_COOLDOWN_MS * MS <= now {
      CompletionsBeforeLast(h, i);
    }
  }

  // ---- Bounded progress -------------------------------------------------------------

  ghost predicate OnlyTicks(ticks: seq<Event>) {
    forall i :: 0 <= i < |ticks| ==> ticks[i].Tick?
  }

  lemma {:induction false} TicksKeep(h: seq<Event>, ticks: seq<Event>)
    requires Timed(h + ticks) && OnlyTicks(ticks)
    ensures Timed(h) && GateOk(After(h), Clock(h)) && Clock(h) <= Clock(h + ticks)
    ensures var g, g' := After(h), After(h + ticks);
      && g'.pending == g.pending && g'.hooks == g.hooks && g'.loaded == g.loaded
      && g'.burstStart == g.burstStart && g'.zoneLoadEnd == g.zoneLoadEnd
      && (g.phase == Idle ==> g'.phase == Idle)
      && (!g.inBurst ==> !g'.inBurst && g'.lastComplete == g.lastComplete)
  {
    if ticks == [] {
      assert h + ticks == h;
      GateOverRuns(h);
    } else {
      var p := h + ticks[..|ticks| - 1];
      assert (h + ticks)[..|h + ticks| - 1] == p;
      assert (h + ticks)[|h + ticks| - 1] == ticks[|ticks| - 1];
      TicksKeep(h, ticks[..|ticks| - 1]);
    }
  }

  /** A tick at least thirty seconds after everything it depends on. */
  lemma LateTickSettles(g: Gate, t0: int, now: int, e: Event)
    requires GateOk(g, now) && g.burstStart <= t0 && g.zoneLoadEnd <= t0
    requires e.Tick? && InOrder(e, now) && e.burst >= t0 + BURST_TIMEOUT_MS * MS
    ensures !On(g, e).inBurst && On(g, e).lastComplete <= e.gate
    ensures g.loaded ==> On(g, e).phase == Idle
  {
    MillisAtLeast(e.burst - g.burstStart, BURST_TIMEOUT_MS);
    MillisAtLeast(e.zone - g.zoneLoadEnd, ZONE_SETTLE_MS);
  }

  /** From any reachable state, if only Tick runs afterwards: once a Tick starts
      at least 30 s later the burst flag is clear (and the phase Idle when the
      game has loaded) for good, and from 2 s after that Tick the gate is open
      exactly when the game had loaded and nothing was pending. */
  lemma BoundedProgress(h: seq<Event>, early: seq<Event>, late: Event, more: seq<Event>, now: int)
    requires OnlyTicks(early) && late.Tick? && OnlyTicks(more) && Timed(h + early + [late] + more)
    requires late.burst >= Clock(h) + BURST_TIMEOUT_MS * MS
    requires now >= late.gate + SPAWN_COOLDOWN_MS * MS
    ensures var g := After(h + early + [late] + more);
      && !g.inBurst && (g.loaded ==> g.phase == Idle)
      && (Safe(g, now) <==> After(h).loaded && After(h).pending == {})
  {
    hide After, Timed, Clock, On, Latest, InOrder, Millis, OnlyTicks;
    var before := h + early;
    var upTo := before + [late];
    TicksKeep(upTo, more);
    assert upTo[..|upTo| - 1] == before && upTo[|upTo| - 1] == late;
    GateHistory(upTo);
    TicksKeep(h, early);
    GateOverRuns(before);
    LateTickSettles(After(before), Clock(h), Clock(before), late);
    TickKeeps(After(before), late);
    MillisAtLeast(now - After(upTo + more).lastComplete, SPAWN_COOLDOWN_MS);
  }

  lemma TickKeeps(g: Gate, e: Event)
    requires e.Tick?
    ensures On(g, e).pending == g.pending && On(g, e).hooks == g.hooks && On(g, e).loaded == g.loaded
  {
  }

  // ---- Zone loads do not hold the gate by themselves ----------------------------------

  function LastZoneEnd(h: seq<Event>): int {
    if h == [] then 0
    else if h[|h| - 1].ZoneLoadEnd? then h[|h| - 1].at
    else LastZoneEnd(h[..|h| - 1])
  }

  lemma {:induction false} ZoneEndIsLast(h: seq<Event>)
    ensures After(h).zoneLoadEnd == LastZoneEnd(h)
  {
    if h != [] {
      ZoneEndIsLast(h[..|h| - 1]);
    }
  }

  /** The settling time is measured from the end of the PREVIOUS zone load, so
      the first Tick after OnZoneLoadStart already leaves ZoneTransition exactly
      when that end is 1.5 s old (and no burst is running, or one times out). */
  lemma ZoneStartHeldOnlyByRecentEnd(h: seq<Event>, e: Event)
    requires Timed(h + [ZoneLoadStart] + [e]) && e.Tick? && After(h).loaded
    ensures var g := After(h);
      After(h + [ZoneLoadStart] + [e]).phase == Idle <==>
        if g.inBurst then e.burst >= g.burstStart + BURST_TIMEOUT_MS * MS
        else e.zone >= LastZoneEnd(h) + ZONE_SETTLE_MS * MS
  {
    var one := h + [ZoneLoadStart];
    var two := one + [e];
    assert one[..|one| - 1] == h && two[..|two| - 1] == one;
    ZoneEndIsLast(h);
    MillisAtLeast(e.zone - LastZoneEnd(h), ZONE_SETTLE_MS);
    MillisAtLeast(e.burst - After(h).burstStart, BURST_TIMEOUT_MS);
  }

  /** A zone load still under way, and the gate open. */
  lemma GateOpensDuringZoneLoad()
    ensures var h := [GameLoaded(0), ZoneLoadStart, Tick(5000 * MS, 5000 * MS, 5000 * MS, 5000 * MS)];
      Timed(h) && Safe(After(h), 5000 * MS)
  {
    var h := [GameLoaded(0), ZoneLoadStart, Tick(5000 * MS, 5000 * MS, 5000 * MS, 5000 * MS)];
    assert h[..2] == [GameLoaded(0), ZoneLoadStart];
    assert h[..2][..1] == [GameLoaded(0)];
    assert h[..2][..1][..0] == [];
    assert Clock([GameLoaded(0)]) == 0 && Timed([GameLoaded(0)]);
    assert Clock(h[..2]) == 0 && Timed(h[..2]);
    assert After([GameLoaded(0)]) == On(START, GameLoaded(0));
    assert After(h[..2]).phase == ZoneTransition;
    assert After(h) == On(After(h[..2]), h[2]);
  }

  // ---- The gate as a function of the history ---------------------------------------------

  /** Every field after one event, times in nanoseconds. */
  lemma EventTable(g: Gate, e: Event)
    ensures var g' := On(g, e);
      var timedOut := g.inBurst && e.Tick? && e.burst - g.burstStart >= 30_000_000_000;
      var zoneOver := g.phase == ZoneTransition && !g.inBurst && e.Tick? && e.zone - g.zoneLoadEnd >= 1_500_000_000;
      && g'.loaded == (g.loaded || e.GameLoaded?)
      && g'.inBurst == (e.BurstDetected? || (g.inBurst && !e.BurstEnded? && !timedOut))
      && g'.burstStart == (if e.BurstDetected? then e.at else g.burstStart)
      && g'.zoneLoadEnd == (if e.ZoneLoadEnd? then e.at else g.zoneLoadEnd)
      && g'.lastComplete == (if timedOut then e.clear else if Completion(e) then e.at else g.lastComplete)
      && g'.phase == (if ((e.BurstDetected? && g.phase == Idle) || e.ZoneLoadStart?) && g.loaded then ZoneTransition
                      else if zoneOver || (e.GameLoaded? && g.phase == InitialLoad)
                              || ((e.BurstEnded? || timedOut) && g.phase != SpawnLoad) then Idle
                      else g.phase)
  {
    hide Complete, Millis;
    if e.Tick? {
      MillisAtLeast(e.burst - g.burstStart, 30000);
      MillisAtLeast(e.zone - g.zoneLoadEnd, 1500);
    }
    LoadedNames(g, e);
  }

  lemma LoadedNames(g: Gate, e: Event)
    ensures e.Loaded? || e.Failed? ==> On(g, e) == g.(pending := g.pending - {e.name}, lastComplete := e.at)
  {
  }

  /** The report names the first test that fails. */
  lemma ReasonIsFirst(g: Gate, now: int)
    ensures var r := BlockReason(g, now);
      && (r.NeedIdle? <==> g.phase != Idle) && (r.NeedIdle? ==> r.phase == g.phase)
      && (r.BurstInProgress? <==> g.phase == Idle && g.inBurst)
      && (r.NotLoaded? <==> g.phase == Idle && !g.inBurst && !g.loaded)
      && (r.Pending? <==> g.phase == Idle && !g.inBurst && g.loaded && g.hooks && g.pending != {})
      && (r.Pending? ==> r.count == |g.pending|)
  {
  }

  /** Burst i is the one running after n events. */
  ghost predicate Running(h: seq<Event>, n: int, i: int) {
    && 0 <= i < n <= |h| && h[i].BurstDetected?
    && forall j :: i < j < n ==>
      !h[j].BurstDetected? && !h[j].BurstEnded? && !(h[j].Tick? && h[j].burst >= h[i].at + 30_000_000_000)
  }

  /** Tick j gives up on the burst that is running. */
  ghost predicate TimesOut(h: seq<Event>, j: int) {
    0 <= j < |h| && h[j].Tick? && exists i :: Running(h, j, i) && h[j].burst >= h[i].at + 30_000_000_000
  }

  /** Event j ends a zone transition. */
  ghost predicate Settles(h: seq<Event>, j: int) {
    0 <= j < |h| && (h[j].BurstEnded? || TimesOut(h, j)
      || (h[j].Tick? && (forall i :: !Running(h, j, i)) && h[j].zone >= LastZoneEnd(h[..j]) + 1_500_000_000))
  }

  ghost predicate WasLoaded(h: seq<Event>, n: int) {
    exists i :: 0 <= i < n <= |h| && h[i].GameLoaded?
  }

  /** Event k began the zone transition that still holds after n events. */
  ghost predicate Holds(h: seq<Event>, n: int, k: int) {
    && 0 <= k < n <= |h| && (h[k].BurstDetected? || h[k].ZoneLoadStart?) && WasLoaded(h, k)
    && forall j :: k < j < n ==> !Settles(h, j)
  }

  lemma Prefix(h: seq<Event>, n: nat)
    requires 0 < n <= |h|
    ensures After(h[..n]) == On(After(h[..n - 1]), h[n - 1])
    ensures Timed(h) && n < |h| ==> Timed(h[..|h| - 1])
    ensures n < |h| ==> h[..|h| - 1][..n] == h[..n]
  {
    assert h[..n][..n - 1] == h[..n - 1];
  }

  lemma {:induction false} RunningIs(h: seq<Event>, n: nat)
    requires n <= |h|
    ensures After(h[..n]).inBurst <==> exists i :: Running(h, n, i)
    ensures forall i :: Running(h, n, i) ==> After(h[..n]).burstStart == h[i].at
  {
    hide On, After;
    if n == 0 {
      assert h[..0] == [];
      AtStart();
    } else {
      var g, e := After(h[..n - 1]), h[n - 1];
      RunningIs(h, n - 1);
      Prefix(h, n);
      EventTable(g, e);
      forall i ensures Running(h, n, i) <==> if i == n - 1 then e.BurstDetected?
                         else Running(h, n - 1, i) && !e.BurstDetected? && !e.BurstEnded?
                              && !(e.Tick? && e.burst >= h[i].at + 30_000_000_000)
      {
      }
      if e.BurstDetected? {
        assert Running(h, n, n - 1);
      } else if After(h[..n]).inBurst {
        var i :| Running(h, n - 1, i);
        assert Running(h, n, i);
      }
    }
  }

  lemma AtStart()
    ensures After([]) == Gate(InitialLoad, {}, false, false, false, 0, 0, 0)
  {
  }

  lemma {:induction false} LoadedIs(h: seq<Event>, n: nat)
    requires n <= |h|
    ensures After(h[..n]).loaded <==> WasLoaded(h, n)
    ensures After(h[..n]).loaded ==> After(h[..n]).phase != InitialLoad
    ensures After(h[..n]).phase != SpawnLoad
  {
    hide On, After;
    if n == 0 {
      assert h[..0] == [];
      AtStart();
    } else {
      LoadedIs(h, n - 1);
      Prefix(h, n);
      EventTable(After(h[..n - 1]), h[n - 1]);
    }
  }

  lemma TickMeets(h: seq<Event>, j: nat)
    requires j < |h| && h[j].Tick?
    ensures var g := After(h[..j]);
      && (TimesOut(h, j) <==> g.inBurst && h[j].burst - g.burstStart >= 30_000_000_000)
      && (Settles(h, j) <==> TimesOut(h, j) || (!g.inBurst && h[j].zone - g.zoneLoadEnd >= 1_500_000_000))
  {
    hide On, After, Running;
    RunningIs(h, j);
    ZoneEndIsLast(h[..j]);
  }

  /** The phase is a zone transition exactly when, since the game loaded, a burst or a
      zone load began one that nothing has ended: no end of a burst, no burst timed
      out, and no tick without a burst 1.5 s after the latest end of a zone load. */
  lemma {:induction false} TransitionExact(h: seq<Event>, n: nat)
    requires n <= |h|
    ensures After(h[..n]).phase == ZoneTransition <==> exists k :: Holds(h, n, k)
  {
    hide On, After, Settles, WasLoaded, TimesOut;
    if n == 0 {
      assert h[..0] == [];
      AtStart();
    } else {
      var g, e := After(h[..n - 1]), h[n - 1];
      TransitionExact(h, n - 1);
      Prefix(h, n);
      EventTable(g, e);
      LoadedIs(h, n - 1);
      SettlesIs(h, n - 1);
      forall k ensures Holds(h, n, k) <==> if k == n - 1 then (e.BurstDetected? || e.ZoneLoadStart?) && WasLoaded(h, n - 1)
                         else Holds(h, n - 1, k) && !Settles(h, n - 1)
      {
      }
      if (e.BurstDetected? || e.ZoneLoadStart?) && g.loaded {
        assert Holds(h, n, n - 1);
      } else if After(h[..n]).phase == ZoneTransition {
        var k :| Holds(h, n - 1, k);
        assert Holds(h, n, k);
      }
    }
  }

  lemma SettlesIs(h: seq<Event>, j: nat)
    requires j < |h|
    ensures var g, e := After(h[..j]), h[j];
      Settles(h, j) <==>
        e.BurstEnded? || (e.Tick? && if g.inBurst then e.burst - g.burstStart >= 30_000_000_000
                                      else e.zone - g.zoneLoadEnd >= 1_500_000_000)
  {
    hide On, After;
    if h[j].Tick? {
      TickMeets(h, j);
    }
  }

  /** What restarts the two seconds: event j, at time t. */
  ghost predicate Restarts(h: seq<Event>, j: int, t: int) {
    0 <= j < |h| && ((Completion(h[j]) && t == h[j].at) || (TimesOut(h, j) && t == h[j].clear))
  }

  lemma {:induction false} LastRestart(h: seq<Event>, n: nat)
    requires n <= |h| && Timed(h)
    ensures Timed(h[..n])
    ensures var last := After(h[..n]).lastComplete;
      && (last == 0 || exists j :: j < n && Restarts(h, j, last))
      && (forall j, t :: j < n && Restarts(h, j, t) ==> t <= last)
    decreases n
  {
    hide On, After, TimesOut, Timed;
    PrefixTimed(h, n);
    if n == 0 {
      assert h[..0] == [];
      AtStart();
    } else {
      var g, e := After(h[..n - 1]), h[n - 1];
      LastRestart(h, n - 1);
      Prefix(h, n);
      EventTable(g, e);
      GateOverRuns(h[..n - 1]);
      GateHistory(h[..n]);
      assert h[..n][..n - 1] == h[..n - 1] && h[..n][n - 1] == e;
      if e.Tick? {
        TickMeets(h, n - 1);
      }
      assert TimesOut(h, n - 1) ==> e.Tick? by { OnlyTicksTimeOut(h, n - 1); }
      assert Restarts(h, n - 1, After(h[..n]).lastComplete) || After(h[..n]).lastComplete == g.lastComplete;
    }
  }

  lemma OnlyTicksTimeOut(h: seq<Event>, j: int)
    ensures TimesOut(h, j) ==> 0 <= j < |h| && h[j].Tick?
  {
  }

  lemma {:induction false} PrefixTimed(h: seq<Event>, n: nat)
    requires n <= |h| && Timed(h)
    ensures Timed(h[..n])
    decreases |h|
  {
    if n < |h| {
      PrefixTimed(h[..|h| - 1], n);
      assert h[..|h| - 1][..n] == h[..n];
    } else {
      assert h[..n] == h;
    }
  }

  /** The gate is open if and only if the game has loaded, nothing requested is
      outstanding, no burst is running, no zone transition holds, and nothing has
      completed and no burst has timed out within the last two seconds. */
  lemma OpenGateExact(h: seq<Event>, now: int)
    requires Timed(h) && Clock(h) <= now
    ensures Safe(After(h), now) <==>
      && WasLoaded(h, |h|)
      && (forall name :: !Outstanding(h, name))
      && (forall i :: !Running(h, |h|, i))
      && (forall k :: !Holds(h, |h|, k))
      && (forall j, t :: Restarts(h, j, t) ==> t + 2_000_000_000 <= now)
  {
    hide After, Timed, Clock, Outstanding, Running, Holds, On;
    var g := After(h);
    assert h[..|h|] == h;
    GateOverRuns(h);
    LoadedIs(h, |h|);
    RunningIs(h, |h|);
    TransitionExact(h, |h|);
    LastRestart(h, |h|);
    MillisAtLeast(now - g.lastComplete, 2000);
    forall name ensures name in g.pending <==> Outstanding(h, name) {
      PendingIsOutstanding(h, name);
    }
    if WasLoaded(h, |h|) {
      var i :| 0 <= i < |h| && h[i].GameLoaded?;
      assert Restarts(h, i, h[i].at);
      assert h[i].at >= 0 by { TimesPositive(h, i); }
    }
    assert g.pending == {} <==> forall name :: name !in g.pending;
  }

  lemma {:induction false} TimesPositive(h: seq<Event>, i: nat)
    requires Timed(h) && i < |h| && h[i].GameLoaded?
    ensures h[i].at >= 0
  {
    GateOverRuns(h[..|h| - 1]);
    if i < |h| - 1 {
      TimesPositive(h[..|h| - 1], i);
    }
  }

  // ---- The object -------------------------------------------------------------------

  class LoadingOrchestrator {
    var phase: Phase
    var pending: set<string>
    var hooks: bool
    var loaded: bool
    var inBurst: bool
    var burstStart: int
    var lastComplete: int
    var zoneLoadEnd: int

    ghost function View(): Gate
      reads this
    {
      Gate(phase, pending, hooks, loaded, inBurst, burstStart, lastComplete, zoneLoadEnd)
    }

    constructor ()
      ensures View() == START
    {
      phase := InitialLoad;
      pending, hooks := {}, false;
      loaded, inBurst := false, false;
      burstStart, lastComplete, zoneLoadEnd := 0, 0, 0;
    }

    method IsSafeToSpawn(now: int) returns (safe: bool)
      ensures safe == Safe(View(), now)
    {
      if phase != Idle { return false; }
      if inBurst { return false; }
      if !loaded { return false; }
      if hooks {
        if pending != {} { return false; }
      }
      if Millis(now - lastComplete) < SPAWN_COOLDOWN_MS { return false; }
      return true;
    }

    method GetSpawnBlockReason(now: int) returns (reason: Reason)
      ensures reason == BlockReason(View(), now)
      ensures reason == OK <==> Safe(View(), now)
    {
      if phase != Idle { return NeedIdle(phase); }
      if inBurst { return BurstInProgress; }
      if !loaded { return NotLoaded; }
      if hooks {
        if pending != {} { return Pending(|pending|); }
      }
      var elapsed := Millis(now - lastComplete);
      if elapsed < SPAWN_COOLDOWN_MS { return Cooldown(SPAWN_COOLDOWN_MS - elapsed); }
      return OK;
    }

    method OnResourceRequested(name: string)
      modifies this
      ensures View() == On(old(View()), Requested(name))
    {
      pending := pending + {name};
      hooks := true;
    }

    method OnResourceLoaded(name: string, now: int)
      modifies this
      ensures View() == On(old(View()), Loaded(name, now))
    {
      pending := pending - {name};
      lastComplete := now;
    }

    method OnResourceFailed(name: string, now: int)
      modifies this
      ensures View() == On(old(View()), Failed(name, now))
    {
      pending := pending - {name};
      lastComplete := now;
    }

    method OnBurstDetected(now: int)
      modifies this
      ensures View() == On(old(View()), BurstDetected(now))
    {
      inBurst := true;
      burstStart := now;
      if phase == Idle {
        if loaded {
          phase := ZoneTransition;
        }
      }
    }

    method OnBurstEnded(now: int)
      modifies this
      ensures View() == On(old(View()), BurstEnded(now))
    {
      inBurst := false;
      lastComplete := now;
      if phase == InitialLoad || phase == ZoneTransition {
        phase := Idle;
      }
    }

    method OnGameLoaded(now: int)
      modifies this
      ensures View() == On(old(View()), GameLoaded(now))
    {
      loaded := true;
      lastComplete := now;
      if phase == InitialLoad {
        phase := Idle;
      }
    }

    method OnZoneLoadStart()
      modifies this
      ensures View() == On(old(View()), ZoneLoadStart)
    {
      if loaded {
        phase := ZoneTransition;
      }
    }

    method OnZoneLoadEnd(now: int)
      modifies this
      ensures View() == On(old(View()), ZoneLoadEnd(now))
    {
      zoneLoadEnd := now;
      lastComplete := now;
    }

    /** The phase is read once, at the top; `safe` is what the callback is told. */
    method DoTick(burst: int, clear: int, zone: int, gate: int) returns (safe: bool)
      modifies this
      ensures View() == On(old(View()), Tick(burst, clear, zone, gate))
      ensures safe == Safe(View(), gate)
    {
      var cached := phase;
      if inBurst {
        if Millis(burst - burstStart) >= BURST_TIMEOUT_MS {
          inBurst := false;
          lastComplete := clear;
          if cached == InitialLoad || cached == ZoneTransition {
            phase := Idle;
          }
        }
      }
      if cached == ZoneTransition && !inBurst {
        if Millis(zone - zoneLoadEnd) >= ZONE_SETTLE_MS {
          phase := Idle;
        }
      }
      safe := IsSafeToSpawn(gate);
    }
  }
}
