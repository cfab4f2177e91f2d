/** A game server and the master server together: heartbeats sent from the
    server's ticks, delayed on the way, against the master's pruning. */
module HeartbeatTiming {
  import opened Base
  import opened MasterRegistry

  const HEARTBEAT_INTERVAL: real := 30.0

  /** tick: longest time between server ticks; delay and jitter: a message takes
      between delay and delay + jitter, the master's polling included. */
  datatype Setup = Setup(peer: Peer, ip: string, msg: RegisterMsg, tick: real, delay: real, jitter: real)

  /** sent: send times since the connection was made, the first being the
      registration; the first `delivered` of them have been handled. */
  datatype Sys = Sys(reg: Registry, sent: seq<real>, delivered: nat, lastTick: real, acc: real, now: real)

  datatype Step =
    | Tick(at: real)
    | Deliver(at: real, info: Info, order: seq<string>)
    | Elsewhere(at: real, event: Event)

  function OwnKey(u: Setup): string {
    MakeKey(ExternalIP(u.msg, u.ip), u.msg.port)
  }

  function PeerKey(u: Setup): string {
    MakeKey(u.ip, u.msg.port)
  }

  /** UpdateMasterConnection while connected: the accumulator is reset by a
      heartbeat only, not by the connection. */
  function Beat(sent: seq<real>, acc: real, at: real): (seq<real>, real) {
    if acc >= HEARTBEAT_INTERVAL then (sent + [at], 0.0) else (sent, acc)
  }

  /** The tick that sees CONNECT registers, then accumulates like any other. */
  function Connected(u: Setup, reg: Registry, acc: real, deltaTime: real, at: real): Sys {
    var (sent, left) := Beat([at], acc + deltaTime, at);
    Sys(On(reg, Connect(u.peer)), sent, 0, at, left, at)
  }

  function Arrival(u: Setup, s: Sys, e: Step): Event
    requires e.Deliver?
  {
    if s.delivered == 0 then Register(u.peer, u.ip, u.msg, e.at)
    else Heartbeat(u.peer, u.ip, u.msg.port, e.info, e.at, e.order)
  }

  function Next(u: Setup, s: Sys, e: Step): Sys {
    match e
    case Tick(at) =>
      var (sent, left) := Beat(s.sent, s.acc + (at - s.lastTick), at);
      s.(sent := sent, acc := left, lastTick := at, now := at)
    case Deliver(at, _, _) => s.(reg := On(s.reg, Arrival(u, s, e)), delivered := s.delivered + 1, now := at)
    case Elsewhere(at, event) => s.(reg := On(s.reg, event), now := at)
  }

  /** Nothing happens later than the next tick or the next delivery is due. */
  ghost predicate OnTime(u: Setup, s: Sys, at: real) {
    && s.now <= at <= s.lastTick + u.tick
    && (forall i :: s.delivered <= i < |s.sent| ==> at <= s.sent[i] + u.delay + u.jitter)
  }

  /** Other connections do as they like, except register our two keys. */
  ghost predicate Foreign(u: Setup, event: Event, at: real) {
    match event
    case Prune(now) => now == at
    case Register(p, ip, msg, now) =>
      && p != u.peer && now == at
      && MakeKey(ExternalIP(msg, ip), msg.port) != OwnKey(u)
      && MakeKey(ExternalIP(msg, ip), msg.port) != PeerKey(u)
    case Heartbeat(p, _, _, _, now, _) => p != u.peer && now == at
    case _ => event.peer != u.peer
  }

  ghost predicate Allowed(u: Setup, s: Sys, e: Step) {
    OnTime(u, s, e.at) &&
    match e
    case Tick(_) => true
    case Deliver(at, _, _) =>
      s.delivered < |s.sent| && s.sent[s.delivered] + u.delay <= at && Lawful(s.reg, Arrival(u, s, e))
    case Elsewhere(at, event) => Lawful(s.reg, event) && Foreign(u, event, at)
  }

  function After(u: Setup, start: Sys, steps: seq<Step>): Sys {
    if steps == [] then start else Next(u, After(u, start, steps[..|steps| - 1]), steps[|steps| - 1])
  }

  ghost predicate Timely(u: Setup, start: Sys, steps: seq<Step>) {
    steps == []
    || (Timely(u, start, steps[..|steps| - 1]) && Allowed(u, After(u, start, steps[..|steps| - 1]), steps[|steps| - 1]))
  }

  // ---- Invariant --------------------------------------------------------------------

  ghost predicate Sending(u: Setup, s: Sys) {
    && 0.0 <= u.tick && 0.0 <= u.delay && 0.0 <= u.jitter
    && |s.sent| >= 1 && s.delivered <= |s.sent|
    && (forall i {:trigger s.sent[i]} :: 0 <= i < |s.sent| - 1 ==>
          s.sent[i] <= s.sent[i + 1] < s.sent[i] + HEARTBEAT_INTERVAL + u.tick)
    && s.sent[|s.sent| - 1] <= s.lastTick
    && s.lastTick - s.sent[|s.sent| - 1] <= s.acc < HEARTBEAT_INTERVAL
    && s.lastTick <= s.now && OnTime(u, s, s.now)
  }

  /** Only our own registration is ours, and it heard the last delivered message. */
  ghost predicate Listed(u: Setup, s: Sys) {
    && u.peer in s.reg.peers
    && (forall k :: k in s.reg.servers && s.reg.servers[k].peer == u.peer ==> k == OwnKey(u) && s.delivered > 0)
    && (PeerKey(u) == OwnKey(u) || PeerKey(u) !in s.reg.servers)
    && (s.delivered > 0 ==> (s.delivered <= |s.sent| && Heard(u, s, s.sent[s.delivered - 1] + u.delay)))
  }

  ghost predicate Heard(u: Setup, s: Sys, since: real) {
    && since <= s.now
    && OwnKey(u) in s.reg.servers
    && s.reg.servers[OwnKey(u)].peer == u.peer
    && s.reg.servers[OwnKey(u)].port == u.msg.port
    && since <= s.reg.servers[OwnKey(u)].lastHeartbeat <= s.now
  }

  lemma StepKeepsSending(u: Setup, s: Sys, e: Step)
    requires Sending(u, s) && Allowed(u, s, e)
    ensures Sending(u, Next(u, s, e))
  {
    hide On, Lawful, Foreign, Arrival;
  }

  /** The last message heard is less than 90 s old, whatever the instant. */
  lemma NotStale(u: Setup, s: Sys, at: real)
    requires HEARTBEAT_INTERVAL + u.tick + u.jitter <= HEARTBEAT_TIMEOUT_SEC
    requires Sending(u, s) && s.delivered > 0 && OnTime(u, s, at)
    ensures at - (s.sent[s.delivered - 1] + u.delay) < HEARTBEAT_TIMEOUT_SEC
  {
    var last := s.sent[s.delivered - 1];
    if s.delivered < |s.sent| {
      assert at <= s.sent[s.delivered] + u.delay + u.jitter;
    }
  }

  lemma ForeignKeepsListed(u: Setup, s: Sys, e: Step)
    requires HEARTBEAT_INTERVAL + u.tick + u.jitter <= HEARTBEAT_TIMEOUT_SEC
    requires Sending(u, s) && Listed(u, s) && Allowed(u, s, e) && e.Elsewhere?
    ensures Listed(u, Next(u, s, e))
  {
    hide MakeKey, FirstMatch, Sending, OnTime, Enumerates, OwnKey, PeerKey;
    assert s.now <= e.at by { OnTimeOrder(u, s, e.at); }
    match e.event {
      case Heartbeat(p, _, port, _, _, order) => MatchExact(s.reg.servers, order, p, port);
      case Prune(_) =>
        if s.delivered > 0 {
          NotStale(u, s, e.at);
        }
      case _ =>
    }
    if e.event.Register? {
      KeysOf(u, e.event.ip, e.event.msg);
    }
  }

  lemma OnTimeOrder(u: Setup, s: Sys, at: real)
    requires OnTime(u, s, at)
    ensures s.now <= at
  {
  }

  lemma KeysOf(u: Setup, ip: string, msg: RegisterMsg)
    ensures OwnKey(u) == MakeKey(ExternalIP(u.msg, u.ip), u.msg.port) && PeerKey(u) == MakeKey(u.ip, u.msg.port)
  {
  }

  lemma DeliverKeepsListed(u: Setup, s: Sys, e: Step)
    requires u.msg.version == KMP_PROTOCOL_VERSION
    requires Sending(u, s) && Listed(u, s) && Allowed(u, s, e) && e.Deliver?
    ensures Listed(u, Next(u, s, e))
  {
    hide MakeKey, FirstMatch, Sending, OnTime, Enumerates, OwnKey, PeerKey;
    OnTimeOrder(u, s, e.at);
    KeysOf(u, u.ip, u.msg);
    if s.delivered > 0 {
      MatchExact(s.reg.servers, e.order, u.peer, u.msg.port);
      Walked(s.reg, e.order);
    }
  }

  lemma Walked(r: Registry, order: seq<string>)
    requires Enumerates(order, r.servers.Keys)
    ensures forall k :: k in r.servers ==> k in order
  {
    assert forall k :: k in r.servers ==> k in r.servers.Keys;
  }

  lemma {:induction false} TimingOverRuns(u: Setup, start: Sys, steps: seq<Step>)
    requires u.msg.version == KMP_PROTOCOL_VERSION
    requires HEARTBEAT_INTERVAL + u.tick + u.jitter <= HEARTBEAT_TIMEOUT_SEC
    requires Sending(u, start) && Listed(u, start) && Timely(u, start, steps)
    ensures var s := After(u, start, steps); Sending(u, s) && Listed(u, s)
  {
    hide Next, Allowed, Sending, Listed;
    if steps != [] {
      var s, e := After(u, start, steps[..|steps| - 1]), steps[|steps| - 1];
      TimingOverRuns(u, start, steps[..|steps| - 1]);
      StepKeepsSending(u, s, e);
      match e {
        case Tick(at) => TickKeepsListed(u, s, at);
        case Deliver(_, _, _) => DeliverKeepsListed(u, s, e);
        case Elsewhere(_, _) => ForeignKeepsListed(u, s, e);
      }
    }
  }

  lemma TickKeepsListed(u: Setup, s: Sys, at: real)
    requires Sending(u, s) && Listed(u, s) && Allowed(u, s, Tick(at))
    ensures Listed(u, Next(u, s, Tick(at)))
  {
    hide OwnKey, PeerKey;
  }

  /** With ticks at most `tick` apart and delays varying by at most `jitter`,
      30 + tick + jitter <= 90, and nobody else registering its keys, a server is
      in the list from the moment its registration arrives, for as long as it
      stays connected, under its own key and heard of within 90 s. */
  lemma NeverPruned(u: Setup, reg: Registry, acc: real, deltaTime: real, t0: real, steps: seq<Step>)
    requires u.msg.version == KMP_PROTOCOL_VERSION
    requires 0.0 <= u.tick && 0.0 <= u.delay && 0.0 <= u.jitter
    requires HEARTBEAT_INTERVAL + u.tick + u.jitter <= HEARTBEAT_TIMEOUT_SEC
    requires RegistryOk(reg) && u.peer !in reg.peers
    requires PeerKey(u) == OwnKey(u) || PeerKey(u) !in reg.servers
    requires 0.0 <= acc < HEARTBEAT_INTERVAL && 0.0 <= deltaTime
    requires Timely(u, Connected(u, reg, acc, deltaTime, t0), steps)
    ensures var s := After(u, Connected(u, reg, acc, deltaTime, t0), steps);
      s.delivered > 0 ==>
        && OwnKey(u) in s.reg.servers
        && s.reg.servers[OwnKey(u)].peer == u.peer
        && s.now - s.reg.servers[OwnKey(u)].lastHeartbeat < HEARTBEAT_TIMEOUT_SEC
  {
    hide After, Timely, Allowed, Next, OwnKey, PeerKey;
    var start := Connected(u, reg, acc, deltaTime, t0);
    assert Sending(u, start) && Listed(u, start);
    TimingOverRuns(u, start, steps);
    var s := After(u, start, steps);
    if s.delivered > 0 {
      NotStale(u, s, s.now);
    }
  }

  // ---- The bound is exact ---------------------------------------------------------------

  /** How far n ticks reach. */
  function Span(gap: real, n: nat): real {
    if n == 0 then 0.0 else Span(gap, n - 1) + gap
  }

  lemma {:induction false} SpanForward(gap: real, n: nat)
    requires gap > 0.0
    ensures Span(gap, n) >= 0.0
  {
    if n > 0 {
      SpanForward(gap, n - 1);
    }
  }

  lemma {:induction false} SpanTimes(gap: real, r: real, n: nat)
    requires gap > 0.0 && r <= n as real
    ensures Span(gap, n) >= r * gap
    decreases n
  {
    if n == 0 {
      NotPositive(gap, r);
    } else {
      SpanTimes(gap, r - 1.0, n - 1);
      OneLess(gap, r);
    }
  }

  lemma NotPositive(gap: real, r: real)
    requires gap > 0.0 && r <= 0.0
    ensures r * gap <= 0.0
  {
  }

  lemma OneLess(gap: real, r: real)
    ensures (r - 1.0) * gap == r * gap - gap
  {
  }

  lemma TicksReach(gap: real, t: real) returns (n: nat)
    requires gap > 0.0 && t >= 0.0
    ensures Span(gap, n) >= t
  {
    var r := t / gap;
    assert r * gap == t;
    assert r >= 0.0;
    n := r.Floor + 1;
    SpanTimes(gap, r, n);
  }

  /** Ticks can reach any time before the next heartbeat is due, with nothing on the way. */
  lemma {:induction false} QuietTicks(u: Setup, start: Sys, steps: seq<Step>, until: real, n: nat) returns (more: seq<Step>)
    requires Timely(u, start, steps) && u.tick > 0.0
    requires var s := After(u, start, steps);
      && s.now == s.lastTick <= until <= s.lastTick + Span(u.tick, n)
      && s.acc + (until - s.lastTick) < HEARTBEAT_INTERVAL && s.delivered == |s.sent|
    ensures Timely(u, start, steps + more)
    ensures var s := After(u, start, steps);
      After(u, start, steps + more) == s.(lastTick := until, now := until, acc := s.acc + (until - s.lastTick))
    decreases n
  {
    hide After, Timely;
    var s := After(u, start, steps);
    if until == s.lastTick {
      more := [];
      assert steps + more == steps;
    } else {
      SpanForward(u.tick, n - 1);
      var at := if until < s.lastTick + u.tick then until else s.lastTick + u.tick;
      RunSnoc(u, start, steps, Tick(at));
      more := QuietTicks(u, start, steps + [Tick(at)], until, n - 1);
      assert steps + [Tick(at)] + more == steps + ([Tick(at)] + more);
      more := [Tick(at)] + more;
    }
  }

  /** Ticks can reach any time at which nothing sent is overdue yet. */
  lemma {:induction false} BusyTicks(u: Setup, start: Sys, steps: seq<Step>, until: real, n: nat) returns (more: seq<Step>)
    requires Timely(u, start, steps) && u.tick > 0.0 && u.delay >= 0.0 && u.jitter >= 0.0
    requires var s := After(u, start, steps);
      && s.now == s.lastTick <= until <= s.lastTick + Span(u.tick, n)
      && until <= s.lastTick + u.delay + u.jitter
      && forall i :: s.delivered <= i < |s.sent| ==> until <= s.sent[i] + u.delay + u.jitter
    ensures Timely(u, start, steps + more)
    ensures var s, s' := After(u, start, steps), After(u, start, steps + more);
      && s'.reg == s.reg && s'.lastTick == s'.now == until
      && forall i :: s'.delivered <= i < |s'.sent| ==> until <= s'.sent[i] + u.delay + u.jitter
    decreases n
  {
    hide After, Timely;
    var s := After(u, start, steps);
    if until == s.lastTick {
      more := [];
      assert steps + more == steps;
    } else {
      SpanForward(u.tick, n - 1);
      var at := if until < s.lastTick + u.tick then until else s.lastTick + u.tick;
      RunSnoc(u, start, steps, Tick(at));
      more := BusyTicks(u, start, steps + [Tick(at)], until, n - 1);
      assert steps + [Tick(at)] + more == steps + ([Tick(at)] + more);
      more := [Tick(at)] + more;
    }
  }

  /** A server just connected to an empty master. */
  function JustConnected(u: Setup): Sys {
    Connected(u, Registry(map[], {}), 0.0, 0.0, 0.0)
  }

  lemma RegistrationArrives(u: Setup, info: Info)
    requires u.msg.version == KMP_PROTOCOL_VERSION && u.tick > 0.0 && u.delay == 0.0 && u.jitter >= 0.0
    ensures var steps := [Deliver(0.0, info, [])]; var s := After(u, JustConnected(u), steps);
      && Timely(u, JustConnected(u), steps)
      && s.sent == [0.0] && s.delivered == 1 && s.lastTick == s.now == s.acc == 0.0 && s.reg.peers == {u.peer}
      && OwnKey(u) in s.reg.servers && s.reg.servers[OwnKey(u)].lastHeartbeat == 0.0
  {
    hide MakeKey;
    RunSnoc(u, JustConnected(u), [], Deliver(0.0, info, []));
    assert [] + [Deliver(0.0, info, [])] == [Deliver(0.0, info, [])];
  }

  /** For every tick gap and jitter beyond the bound of NeverPruned there is a timely
      run in which the master prunes a server that is connected and ticking. */
  lemma LateBeatIsPruned(tick: real, jitter: real, ip: string, msg: RegisterMsg, info: Info) returns (steps: seq<Step>)
    requires msg.version == KMP_PROTOCOL_VERSION && tick > 0.0 && jitter >= 0.0
    requires HEARTBEAT_INTERVAL + tick + jitter > HEARTBEAT_TIMEOUT_SEC
    ensures var u := Setup(1, ip, msg, tick, 0.0, jitter); var s := After(u, JustConnected(u), steps);
      && Timely(u, JustConnected(u), steps) && |steps| > 0 && steps[0].Deliver?
      && u.peer in s.reg.peers && OwnKey(u) !in s.reg.servers
  {
    hide After, Timely, OwnKey, MakeKey, JustConnected;
    var u := Setup(1, ip, msg, tick, 0.0, jitter);
    var over := HEARTBEAT_INTERVAL + tick + jitter - HEARTBEAT_TIMEOUT_SEC;
    var early := (if over < tick && over < 30.0 then over else if tick < 30.0 then tick else 30.0) / 2.0;
    var start := JustConnected(u);
    RegistrationArrives(u, info);
    steps := [Deliver(0.0, info, [])];
    var n := TicksReach(tick, HEARTBEAT_INTERVAL - early);
    var more := QuietTicks(u, start, steps, HEARTBEAT_INTERVAL - early, n);
    steps := steps + more;
    var last := HEARTBEAT_INTERVAL - early + tick;
    RunSnoc(u, start, steps, Tick(last));
    steps := steps + [Tick(last)];
    n := TicksReach(tick, jitter);
    more := BusyTicks(u, start, steps, last + jitter, n);
    steps := steps + more;
    RunSnoc(u, start, steps, Elsewhere(last + jitter, Prune(last + jitter)));
    steps := steps + [Elsewhere(last + jitter, Prune(last + jitter))];
  }

  lemma RunSnoc(u: Setup, start: Sys, steps: seq<Step>, e: Step)
    ensures After(u, start, steps + [e]) == Next(u, After(u, start, steps), e)
    ensures Timely(u, start, steps + [e]) <==> Timely(u, start, steps) && Allowed(u, After(u, start, steps), e)
  {
    assert (steps + [e])[..|steps|] == steps;
  }
}
