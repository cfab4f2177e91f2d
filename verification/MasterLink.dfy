/** The game server's side of the master connection: registration, heartbeats and
    reconnecting with back-off. Times are seconds. */
module MasterLinks {
  import HeartbeatTiming
  import MasterRegistry

  const FIRST_DELAY: real := 5.0
  const LAST_DELAY: real := 60.0

  /** What polling the master host reports. */
  datatype LinkEvent = Up | Down | Data

  datatype Out = SentRegister | SentHeartbeat | Dialled

  /** peer: m_masterPeer is not null. */
  datatype Link = Link(peer: bool, connected: bool, sinceBeat: real, timer: real, delay: real)

  /** One call of UpdateMasterConnection; dials: enet_host_connect yields a peer. */
  datatype Update = Update(events: seq<LinkEvent>, deltaTime: real, dials: bool)

  function OnEvent(l: Link, e: LinkEvent): Link {
    match e
    case Up => l.(connected := true, delay := FIRST_DELAY)
    case Down => l.(connected := false, peer := false)
    case Data => l
  }

  function Polled(l: Link, events: seq<LinkEvent>): Link {
    if events == [] then l else OnEvent(Polled(l, events[..|events| - 1]), events[|events| - 1])
  }

  /** SendMasterRegister gives up without a peer. */
  function Registers(l: Link, events: seq<LinkEvent>): seq<Out> {
    if events == [] then []
    else
      var front := events[..|events| - 1];
      Registers(l, front) + (if events[|events| - 1].Up? && Polled(l, front).peer then [SentRegister] else [])
  }

  function Doubled(delay: real): real {
    if delay * 2.0 < LAST_DELAY then delay * 2.0 else LAST_DELAY
  }

  predicate Dials(p: Link, deltaTime: real) {
    !p.connected && !p.peer && p.timer + deltaTime >= p.delay
  }

  function Next(l: Link, u: Update): Link {
    var p := Polled(l, u.events);
    if p.connected then p.(sinceBeat := HeartbeatTiming.Beat([], p.sinceBeat + u.deltaTime, 0.0).1)
    else if p.peer then p
    else if Dials(p, u.deltaTime) then p.(peer := u.dials, timer := 0.0, delay := Doubled(p.delay))
    else p.(timer := p.timer + u.deltaTime)
  }

  function Sent(l: Link, u: Update): seq<Out> {
    var p := Polled(l, u.events);
    Registers(l, u.events)
    + (if p.connected && p.peer && p.sinceBeat + u.deltaTime >= HeartbeatTiming.HEARTBEAT_INTERVAL then [SentHeartbeat] else [])
    + (if Dials(p, u.deltaTime) then [Dialled] else [])
  }

  // ---- Runs ------------------------------------------------------------------------------

  /** ENet reports a connection only for a dialled peer, and its end only once. */
  predicate Possible(l: Link, events: seq<LinkEvent>) {
    events == [] ||
    (var front, e := events[..|events| - 1], events[|events| - 1];
     Possible(l, front) && Polled(l, front).peer && (e.Up? ==> !Polled(l, front).connected))
  }

  predicate LinkOk(l: Link) {
    && (l.connected ==> l.peer)
    && (l.peer ==> l.timer == 0.0)
    && 0.0 <= l.sinceBeat < HeartbeatTiming.HEARTBEAT_INTERVAL
    && 0.0 <= l.timer < l.delay
    && FIRST_DELAY <= l.delay <= LAST_DELAY
  }

  function After(l: Link, us: seq<Update>): Link {
    if us == [] then l else Next(After(l, us[..|us| - 1]), us[|us| - 1])
  }

  predicate Lawful(l: Link, us: seq<Update>) {
    us == [] ||
    (var front, u := us[..|us| - 1], us[|us| - 1];
     Lawful(l, front) && Possible(After(l, front), u.events) && 0.0 <= u.deltaTime)
  }

  lemma {:induction false} PolledKeepsLink(l: Link, events: seq<LinkEvent>)
    requires LinkOk(l) && Possible(l, events)
    ensures LinkOk(Polled(l, events)) && Polled(l, events).sinceBeat == l.sinceBeat
  {
    if events != [] {
      PolledKeepsLink(l, events[..|events| - 1]);
    }
  }

  /** The heartbeat accumulator stays below 30 s (what HeartbeatTiming starts
      from), the back-off between 5 and 60 s, and its timer below the back-off. */
  lemma {:induction false} LinkOverRuns(l: Link, us: seq<Update>)
    requires LinkOk(l) && Lawful(l, us)
    ensures LinkOk(After(l, us))
  {
    if us != [] {
      LinkOverRuns(l, us[..|us| - 1]);
      PolledKeepsLink(After(l, us[..|us| - 1]), us[|us| - 1].events);
    }
  }

  /** A tick that sees the connection come up sends exactly what the timing model
      starts a connection with: the registration, and a heartbeat if one is due. */
  lemma ConnectTick(l: Link, deltaTime: real, dials: bool, at: real)
    requires LinkOk(l) && l.peer && !l.connected
    ensures var u := Update([Up], deltaTime, dials);
      && Next(l, u).sinceBeat == HeartbeatTiming.Beat([at], l.sinceBeat + deltaTime, at).1
      && Sent(l, u) == (if |HeartbeatTiming.Beat([at], l.sinceBeat + deltaTime, at).0| == 2 then [SentRegister, SentHeartbeat] else [SentRegister])
  {
    assert [Up][..0] == [];
    assert Polled(l, [Up]) == OnEvent(Polled(l, []), Up);
    assert Registers(l, [Up]) == [] + [SentRegister];
  }

  /** The last connection event decides: up connects and resets the back-off to 5 s,
      down drops the peer, and other data changes nothing. */
  lemma {:induction false} PolledExact(l: Link, events: seq<LinkEvent>, k: int)
    requires -1 <= k < |events| && (k >= 0 ==> !events[k].Data?) && forall j :: k < j < |events| ==> events[j].Data?
    ensures var p := Polled(l, events);
      && (k < 0 ==> p == l)
      && (k >= 0 && events[k].Up? ==> p.connected && p.delay == 5.0)
      && (k >= 0 && events[k].Down? ==> !p.connected && !p.peer)
      && p.sinceBeat == l.sinceBeat && p.timer == l.timer
  {
    if events != [] {
      var front := events[..|events| - 1];
      if k == |front| {
        PolledKeepsTimes(l, front);
      } else {
        PolledExact(l, front, k);
      }
    }
  }

  lemma {:induction false} PolledKeepsTimes(l: Link, events: seq<LinkEvent>)
    ensures var p := Polled(l, events); p.sinceBeat == l.sinceBeat && p.timer == l.timer
  {
    if events != [] {
      PolledKeepsTimes(l, events[..|events| - 1]);
    }
  }

  // ---- Heartbeats on a standing link ------------------------------------------------------

  /** Whatever it polls, each update of the run finds the link connected to its peer. */
  ghost predicate Stands(l: Link, us: seq<Update>) {
    us == [] ||
    (var front, u := us[..|us| - 1], us[|us| - 1];
     Stands(l, front) && Polled(After(l, front), u.events).connected && Polled(After(l, front), u.events).peer)
  }

  /** Update i of the run sends a heartbeat. */
  ghost predicate Beats(l: Link, us: seq<Update>, i: int) {
    0 <= i < |us| && SentHeartbeat in Sent(After(l, us[..i]), us[i])
  }

  lemma {:induction false} PolledKeepsBeat(l: Link, events: seq<LinkEvent>)
    ensures Polled(l, events).sinceBeat == l.sinceBeat && SentHeartbeat !in Registers(l, events)
  {
    if events != [] {
      PolledKeepsBeat(l, events[..|events| - 1]);
    }
  }

  /** A connected update sends a heartbeat once 30 s have gathered, and starts over. */
  lemma BeatExact(l: Link, u: Update)
    requires Polled(l, u.events).connected && Polled(l, u.events).peer
    ensures SentHeartbeat in Sent(l, u) <==> l.sinceBeat + u.deltaTime >= 30.0
    ensures Next(l, u).sinceBeat == if l.sinceBeat + u.deltaTime >= 30.0 then 0.0 else l.sinceBeat + u.deltaTime
  {
    hide Polled, Registers;
    PolledKeepsBeat(l, u.events);
  }

  lemma Standing(l: Link, us: seq<Update>, i: nat)
    requires Stands(l, us) && i < |us|
    ensures Stands(l, us[..i])
    ensures Beats(l, us, i) <==> After(l, us[..i]).sinceBeat + us[i].deltaTime >= 30.0
    ensures After(l, us[..i + 1]).sinceBeat == if Beats(l, us, i) then 0.0 else After(l, us[..i]).sinceBeat + us[i].deltaTime
  {
    if i == |us| - 1 {
      assert us[..i + 1] == us;
      BeatExact(After(l, us[..i]), us[i]);
    } else {
      var front := us[..|us| - 1];
      Standing(l, front, i);
      assert front[..i] == us[..i] && front[..i + 1] == us[..i + 1];
    }
  }

  lemma {:induction false} SinceLastBeat(l: Link, us: seq<Update>, i: nat, n: nat)
    requires Stands(l, us) && i < n <= |us| && Beats(l, us, i) && forall k :: i < k < n ==> !Beats(l, us, k)
    ensures After(l, us[..n]).sinceBeat == Elapsed(us[..n]) - Elapsed(us[..i + 1]) < 30.0
  {
    hide After, Stands, Beats;
    Standing(l, us, n - 1);
    if n > i + 1 {
      SinceLastBeat(l, us, i, n - 1);
      assert us[..n][..n - 1] == us[..n - 1];
    }
  }

  /** On a standing link the time from one heartbeat to the next is at least 30 s and
      falls short of 30 s plus the last update. */
  lemma GapBetweenBeats(l: Link, us: seq<Update>, i: nat, j: nat)
    requires Stands(l, us) && i < j < |us| && Beats(l, us, i) && Beats(l, us, j)
    requires forall k :: i < k < j ==> !Beats(l, us, k)
    ensures 30.0 <= Elapsed(us[..j + 1]) - Elapsed(us[..i + 1]) < 30.0 + us[j].deltaTime
  {
    hide Beats, After, Stands;
    SinceLastBeat(l, us, i, j);
    Standing(l, us, j);
    assert us[..j + 1][..j] == us[..j];
  }

  /** The clock after each update. */
  function Clock(t0: real, us: seq<Update>): seq<real> {
    if us == [] then [] else Clock(t0, us[..|us| - 1]) + [t0 + Elapsed(us)]
  }

  /** The clock after each update that sends a heartbeat. */
  ghost function BeatTimes(t0: real, l: Link, us: seq<Update>): seq<real> {
    if us == [] then []
    else
      var front := us[..|us| - 1];
      BeatTimes(t0, l, front) + (if SentHeartbeat in Sent(After(l, front), us[|us| - 1]) then [t0 + Elapsed(us)] else [])
  }

  function TickTimes(steps: seq<HeartbeatTiming.Step>): seq<real> {
    if steps == [] then []
    else
      var front, e := steps[..|steps| - 1], steps[|steps| - 1];
      if e.Tick? then TickTimes(front) + [e.at] else TickTimes(front)
  }

  /** On a standing link the heartbeats are those of the timing model: over any run of
      it that ticks when the link is updated, whatever is delivered or happens
      elsewhere in between, its send times grow by those of the updates that send a
      heartbeat. */
  lemma {:induction false} BeatsMatch(u: HeartbeatTiming.Setup, s: HeartbeatTiming.Sys, steps: seq<HeartbeatTiming.Step>,
                                      l: Link, us: seq<Update>)
    requires Stands(l, us) && s.acc == l.sinceBeat && TickTimes(steps) == Clock(s.lastTick, us)
    ensures var t := HeartbeatTiming.After(u, s, steps);
      && t.sent == s.sent + BeatTimes(s.lastTick, l, us)
      && t.acc == After(l, us).sinceBeat && t.lastTick == s.lastTick + Elapsed(us)
  {
    hide Sent, Next, MasterRegistry.On, HeartbeatTiming.Arrival;
    if steps != [] {
      var front, e := steps[..|steps| - 1], steps[|steps| - 1];
      if e.Tick? {
        var before, x := us[..|us| - 1], us[|us| - 1];
        ClockSnoc(TickTimes(front), e.at, s.lastTick, us);
        BeatsMatch(u, s, front, l, before);
        BeatExact(After(l, before), x);
      } else {
        BeatsMatch(u, s, front, l, us);
      }
    }
  }

  lemma ClockSnoc(times: seq<real>, at: real, t0: real, us: seq<Update>)
    requires times + [at] == Clock(t0, us)
    ensures us != [] && times == Clock(t0, us[..|us| - 1]) && at == t0 + Elapsed(us)
  {
    assert (times + [at])[|times|] == at && (times + [at])[..|times|] == times;
    assert us != [];
    var c := Clock(t0, us[..|us| - 1]);
    assert |times| == |c| && (c + [t0 + Elapsed(us)])[|c|] == t0 + Elapsed(us) && (c + [t0 + Elapsed(us)])[..|c|] == c;
  }

  /** A link that comes up and then stands sends one registration followed by its
      heartbeats, and in every timely run of them against the master the server is
      listed, and heard of within 90 s, once the registration has arrived. */
  lemma StandingLinkStaysListed(u: HeartbeatTiming.Setup, reg: MasterRegistry.Registry, l: Link, first: Update, us: seq<Update>,
                                t0: real, steps: seq<HeartbeatTiming.Step>)
    requires LinkOk(l) && l.peer && !l.connected && first.events == [Up] && 0.0 <= first.deltaTime
    requires Stands(Next(l, first), us) && TickTimes(steps) == Clock(t0, us)
    requires u.msg.version == 1 && 0.0 <= u.tick && 0.0 <= u.delay && 0.0 <= u.jitter && 30.0 + u.tick + u.jitter <= 90.0
    requires MasterRegistry.RegistryOk(reg) && u.peer !in reg.peers
    requires HeartbeatTiming.PeerKey(u) == HeartbeatTiming.OwnKey(u) || HeartbeatTiming.PeerKey(u) !in reg.servers
    requires HeartbeatTiming.Timely(u, HeartbeatTiming.Connected(u, reg, l.sinceBeat, first.deltaTime, t0), steps)
    ensures var s := HeartbeatTiming.After(u, HeartbeatTiming.Connected(u, reg, l.sinceBeat, first.deltaTime, t0), steps);
      && s.sent == [t0] + (if SentHeartbeat in Sent(l, first) then [t0] else []) + BeatTimes(t0, Next(l, first), us)
      && (s.delivered > 0 ==>
            && HeartbeatTiming.OwnKey(u) in s.reg.servers
            && s.reg.servers[HeartbeatTiming.OwnKey(u)].peer == u.peer
            && s.now - s.reg.servers[HeartbeatTiming.OwnKey(u)].lastHeartbeat < 90.0)
  {
    hide Stands, Next, Sent, BeatTimes, HeartbeatTiming.After, HeartbeatTiming.Timely, HeartbeatTiming.OwnKey,
         HeartbeatTiming.PeerKey, MasterRegistry.RegistryOk;
    var start := HeartbeatTiming.Connected(u, reg, l.sinceBeat, first.deltaTime, t0);
    FirstTick(l, first);
    BeatsMatch(u, start, steps, Next(l, first), us);
    HeartbeatTiming.NeverPruned(u, reg, l.sinceBeat, first.deltaTime, t0, steps);
  }

  lemma FirstTick(l: Link, u: Update)
    requires LinkOk(l) && l.peer && !l.connected && u.events == [Up]
    ensures Next(l, u).sinceBeat == if l.sinceBeat + u.deltaTime >= 30.0 then 0.0 else l.sinceBeat + u.deltaTime
    ensures SentHeartbeat in Sent(l, u) <==> l.sinceBeat + u.deltaTime >= 30.0
  {
    assert [Up][..0] == [];
    assert Polled(l, [Up]) == OnEvent(Polled(l, []), Up);
    BeatExact(l, u);
  }

  // ---- Reconnecting ------------------------------------------------------------------------

  /** Ticks without events in which no dial succeeds. */
  predicate Unlucky(us: seq<Update>) {
    forall i :: 0 <= i < |us| ==> us[i].events == [] && !us[i].dials && 0.0 <= us[i].deltaTime
  }

  function Elapsed(us: seq<Update>): real {
    if us == [] then 0.0 else Elapsed(us[..|us| - 1]) + us[|us| - 1].deltaTime
  }

  function Attempts(l: Link, us: seq<Update>): nat {
    if us == [] then 0
    else
      var front := us[..|us| - 1];
      Attempts(l, front) + (if Dialled in Sent(After(l, front), us[|us| - 1]) then 1 else 0)
  }

  /** 5, 10, 20, 40, then 60 seconds. */
  function Backoff(n: nat): real {
    if n == 0 then FIRST_DELAY else Doubled(Backoff(n - 1))
  }

  lemma {:induction false} BackoffValues(n: nat)
    ensures Backoff(n) == if n == 0 then 5.0 else if n == 1 then 10.0 else if n == 2 then 20.0
                          else if n == 3 then 40.0 else 60.0
  {
    if n > 0 {
      BackoffValues(n - 1);
    }
  }

  lemma QuietTick(l: Link, u: Update)
    requires u.events == []
    ensures Polled(l, u.events) == l && (Dialled in Sent(l, u) <==> Dials(l, u.deltaTime))
  {
    assert Registers(l, []) == [];
  }

  /** After n failed attempts the delay is the n-th back-off, and no time is lost:
      without an attempt all of it is on the timer. */
  lemma {:induction false} BackoffOverRuns(l: Link, us: seq<Update>)
    requires LinkOk(l) && !l.peer && Unlucky(us)
    ensures var a := After(l, us);
      && LinkOk(a) && !a.peer
      && (l.delay == FIRST_DELAY ==> a.delay == Backoff(Attempts(l, us)))
      && (Attempts(l, us) == 0 ==> a.delay == l.delay && a.timer == l.timer + Elapsed(us))
  {
    hide Sent;
    if us != [] {
      BackoffOverRuns(l, us[..|us| - 1]);
      QuietTick(After(l, us[..|us| - 1]), us[|us| - 1]);
    }
  }

  /** A disconnected server tries again within its current delay, so within 60 s. */
  lemma RedialsInTime(l: Link, us: seq<Update>)
    requires LinkOk(l) && !l.peer && Unlucky(us) && Elapsed(us) >= l.delay - l.timer
    ensures Attempts(l, us) >= 1 && l.delay - l.timer <= LAST_DELAY
  {
    BackoffOverRuns(l, us);
  }

  class MasterLink {
    var masterPeer: bool
    var masterConnected: bool
    var timeSinceMasterHeartbeat: real
    var masterReconnectTimer: real
    var masterReconnectDelay: real

    ghost function View(): Link
      reads this
    {
      Link(masterPeer, masterConnected, timeSinceMasterHeartbeat, masterReconnectTimer, masterReconnectDelay)
    }

    /** ConnectToMaster has dialled once. */
    constructor ()
      ensures View() == Link(true, false, 0.0, 0.0, FIRST_DELAY) && LinkOk(View())
    {
      masterPeer, masterConnected := true, false;
      timeSinceMasterHeartbeat, masterReconnectTimer, masterReconnectDelay := 0.0, 0.0, FIRST_DELAY;
    }

    method UpdateMasterConnection(events: seq<LinkEvent>, deltaTime: real, dials: bool) returns (sent: seq<Out>)
      modifies this
      ensures View() == Next(old(View()), Update(events, deltaTime, dials))
      ensures sent == Sent(old(View()), Update(events, deltaTime, dials))
      ensures Polled(old(View()), events).connected && Polled(old(View()), events).peer ==>
        (SentHeartbeat in sent <==> old(timeSinceMasterHeartbeat) + deltaTime >= 30.0)
    {
      if Polled(View(), events).connected && Polled(View(), events).peer {
        BeatExact(View(), Update(events, deltaTime, dials));
      }
      sent := [];
      for i := 0 to |events|
        invariant View() == Polled(old(View()), events[..i]) && sent == Registers(old(View()), events[..i])
      {
        assert events[..i + 1][..i] == events[..i];
        match events[i] {
          case Up =>
            masterConnected := true;
            masterReconnectDelay := FIRST_DELAY;
            if masterPeer {
              sent := sent + [SentRegister];
            }
          case Down =>
            masterConnected := false;
            masterPeer := false;
          case Data =>
        }
      }
      assert events[..|events|] == events;
      if masterConnected {
        timeSinceMasterHeartbeat := timeSinceMasterHeartbeat + deltaTime;
        if timeSinceMasterHeartbeat >= HeartbeatTiming.HEARTBEAT_INTERVAL {
          if masterPeer {
            sent := sent + [SentHeartbeat];
          }
          timeSinceMasterHeartbeat := 0.0;
        }
      } else if !masterPeer {
        masterReconnectTimer := masterReconnectTimer + deltaTime;
        if masterReconnectTimer >= masterReconnectDelay {
          masterReconnectTimer := 0.0;
          masterPeer := dials;
          sent := sent + [Dialled];
          masterReconnectDelay := Doubled(masterReconnectDelay);
        }
      }
    }
  }
}
