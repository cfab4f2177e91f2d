/** Replaying what the server queued for a client reproduces the server's view:
    who is in the session and, for every entity, who owns it and whether it lives. */
module Replication {
  import opened Base
  import opened Session
  import opened SessionInvariants

  // ---- The client's view ---------------------------------------------------

  /** self is the id granted by the handshake, known the mirrored entities,
      names the other players. */
  datatype Replica = Replica(self: U32, known: map<U32, Fact>, names: map<U32, string>)

  const BLANK: Replica := Replica(0, map[], map[])

  /** A handshake acknowledgement starts the view afresh. */
  function Apply(r: Replica, m: Msg): Replica {
    match m
    case HandshakeAck(id) => Replica(id, map[], map[])
    case PlayerJoined(id, name) => r.(names := r.names[id := name])
    case PlayerLeft(id) => r.(names := r.names - {id})
    case EntitySpawn(id, fact) => r.(known := r.known[id := fact])
    case BuildPlaced(id, t, builder) => r.(known := r.known[id := Fact(BUILDING, builder, t, 0, "", true)])
    case EntityDespawn(id, _) => r.(known := r.known - {id})
    case BuildDestroyed(id) => r.(known := r.known - {id})
    case CombatDeath(id, _) =>
      if id in r.known then r.(known := r.known[id := r.known[id].(alive := false)]) else r
    case _ => r
  }

  function ApplyAll(r: Replica, ms: seq<Msg>): Replica {
    if ms == [] then r else Apply(ApplyAll(r, ms[..|ms| - 1]), ms[|ms| - 1])
  }

  function Replay(log: seq<Msg>): Replica {
    ApplyAll(BLANK, log)
  }

  lemma {:induction false} ApplyConcat(r: Replica, a: seq<Msg>, b: seq<Msg>)
    ensures ApplyAll(r, a + b) == ApplyAll(ApplyAll(r, a), b)
  {
    if b == [] {
      assert a + b == a;
    } else {
      ApplyConcat(r, a, b[..|b| - 1]);
      assert (a + b)[..|a + b| - 1] == a + b[..|b| - 1];
    }
  }

  lemma ApplySnoc(r: Replica, a: seq<Msg>, m: Msg)
    ensures ApplyAll(r, a + [m]) == Apply(ApplyAll(r, a), m)
  {
    assert (a + [m])[..|a|] == a;
  }

  // ---- The server's view ---------------------------------------------------

  function KnownOf(entities: map<U32, Entity>): map<U32, Fact> {
    map id | id in entities :: FactOf(entities[id])
  }

  /** The join message carries at most 30 bytes of a name. */
  function NamesFor(players: map<U32, Player>, self: U32): map<U32, string> {
    map id | id in players && id != self :: Clip(players[id].name, MAX_NAME_LENGTH - 1)
  }

  function ViewFor(w: World, self: U32): Replica {
    Replica(self, KnownOf(w.entities), NamesFor(w.players, self))
  }

  /** Every client that can still be reached is up to date. */
  ghost predicate Replicated(w: World) {
    forall p :: 0 <= p < |w.peers| && w.peers[p].state.Open? && w.peers[p].data != 0 ==>
      Replay(w.peers[p].log) == ViewFor(w, w.peers[p].data)
  }

  ghost predicate AllInRange(entities: map<U32, Entity>) {
    forall id :: id in entities ==> InRange(entities[id].position)
  }

  /** The request places no entity outside the coordinate range. */
  predicate PlacesInRange(e: Event) {
    e.Packet? ==>
      && (e.request.Spawn? ==> InRange(e.request.position))
      && (e.request.Build? ==> InRange(e.request.position))
  }

  // ---- One event, seen from every client -----------------------------------

  /** ms is what the step appended to p's log, and it takes p's view, if right
      before, to the right view after. */
  ghost predicate Delivers(w: World, w': World, p: nat, ms: seq<Msg>)
    requires p < |w.peers| == |w'.peers|
  {
    && w'.peers[p].log == w.peers[p].log + ms
    && ApplyAll(ViewFor(w, w.peers[p].data), ms) == ViewFor(w', w.peers[p].data)
  }

  /** Every reachable client but `skip` was reachable before and is told what changed. */
  ghost predicate MirrorsBut(w: World, w': World, skip: int) {
    && |w.peers| == |w'.peers|
    && forall p :: 0 <= p < |w'.peers| && p != skip && w'.peers[p].state.Open? && w'.peers[p].data != 0 ==>
      && w.peers[p].state.Open? && w.peers[p].data == w'.peers[p].data
      && exists ms :: Delivers(w, w', p, ms)
  }

  ghost predicate Mirrors(w: World, w': World) {
    MirrorsBut(w, w', -1)
  }

  lemma MirrorsTransitive(a: World, b: World, c: World)
    requires Mirrors(a, b) && Mirrors(b, c)
    ensures Mirrors(a, c)
  {
    hide ViewFor, ApplyAll;
    forall p | 0 <= p < |c.peers| && c.peers[p].state.Open? && c.peers[p].data != 0
      ensures exists ms :: Delivers(a, c, p, ms)
    {
      var m1 :| Delivers(a, b, p, m1);
      var m2 :| Delivers(b, c, p, m2);
      ApplyConcat(ViewFor(a, a.peers[p].data), m1, m2);
      assert a.peers[p].log + m1 + m2 == a.peers[p].log + (m1 + m2);
      assert Delivers(a, c, p, m1 + m2);
    }
  }

  /** Who was right stays right. */
  lemma DeliveredView(w: World, w': World, p: nat, ms: seq<Msg>)
    requires p < |w.peers| == |w'.peers| && Delivers(w, w', p, ms)
    requires Replay(w.peers[p].log) == ViewFor(w, w.peers[p].data)
    ensures Replay(w'.peers[p].log) == ViewFor(w', w.peers[p].data)
  {
    ApplyConcat(BLANK, w.peers[p].log, ms);
  }

  /** A step that posts msgs to every open peer mirrors it when applying msgs to
      the old view gives the new one. */
  lemma BroadcastMirrors(w: World, w': World, msgs: seq<Msg>)
    requires w'.peers == Post(w.peers, Everyone, msgs)
    requires forall self :: ApplyAll(ViewFor(w, self), msgs) == ViewFor(w', self)
    ensures Mirrors(w, w')
  {
    hide ViewFor, ApplyAll;
    forall p | 0 <= p < |w'.peers| && w'.peers[p].state.Open? && w'.peers[p].data != 0
      ensures exists ms :: Delivers(w, w', p, ms)
    {
      assert w'.peers[p] == PostSlot(p, w.peers[p], Everyone, msgs);
      assert Delivers(w, w', p, msgs);
    }
  }

  /** A step that leaves facts and names alone and adds to logs only messages
      without effect on the view. */
  lemma QuietStep(w: World, w': World)
    requires |w'.peers| == |w.peers|
    requires KnownOf(w'.entities) == KnownOf(w.entities)
    requires forall self :: NamesFor(w'.players, self) == NamesFor(w.players, self)
    requires forall p :: 0 <= p < |w.peers| && w'.peers[p].state.Open? && w'.peers[p].data != 0 ==>
      && w.peers[p].state.Open? && w'.peers[p].data == w.peers[p].data
      && exists ms :: w'.peers[p].log == w.peers[p].log + ms
                      && ApplyAll(ViewFor(w, w.peers[p].data), ms) == ViewFor(w, w.peers[p].data)
    ensures Mirrors(w, w')
  {
    hide KnownOf, NamesFor, ApplyAll;
    forall p | 0 <= p < |w'.peers| && w'.peers[p].state.Open? && w'.peers[p].data != 0
      ensures exists ms :: Delivers(w, w', p, ms)
    {
      var ms :| w'.peers[p].log == w.peers[p].log + ms
                && ApplyAll(ViewFor(w, w.peers[p].data), ms) == ViewFor(w, w.peers[p].data);
      assert Delivers(w, w', p, ms);
    }
  }

  /** Messages that no view depends on. */
  predicate Inert(m: Msg) {
    m.HandshakeReject? || m.FactionAssignment? || m.CombatKO? || m.SquadCreated? || m.SystemMessage?
    || m.AdminResponse? || m.ServerInfo?
  }

  lemma {:induction false} InertApply(r: Replica, ms: seq<Msg>)
    requires forall m :: m in ms ==> Inert(m)
    ensures ApplyAll(r, ms) == r
  {
    if ms != [] {
      InertApply(r, ms[..|ms| - 1]);
      assert ms[|ms| - 1] in ms;
    }
  }

  // ---- Replaying the lists that handlers send --------------------------------

  /** What a newcomer learns of one player of the table. */
  function NameShown(players: map<U32, Player>, id: U32): string
    requires id in players
  {
    Clip(players[id].name, MAX_NAME_LENGTH - 1)
  }

  lemma {:induction false} ReplayJoined(r: Replica, players: map<U32, Player>, order: seq<U32>)
    requires r.names == map[]
    ensures var s := ApplyAll(r, JoinedMsgs(players, r.self, order));
      && s.self == r.self && s.known == r.known
      && (forall id :: id in s.names <==> id in order && id in players && id != r.self)
      && (forall id :: id in s.names ==> s.names[id] == NameShown(players, id))
  {
    hide NameShown, JoinedMsg, ApplyAll;
    if order == [] {
      NothingApplied(r, players);
    } else {
      var front, last := order[..|order| - 1], order[|order| - 1];
      ReplayJoined(r, players, front);
      assert forall x :: x in order <==> x in front || x == last;
      if last in players && last != r.self {
        JoinShown(players, last);
        ApplySnoc(r, JoinedMsgs(players, r.self, front), JoinedMsg(last, players[last].name));
      }
    }
  }

  lemma NothingApplied(r: Replica, players: map<U32, Player>)
    ensures ApplyAll(r, []) == r && JoinedMsgs(players, r.self, []) == []
  {
  }

  lemma JoinShown(players: map<U32, Player>, id: U32)
    requires id in players
    ensures JoinedMsg(id, players[id].name) == PlayerJoined(id, NameShown(players, id))
  {
  }

  lemma SpawnMsgPlain(e: Entity)
    requires |e.templateName| <= 255
    ensures SpawnMsg(e) == EntitySpawn(e.id, FactOf(e))
  {
  }

  lemma {:induction false} ReplaySnapshot(r: Replica, players: map<U32, Player>, entities: map<U32, Entity>, order: seq<U32>)
    requires r.known == map[]
    requires forall id :: id in entities ==> entities[id].id == id && |entities[id].templateName| <= 255
    ensures var s := ApplyAll(r, SnapshotMsgs(players, entities, order));
      && s.self == r.self && s.names == r.names
      && (forall id :: id in s.known <==> id in order && id in entities && InSnapshot(players, entities[id]))
      && (forall id :: id in s.known ==> s.known[id] == FactOf(entities[id]))
  {
    if order != [] {
      hide SpawnMsg, InRange;
      var front, last := order[..|order| - 1], order[|order| - 1];
      ReplaySnapshot(r, players, entities, front);
      assert order == front + [last];
      if last in entities && InSnapshot(players, entities[last]) {
        SpawnMsgPlain(entities[last]);
        ApplySnoc(r, SnapshotMsgs(players, entities, front), SpawnMsg(entities[last]));
      }
    }
  }

  lemma {:induction false} ReplayZone(r: Replica, entities: map<U32, Entity>, pid: U32, zone: Zone, order: seq<U32>)
    requires r.known == KnownOf(entities)
    requires forall id :: id in entities ==> entities[id].id == id && |entities[id].templateName| <= 255
    ensures ApplyAll(r, ZoneMsgs(entities, pid, zone, order)) == r
  {
    if order != [] {
      var front, last := order[..|order| - 1], order[|order| - 1];
      ReplayZone(r, entities, pid, zone, front);
      if last in entities && InZoneReply(pid, zone, entities[last]) {
        ApplySnoc(r, ZoneMsgs(entities, pid, zone, front), SpawnMsg(entities[last]));
        assert r.known[last := FactOf(entities[last])] == r.known;
      }
    }
  }

  lemma {:induction false} ReplayDespawns(r: Replica, ids: seq<U32>)
    ensures ApplyAll(r, DespawnMsgs(ids)) == r.(known := r.known - (set id | id in ids))
  {
    if ids == [] {
      assert r.known - (set id | id in ids) == r.known;
    } else {
      var front, last := ids[..|ids| - 1], ids[|ids| - 1];
      ReplayDespawns(r, front);
      assert DespawnMsgs(ids) == DespawnMsgs(front) + [EntityDespawn(last, 1)];
      ApplySnoc(r, DespawnMsgs(front), EntityDespawn(last, 1));
      assert ids == front + [last];
      assert (r.known - (set id | id in front)) - {last} == r.known - (set id | id in ids);
    }
  }

  // ---- The handlers --------------------------------------------------------

  lemma {:induction false} Single(r: Replica, m: Msg)
    ensures ApplyAll(r, [m]) == Apply(r, m)
  {
    ApplySnoc(r, [], m);
    assert [] + [m] == [m];
  }

  lemma SpawnMirrors(w: World, pid: U32, r: Request)
    requires r.Spawn? && pid in w.players
    ensures Mirrors(w, OnSpawn(w, pid, r))
  {
    var w' := OnSpawn(w, pid, r);
    if w'.nextEntityId != w.nextEntityId {
      var id := w.nextEntityId;
      var m := EntitySpawn(id, FactOf(w'.entities[id]));
      forall self ensures ApplyAll(ViewFor(w, self), [m]) == ViewFor(w', self) {
        Single(ViewFor(w, self), m);
        assert KnownOf(w.entities)[id := m.fact] == KnownOf(w'.entities);
        assert NamesFor(w'.players, self) == NamesFor(w.players, self);
      }
      BroadcastMirrors(w, w', [m]);
    } else {
      SilentStep(w, w');
    }
  }

  lemma BuildMirrors(w: World, pid: U32, t: U32, pos: Vec3, rot: U32)
    ensures Mirrors(w, OnBuild(w, pid, t, pos, rot))
  {
    var w' := OnBuild(w, pid, t, pos, rot);
    var id := w.nextEntityId;
    var m := BuildPlaced(id, t, pid);
    forall self ensures ApplyAll(ViewFor(w, self), [m]) == ViewFor(w', self) {
      Single(ViewFor(w, self), m);
      assert KnownOf(w.entities)[id := Fact(BUILDING, pid, t, 0, "", true)] == KnownOf(w'.entities);
    }
    BroadcastMirrors(w, w', [m]);
  }

  lemma RemovalMirrors(w: World, w': World, id: U32, m: Msg)
    requires m == BuildDestroyed(id) || (m.EntityDespawn? && m.id == id)
    requires w'.entities == w.entities - {id} && w'.players == w.players
    requires w'.peers == Post(w.peers, Everyone, [m])
    ensures Mirrors(w, w')
  {
    forall self ensures ApplyAll(ViewFor(w, self), [m]) == ViewFor(w', self) {
      Single(ViewFor(w, self), m);
      assert KnownOf(w.entities) - {id} == KnownOf(w'.entities);
    }
    BroadcastMirrors(w, w', [m]);
  }

  lemma DeathMirrors(w: World, w': World, id: U32, killer: U32, e: Entity)
    requires id in w.entities && FactOf(e) == FactOf(w.entities[id]).(alive := false)
    requires w'.entities == w.entities[id := e] && w'.players == w.players
    requires w'.peers == Post(w.peers, Everyone, [CombatDeath(id, killer)])
    ensures Mirrors(w, w')
  {
    var m := CombatDeath(id, killer);
    forall self ensures ApplyAll(ViewFor(w, self), [m]) == ViewFor(w', self) {
      Single(ViewFor(w, self), m);
      assert KnownOf(w.entities)[id := FactOf(e)] == KnownOf(w'.entities);
    }
    BroadcastMirrors(w, w', [m]);
  }

  /** Inert messages and changes that no fact or name shows. */
  lemma InertBroadcast(w: World, w': World, a: Audience, msgs: seq<Msg>)
    requires forall m :: m in msgs ==> Inert(m)
    requires w'.peers == Post(w.peers, a, msgs)
    requires KnownOf(w'.entities) == KnownOf(w.entities)
    requires forall self :: NamesFor(w'.players, self) == NamesFor(w.players, self)
    ensures Mirrors(w, w')
  {
    forall p | 0 <= p < |w.peers| && w'.peers[p].state.Open? && w'.peers[p].data != 0
      ensures exists ms :: w'.peers[p].log == w.peers[p].log + ms
                           && ApplyAll(ViewFor(w, w.peers[p].data), ms) == ViewFor(w, w.peers[p].data)
    {
      var ms := if Hears(p, w.peers[p], a) then msgs else [];
      InertApply(ViewFor(w, w.peers[p].data), ms);
      assert w'.peers[p].log == w.peers[p].log + ms;
    }
    QuietStep(w, w');
  }

  lemma SilentStep(w: World, w': World)
    requires w'.peers == w.peers
    requires KnownOf(w'.entities) == KnownOf(w.entities)
    requires forall self :: NamesFor(w'.players, self) == NamesFor(w.players, self)
    ensures Mirrors(w, w')
  {
    PostNothing(w.peers, Everyone);
    InertBroadcast(w, w', Everyone, []);
  }

  lemma ShutMirrors(w: World, w': World, p: nat)
    requires w'.peers == Shut(w.peers, p)
    requires w'.entities == w.entities && w'.players == w.players
    ensures Mirrors(w, w')
  {
    forall q | 0 <= q < |w'.peers| && w'.peers[q].state.Open? && w'.peers[q].data != 0
      ensures exists ms :: Delivers(w, w', q, ms)
    {
      assert w.peers[q].log + [] == w.peers[q].log;
      assert Delivers(w, w', q, []);
    }
  }

  lemma AttackMirrors(w: World, pid: U32, r: Request, env: Env)
    requires r.Attack?
    ensures Mirrors(w, OnAttack(w, pid, r.attacker, r.target, r.attackType, env.dice))
  {
    var w' := OnAttack(w, pid, r.attacker, r.target, r.attackType, env.dice);
    if CanAttack(w, pid, r.attacker, r.target, r.attackType) {
      var o := Combat.Resolve(w.entities[r.target].health, env.dice);
      if o.wasDeath {
        DeathMirrors(w, w', r.target, r.attacker, w'.entities[r.target]);
      } else {
        assert KnownOf(w'.entities) == KnownOf(w.entities);
        InertBroadcast(w, w', Everyone, if o.wasKO then [CombatKO(r.target, r.attacker)] else []);
      }
    } else {
      SilentStep(w, w');
    }
  }

  /** An attack changes somebody's view exactly when it kills. */
  lemma AttackShownIff(w: World, pid: U32, r: Request, env: Env, self: U32)
    requires r.Attack?
    ensures ViewFor(OnAttack(w, pid, r.attacker, r.target, r.attackType, env.dice), self) != ViewFor(w, self) <==>
      CanAttack(w, pid, r.attacker, r.target, r.attackType)
      && Combat.Resolve(w.entities[r.target].health, env.dice).wasDeath
  {
    hide Combat.Resolve;
    var w' := OnAttack(w, pid, r.attacker, r.target, r.attackType, env.dice);
    if CanAttack(w, pid, r.attacker, r.target, r.attackType) {
      assert KnownOf(w.entities)[r.target].alive;
      if Combat.Resolve(w.entities[r.target].health, env.dice).wasDeath {
        assert !KnownOf(w'.entities)[r.target].alive;
      } else {
        assert KnownOf(w'.entities) == KnownOf(w.entities);
      }
    }
  }

  lemma MoveMirrors(w: World, pid: U32, us: seq<PosUpdate>)
    requires pid in w.players
    ensures Mirrors(w, OnMove(w, pid, us))
  {
    var w' := OnMove(w, pid, us);
    MoveEachFrame(w, pid, us);
    assert KnownOf(w'.entities) == KnownOf(w.entities);
    forall self ensures NamesFor(w'.players, self) == NamesFor(w.players, self) {}
    SilentStep(w, w');
  }

  lemma ZoneMirrors(w: World, p: nat, pid: U32, x: int, y: int, env: Env)
    requires SessionOk(w)
    ensures Mirrors(w, OnZoneRequest(w, p, pid, x, y, env))
  {
    var w' := OnZoneRequest(w, p, pid, x, y, env);
    if w' != w {
      var msgs := ZoneMsgs(w.entities, pid, Zone(x, y), env.entityOrder);
      forall q | 0 <= q < |w.peers| && w'.peers[q].state.Open? && w'.peers[q].data != 0
        ensures exists ms :: w'.peers[q].log == w.peers[q].log + ms
                             && ApplyAll(ViewFor(w, w.peers[q].data), ms) == ViewFor(w, w.peers[q].data)
      {
        ReplayZone(ViewFor(w, w.peers[q].data), w.entities, pid, Zone(x, y), env.entityOrder);
        var ms := if q == p then msgs else [];
        assert w'.peers[q].log == w.peers[q].log + ms;
      }
      QuietStep(w, w');
    } else {
      SilentStep(w, w');
    }
  }

  lemma AdminKickMirrors(w: World, p: nat, pid: U32, target: U32, reason: string)
    ensures Mirrors(w, OnAdminKick(w, p, pid, target, reason))
  {
    if pid == w.host && target in w.players && target != w.host {
      var q := w.players[target].peer;
      var m1 := [SystemMessage(w.players[target].name + " was kicked: " + reason)];
      var w1 := w.(peers := Post(w.peers, Everyone, m1));
      InertBroadcast(w, w1, Everyone, m1);
      var w2 := w.(peers := Post(w1.peers, Only(q), [HandshakeReject(2)]));
      InertBroadcast(w1, w2, Only(q), [HandshakeReject(2)]);
      var w3 := w.(peers := Shut(w2.peers, q));
      ShutMirrors(w2, w3, q);
      InertBroadcast(w3, OnAdminKick(w, p, pid, target, reason), Only(p), [AdminResponse(true)]);
      MirrorsTransitive(w, w1, w2);
      MirrorsTransitive(w, w2, w3);
      MirrorsTransitive(w, w3, OnAdminKick(w, p, pid, target, reason));
    } else {
      InertBroadcast(w, OnAdminKick(w, p, pid, target, reason), Only(p), [AdminResponse(pid == w.host)]);
    }
  }

  lemma UpdateMirrors(w: World, id: U32, e: Entity)
    requires id in w.entities && FactOf(e) == FactOf(w.entities[id])
    ensures Mirrors(w, w.(entities := w.entities[id := e]))
  {
    assert KnownOf(w.entities[id := e]) == KnownOf(w.entities);
    SilentStep(w, w.(entities := w.entities[id := e]));
  }

  lemma PlayerRequestMirrors(w: World, p: nat, pid: U32, r: Request, env: Env)
    requires SessionOk(w) && pid in w.players
    ensures Mirrors(w, OnPlayerRequest(w, p, pid, r, env))
  {
    hide Post, Mirrors, SessionOk, KnownOf, OnMove, OnAttack, OnZoneRequest, OnAdminKick, OnBuild, OnSpawn, ZoneOf;
    var w' := OnPlayerRequest(w, p, pid, r, env);
    if w' == w {
      SilentStep(w, w);
    }
    match r
    case Move(us) => MoveMirrors(w, pid, us);
    case Attack(_, _, _) => AttackMirrors(w, pid, r, env);
    case Build(t, pos, rot) => BuildMirrors(w, pid, t, pos, rot);
    case Spawn(_, _, _, _, _, _, _) => SpawnMirrors(w, pid, r);
    case Despawn(id, reason) => if w' != w { RemovalMirrors(w, w', id, EntityDespawn(id, reason)); }
    case Equip(id, _, _) => if w' != w { UpdateMirrors(w, id, w'.entities[id]); }
    case ZoneRequest(x, y) => ZoneMirrors(w, p, pid, x, y, env);
    case CreateSquad(c) => if w' != w { InertBroadcast(w, w', Everyone, [SquadCreated(c, w.nextSquadId)]); }
    case Dismantle(id) => if w' != w { RemovalMirrors(w, w', id, BuildDestroyed(id)); }
    case Repair(id, _) => if w' != w { UpdateMirrors(w, id, w'.entities[id]); }
    case ReportKO(id, _, _) => if w' != w { UpdateMirrors(w, id, w'.entities[id]); }
    case ReportDeath(id, killer) => if w' != w { DeathMirrors(w, w', id, killer, w'.entities[id]); }
    case AdminKick(target, reason) => AdminKickMirrors(w, p, pid, target, reason);
    case _ =>
  }

  // ---- Leaving -------------------------------------------------------------

  /** The messages every remaining player receives when pid leaves. */
  ghost function LeaveMsgs(w: World, p: nat, env: Env): seq<Msg>
    requires PlayerAt(w, p).Some?
  {
    var pid := PlayerAt(w, p).value;
    var rest := w.players - {pid};
    DespawnMsgs(OwnedIn(w.entities, pid, env.entityOrder)) + [PlayerLeft(pid)]
    + (if pid == w.host && rest != map[]
       then [SystemMessage(NameOf(rest, Heir(env.playerOrder, pid)) + " is now the host")] else [])
    + [SystemMessage(w.players[pid].name + " left the game")]
  }

  lemma LeaveLog(w: World, p: nat, env: Env, q: nat)
    requires PlayerAt(w, p).Some? && q < |w.peers| && q != p
    requires w.peers[q].state.Open? && w.peers[q].data != 0 && w.peers[q].data != w.peers[p].data
    ensures OnDisconnect(w, p, env).peers[q] == w.peers[q].(log := w.peers[q].log + LeaveMsgs(w, p, env))
  {
    var pid := PlayerAt(w, p).value;
    var ds := DespawnMsgs(OwnedIn(w.entities, pid, env.entityOrder));
    var log := w.peers[q].log;
    assert log + ds + [PlayerLeft(pid)] == log + (ds + [PlayerLeft(pid)]);
    assert OnDisconnect(w, p, env).peers[q].log == log + LeaveMsgs(w, p, env);
  }

  lemma LeaveApply(v: Replica, gone: seq<U32>, pid: U32, h: seq<Msg>, l: seq<Msg>)
    requires forall m :: m in h + l ==> Inert(m)
    ensures ApplyAll(v, DespawnMsgs(gone) + [PlayerLeft(pid)] + h + l) ==
      Replica(v.self, v.known - (set id | id in gone), v.names - {pid})
  {
    var a := DespawnMsgs(gone);
    ReplayDespawns(v, gone);
    ApplySnoc(v, a, PlayerLeft(pid));
    assert a + [PlayerLeft(pid)] + h + l == a + [PlayerLeft(pid)] + (h + l);
    ApplyConcat(v, a + [PlayerLeft(pid)], h + l);
    InertApply(ApplyAll(v, a + [PlayerLeft(pid)]), h + l);
  }

  lemma LeaveMaps(w: World, p: nat, env: Env, self: U32)
    requires PlayerAt(w, p).Some? && EnvOk(w, env) && p < |w.peers|
    ensures var w' := OnDisconnect(w, p, env); var pid := PlayerAt(w, p).value;
      && KnownOf(w.entities) - (set id | id in OwnedIn(w.entities, pid, env.entityOrder)) == KnownOf(w'.entities)
      && NamesFor(w.players, self) - {pid} == NamesFor(w'.players, self)
  {
    DisconnectEntities(w, p, env);
    OwnedInMeaning(w.entities, PlayerAt(w, p).value, env.entityOrder);
  }

  lemma LeaveView(w: World, p: nat, env: Env, self: U32)
    requires PlayerAt(w, p).Some? && EnvOk(w, env) && p < |w.peers|
    ensures ApplyAll(ViewFor(w, self), LeaveMsgs(w, p, env)) == ViewFor(OnDisconnect(w, p, env), self)
  {
    var pid := PlayerAt(w, p).value;
    var rest := w.players - {pid};
    var h := if pid == w.host && rest != map[]
      then [SystemMessage(NameOf(rest, Heir(env.playerOrder, pid)) + " is now the host")] else [];
    LeaveApply(ViewFor(w, self), OwnedIn(w.entities, pid, env.entityOrder), pid, h,
               [SystemMessage(w.players[pid].name + " left the game")]);
    LeaveMaps(w, p, env, self);
  }

  lemma DisconnectMirrors(w: World, p: nat, env: Env)
    requires SessionOk(w) && p < |w.peers| && EnvOk(w, env)
    ensures Mirrors(w, OnDisconnect(w, p, env))
  {
    var w' := OnDisconnect(w, p, env);
    DisconnectLinks(w, p, env);
    forall q | 0 <= q < |w'.peers| && w'.peers[q].state.Open? && w'.peers[q].data != 0
      ensures w.peers[q].state.Open? && w.peers[q].data == w'.peers[q].data && exists ms :: Delivers(w, w', q, ms)
    {
      OpenBefore(w, p, env, q);
      if PlayerAt(w, p).Some? {
        LeaveLog(w, p, env, q);
        LeaveView(w, p, env, w.peers[q].data);
        assert Delivers(w, w', q, LeaveMsgs(w, p, env));
      } else {
        assert w.peers[q].log + [] == w.peers[q].log;
        assert Delivers(w, w', q, []);
      }
    }
  }

  lemma OpenBefore(w: World, p: nat, env: Env, q: nat)
    requires SessionOk(w) && p < |w.peers| && q < |w.peers|
    requires OnDisconnect(w, p, env).peers[q].state.Open? && OnDisconnect(w, p, env).peers[q].data != 0
    ensures q != p && w.peers[q].state.Open? && w.peers[q].data != 0
    ensures w.peers[p].data != 0 ==> w.peers[q].data != w.peers[p].data
    ensures OnDisconnect(w, p, env).peers[q].data == w.peers[q].data
  {
    DisconnectLinks(w, p, env);
  }

  // ---- Joining -------------------------------------------------------------

  /** What the new player receives, starting with the acknowledgement. */
  ghost function WelcomeMsgs(w: World, id: U32, name: string, players: map<U32, Player>, env: Env): seq<Msg> {
    [HandshakeAck(id), FactionAssignment((id + 1) % 2)] + JoinedMsgs(players, id, env.playerOrder)
    + SnapshotMsgs(players, w.entities, env.entityOrder) + [SystemMessage(name + " joined the game")]
  }

  lemma WelcomeLog(w: World, p: nat, raw: string, env: Env)
    requires p < |w.peers| && Admits(w, p, PROTOCOL_VERSION) && w.peers[p].state.Open?
    ensures var w' := OnHandshake(w, p, PROTOCOL_VERSION, raw, env);
      w'.peers[p].log == w.peers[p].log + WelcomeMsgs(w, w.nextPlayerId, Sanitize(raw), w'.players, env)
  {
  }

  lemma WelcomeApply(before: Replica, a: Msg, f: Msg, js: seq<Msg>, ss: seq<Msg>, l: Msg)
    requires a.HandshakeAck? && Inert(f) && Inert(l)
    ensures ApplyAll(before, [a, f] + js + ss + [l])
         == ApplyAll(ApplyAll(Replica(a.playerId, map[], map[]), js), ss)
  {
    assert [a, f] == [a] + [f];
    Single(before, a);
    ApplySnoc(before, [a], f);
    ApplyConcat(before, [a, f], js);
    ApplyConcat(before, [a, f] + js, ss);
    ApplySnoc(before, [a, f] + js + ss, l);
  }

  /** The entities the snapshot shows. */
  ghost function Shown(players: map<U32, Player>, entities: map<U32, Entity>): map<U32, Fact> {
    map e | e in entities && InSnapshot(players, entities[e]) :: FactOf(entities[e])
  }

  lemma JoinedView(id: U32, players: map<U32, Player>, order: seq<U32>)
    requires forall k :: k in players && k != id ==> k in order
    ensures ApplyAll(Replica(id, map[], map[]), JoinedMsgs(players, id, order)) == Replica(id, map[], NamesFor(players, id))
  {
    ReplayJoined(Replica(id, map[], map[]), players, order);
    assert ApplyAll(Replica(id, map[], map[]), JoinedMsgs(players, id, order)).names == NamesFor(players, id);
  }

  lemma SnapshotView(r: Replica, players: map<U32, Player>, entities: map<U32, Entity>, order: seq<U32>)
    requires r.known == map[]
    requires forall e :: e in entities ==> entities[e].id == e && |entities[e].templateName| <= 255
    requires forall e :: e in entities ==> e in order
    ensures ApplyAll(r, SnapshotMsgs(players, entities, order)) == r.(known := Shown(players, entities))
  {
    ReplaySnapshot(r, players, entities, order);
    assert ApplyAll(r, SnapshotMsgs(players, entities, order)).known == Shown(players, entities);
  }

  /** Replaying the welcome gives the players and exactly the entities the
      snapshot does not skip, whatever the log held before. */
  lemma WelcomeView(w: World, id: U32, name: string, players: map<U32, Player>, env: Env, before: Replica)
    requires forall e :: e in w.entities ==> w.entities[e].id == e && |w.entities[e].templateName| <= 255
    requires forall e :: e in w.entities ==> e in env.entityOrder
    requires forall k :: k in players && k != id ==> k in env.playerOrder
    ensures ApplyAll(before, WelcomeMsgs(w, id, name, players, env)) ==
      Replica(id, Shown(players, w.entities), NamesFor(players, id))
  {
    WelcomeApply(before, HandshakeAck(id), FactionAssignment((id + 1) % 2),
                 JoinedMsgs(players, id, env.playerOrder), SnapshotMsgs(players, w.entities, env.entityOrder),
                 SystemMessage(name + " joined the game"));
    JoinedView(id, players, env.playerOrder);
    SnapshotView(Replica(id, map[], NamesFor(players, id)), players, w.entities, env.entityOrder);
  }

  lemma ShownExact(players: map<U32, Player>, entities: map<U32, Entity>)
    requires forall e :: e in entities ==> entities[e].owner in players
    ensures Shown(players, entities) == KnownOf(entities) <==> AllInRange(entities)
  {
    if AllInRange(entities) {
      assert Shown(players, entities) == KnownOf(entities);
    } else {
      var bad :| bad in entities && !InRange(entities[bad].position);
      assert bad !in Shown(players, entities) && bad in KnownOf(entities);
    }
  }

  lemma AdmittedPlayers(w: World, p: nat, raw: string, env: Env)
    requires p < |w.peers| && Admits(w, p, PROTOCOL_VERSION)
    ensures var w' := OnHandshake(w, p, PROTOCOL_VERSION, raw, env); var id := w.nextPlayerId;
      && w'.players == w.players[id := Player(id, Sanitize(raw), p, ORIGIN, Zone(0, 0))]
      && w'.entities == w.entities
  {
  }

  /** A joining client knows all players and the entities of the snapshot. */
  lemma JoinerView(w: World, p: nat, raw: string, env: Env)
    requires SessionOk(w) && p < |w.peers| && w.peers[p].state.Open? && EnvOk(w, env) && Headroom(w)
    requires Admits(w, p, PROTOCOL_VERSION)
    ensures var w' := OnHandshake(w, p, PROTOCOL_VERSION, raw, env); var id := w.nextPlayerId;
      && w'.peers[p].data == id && w'.entities == w.entities
      && Replay(w'.peers[p].log) == Replica(id, Shown(w'.players, w.entities), NamesFor(w'.players, id))
  {
    var w' := OnHandshake(w, p, PROTOCOL_VERSION, raw, env);
    var id := w.nextPlayerId;
    HandshakeLinks(w, p, PROTOCOL_VERSION, raw, env);
    AdmittedPlayers(w, p, raw, env);
    WelcomeLog(w, p, raw, env);
    ApplyConcat(BLANK, w.peers[p].log, WelcomeMsgs(w, id, Sanitize(raw), w'.players, env));
    WelcomeView(w, id, Sanitize(raw), w'.players, env, Replay(w.peers[p].log));
  }

  /** A joining client's view is right if and only if every entity it should
      know of has coordinates in range: the snapshot skips all others. */
  lemma JoinerExact(w: World, p: nat, raw: string, env: Env)
    requires SessionOk(w) && p < |w.peers| && w.peers[p].state.Open? && EnvOk(w, env) && Headroom(w)
    requires Admits(w, p, PROTOCOL_VERSION)
    ensures var w' := OnHandshake(w, p, PROTOCOL_VERSION, raw, env);
      && w'.peers[p].data == w.nextPlayerId
      && (Replay(w'.peers[p].log) == ViewFor(w', w'.peers[p].data) <==> AllInRange(w.entities))
  {
    hide OnHandshake, Replay, KnownOf, NamesFor, Shown;
    var w' := OnHandshake(w, p, PROTOCOL_VERSION, raw, env);
    JoinerView(w, p, raw, env);
    AdmittedPlayers(w, p, raw, env);
    ShownExact(w'.players, w.entities);
  }

  lemma WitnessLog(w: World, p: nat, raw: string, env: Env, q: nat)
    requires SessionOk(w) && p < |w.peers| && q < |w.peers| && q != p && Headroom(w)
    requires Admits(w, p, PROTOCOL_VERSION) && w.peers[q].state.Open? && w.peers[q].data != 0
    ensures OnHandshake(w, p, PROTOCOL_VERSION, raw, env).peers[q].log == w.peers[q].log
      + [JoinedMsg(w.nextPlayerId, Sanitize(raw))] + [SystemMessage(Sanitize(raw) + " joined the game")]
  {
  }

  /** The two notices take a witness's view to the view with the newcomer. */
  lemma WitnessApply(w: World, w': World, pl: Player, self: U32, s: Msg)
    requires w'.players == w.players[pl.id := pl] && w'.entities == w.entities && pl.id != self && Inert(s)
    ensures ApplyAll(ViewFor(w, self), [JoinedMsg(pl.id, pl.name)] + [s]) == ViewFor(w', self)
  {
    var j := JoinedMsg(pl.id, pl.name);
    Single(ViewFor(w, self), j);
    ApplySnoc(ViewFor(w, self), [j], s);
    assert NamesFor(w.players, self)[pl.id := Clip(pl.name, MAX_NAME_LENGTH - 1)] == NamesFor(w'.players, self);
  }

  /** The players already present learn of the newcomer. */
  lemma WitnessJoin(w: World, p: nat, raw: string, env: Env, q: nat)
    requires SessionOk(w) && p < |w.peers| && q < |w.peers| && q != p && Headroom(w)
    requires Admits(w, p, PROTOCOL_VERSION) && w.peers[q].state.Open? && w.peers[q].data != 0
    ensures var w' := OnHandshake(w, p, PROTOCOL_VERSION, raw, env);
      && |w'.peers| == |w.peers| && exists ms :: Delivers(w, w', q, ms)
  {
    hide OnHandshake, Sanitize, ViewFor, ApplyAll;
    var w' := OnHandshake(w, p, PROTOCOL_VERSION, raw, env);
    var id, name := w.nextPlayerId, Sanitize(raw);
    var log := w.peers[q].log;
    var j, s := JoinedMsg(id, name), SystemMessage(name + " joined the game");
    WitnessLog(w, p, raw, env, q);
    HandshakeLinks(w, p, PROTOCOL_VERSION, raw, env);
    AdmittedPlayers(w, p, raw, env);
    WitnessApply(w, w', Player(id, name, p, ORIGIN, Zone(0, 0)), w.peers[q].data, s);
    assert log + [j] + [s] == log + ([j] + [s]);
    assert Delivers(w, w', q, [j] + [s]);
  }

  lemma HandshakeMirrors(w: World, p: nat, version: U32, raw: string, env: Env)
    requires SessionOk(w) && Headroom(w) && p < |w.peers| && EnvOk(w, env)
    ensures MirrorsBut(w, OnHandshake(w, p, version, raw, env), if Admits(w, p, version) then p else -1)
  {
    hide OnHandshake, Delivers, SessionOk;
    var w' := OnHandshake(w, p, version, raw, env);
    if Admits(w, p, version) {
      HandshakeLinks(w, p, version, raw, env);
      forall q | 0 <= q < |w'.peers| && q != p && w'.peers[q].state.Open? && w'.peers[q].data != 0
        ensures w.peers[q].state.Open? && w.peers[q].data == w'.peers[q].data && exists ms :: Delivers(w, w', q, ms)
      {
        AdmitStates(w, p, raw, env, q);
        WitnessJoin(w, p, raw, env, q);
      }
    } else {
      RefusalCases(w, p, version, raw, env);
      if w' == w {
        SilentStep(w, w);
      } else {
        RejectMirrors(w, p, if |w.players| >= SizeT(w.maxPlayers) then 0 else 1);
      }
    }
  }

  lemma RefusalCases(w: World, p: nat, version: U32, raw: string, env: Env)
    requires p < |w.peers| && !Admits(w, p, version)
    ensures var w' := OnHandshake(w, p, version, raw, env);
      var code := if |w.players| >= SizeT(w.maxPlayers) then 0 else 1;
      if w.peers[p].data != 0 then w' == w
      else w' == w.(peers := Shut(Post(w.peers, Only(p), [HandshakeReject(code)]), p))
  {
  }

  lemma AdmitStates(w: World, p: nat, raw: string, env: Env, q: nat)
    requires p < |w.peers| && q < |w.peers| && Admits(w, p, PROTOCOL_VERSION)
    ensures var w' := OnHandshake(w, p, PROTOCOL_VERSION, raw, env);
      && (w'.peers[q].state == w.peers[q].state)
      && (q != p ==> w'.peers[q].data == w.peers[q].data)
  {
  }

  lemma RejectMirrors(w: World, p: nat, code: nat)
    ensures Mirrors(w, w.(peers := Shut(Post(w.peers, Only(p), [HandshakeReject(code)]), p)))
  {
    ShutAfter(w, Only(p), HandshakeReject(code), p);
  }

  /** One message without effect, then a disconnection. */
  lemma ShutAfter(w: World, a: Audience, m: Msg, p: nat)
    requires Inert(m)
    ensures Mirrors(w, w.(peers := Shut(Post(w.peers, a, [m]), p)))
  {
    hide Mirrors, Post, Shut;
    var w1 := w.(peers := Post(w.peers, a, [m]));
    var w2 := w.(peers := Shut(w1.peers, p));
    InertBroadcast(w, w1, a, [m]);
    ShutMirrors(w1, w2, p);
    MirrorsTransitive(w, w1, w2);
  }

  // ---- Runs ----------------------------------------------------------------

  /** The slot whose handshake the event completes, or -1. */
  function Newcomer(w: World, e: Event): int {
    if e.Packet? && e.request.Handshake? && e.peer < |w.peers| && Admits(w, e.peer, e.request.version) then e.peer else -1
  }

  lemma PacketMirrors(w: World, p: nat, r: Request, env: Env)
    requires SessionOk(w) && Headroom(w) && p < |w.peers| && EnvOk(w, env)
    ensures MirrorsBut(w, OnPacket(w, p, r, env), Newcomer(w, Packet(p, r, env)))
  {
    hide MirrorsBut, SessionOk, OnHandshake, Admits, Post, Shut;
    if r.Handshake? {
      HandshakeMirrors(w, p, r.version, r.rawName, env);
    } else if r.ServerQuery? {
      ShutAfter(w, Only(p), ServerInfo(|w.players|), p);
    } else if r.Leave? {
      ShutMirrors(w, OnPacket(w, p, r, env), p);
    } else if PlayerAt(w, p).Some? {
      PlayerRequestMirrors(w, p, PlayerAt(w, p).value, r, env);
    } else {
      SilentStep(w, w);
    }
  }

  lemma ConsoleKickMirrors(w: World, id: U32, reason: string)
    ensures Mirrors(w, OnConsoleKick(w, id, reason))
  {
    if id in w.players {
      ShutAfter(w, Everyone, SystemMessage(w.players[id].name + " was kicked: " + reason), w.players[id].peer);
    } else {
      SilentStep(w, w);
    }
  }

  lemma ConnectMirrors(w: World, p: nat)
    requires p < |w.peers|
    ensures Mirrors(w, OnConnect(w, p))
  {
    var w' := OnConnect(w, p);
    forall q | 0 <= q < |w'.peers| && w'.peers[q].state.Open? && w'.peers[q].data != 0
      ensures exists ms :: Delivers(w, w', q, ms)
    {
      assert w.peers[q].log + [] == w.peers[q].log;
      assert Delivers(w, w', q, []);
    }
  }

  /** Whatever the coordinates, one event tells every reachable client but the
      newcomer exactly what changed. */
  lemma StepDelivers(w: World, e: Event)
    requires SessionOk(w) && Headroom(w) && Lawful(w, e)
    ensures MirrorsBut(w, Step(w, e), Newcomer(w, e))
  {
    hide MirrorsBut, SessionOk, EnvOk;
    match e
    case Connect(p) => ConnectMirrors(w, p);
    case Disconnect(p, env) => DisconnectMirrors(w, p, env);
    case Packet(p, r, env) => PacketMirrors(w, p, r, env);
    case ConsoleKick(id, reason) => ConsoleKickMirrors(w, id, reason);
  }

  /** A newcomer that can be reached was open before, and saw the snapshot. */
  lemma NewcomerView(w: World, e: Event)
    requires SessionOk(w) && Headroom(w) && Lawful(w, e) && Newcomer(w, e) >= 0
    requires Step(w, e).peers[Newcomer(w, e)].state.Open?
    ensures var p, w' := Newcomer(w, e), Step(w, e);
      && |w'.peers| == |w.peers| && w'.peers[p].data == w.nextPlayerId && w'.entities == w.entities
      && (forall id :: id in w.entities ==> w.entities[id].owner in w'.players)
      && Replay(w'.peers[p].log) ==
           Replica(w.nextPlayerId, Shown(w'.players, w.entities), NamesFor(w'.players, w.nextPlayerId))
  {
    hide OnHandshake, Replay, Shown, NamesFor;
    var p := Newcomer(w, e);
    AdmitStates(w, p, e.request.rawName, e.env, p);
    HandshakeLinks(w, p, PROTOCOL_VERSION, e.request.rawName, e.env);
    JoinerView(w, p, e.request.rawName, e.env);
    AdmittedPlayers(w, p, e.request.rawName, e.env);
  }

  /** One event keeps every reachable client's replayed view equal to the server's. */
  lemma StepMirrors(w: World, e: Event)
    requires Replicated(w) && SessionOk(w) && AllInRange(w.entities) && Headroom(w) && Lawful(w, e)
    ensures Replicated(Step(w, e))
  {
    hide Replay, SessionOk, ViewFor, Step, Lawful, Newcomer, AllInRange, Delivers;
    var w' := Step(w, e);
    StepDelivers(w, e);
    forall p | 0 <= p < |w'.peers| && w'.peers[p].state.Open? && w'.peers[p].data != 0
      ensures Replay(w'.peers[p].log) == ViewFor(w', w'.peers[p].data)
    {
      if p == Newcomer(w, e) {
        NewcomerRight(w, e);
      } else {
        var ms :| Delivers(w, w', p, ms);
        DeliveredView(w, w', p, ms);
      }
    }
  }

  lemma NewcomerRight(w: World, e: Event)
    requires SessionOk(w) && Headroom(w) && Lawful(w, e) && Newcomer(w, e) >= 0
    requires Step(w, e).peers[Newcomer(w, e)].state.Open? && AllInRange(w.entities)
    ensures var p, w' := Newcomer(w, e), Step(w, e); Replay(w'.peers[p].log) == ViewFor(w', w'.peers[p].data)
  {
    hide Replay, Shown, KnownOf, NamesFor, Step, Lawful, SessionOk, Newcomer;
    NewcomerView(w, e);
    ShownExact(Step(w, e).players, w.entities);
  }

  lemma RequestKeepsRange(w: World, p: nat, pid: U32, r: Request, env: Env)
    requires AllInRange(w.entities) && pid in w.players && PlacesInRange(Packet(p, r, env))
    ensures AllInRange(OnPlayerRequest(w, p, pid, r, env).entities)
  {
    if r.Move? {
      MoveEachFrame(w, pid, r.updates);
    }
  }

  lemma StepKeepsRange(w: World, e: Event)
    requires AllInRange(w.entities) && PlacesInRange(e) && Lawful(w, e)
    ensures AllInRange(Step(w, e).entities)
  {
    if e.Packet? {
      if e.request.Handshake? {
        HandshakeCounters(w, e.peer, e.request.version, e.request.rawName, e.env);
      } else if !e.request.ServerQuery? && !e.request.Leave? && PlayerAt(w, e.peer).Some? {
        RequestKeepsRange(w, e.peer, PlayerAt(w, e.peer).value, e.request, e.env);
      }
    }
  }

  lemma InitReplicated(slots: nat, maxPlayers: int)
    ensures Replicated(Init(slots, maxPlayers)) && AllInRange(Init(slots, maxPlayers).entities)
  {
  }

  /** Replication: in every state of every run from an empty world whose spawn
      and build requests are in range, each reachable client's log replays to
      the server's players and entities. */
  lemma {:induction false} ReplicationOverRuns(ws: seq<World>, es: seq<Event>, slots: nat, maxPlayers: int, i: nat)
    requires Run(ws, es) && ws[0] == Init(slots, maxPlayers)
    requires -0x8000_0000 <= maxPlayers < 0x8000_0000
    requires forall k :: 0 <= k < |es| ==> PlacesInRange(es[k])
    requires |es| < 0xFFFF_FFFF && i <= |es|
    ensures Replicated(ws[i]) && AllInRange(ws[i].entities)
  {
    hide Step, Replicated, SessionOk, Lawful;
    if i == 0 {
      InitReplicated(slots, maxPlayers);
    } else {
      ReplicationOverRuns(ws, es, slots, maxPlayers, i - 1);
      SessionOverRuns(ws, es, slots, maxPlayers, i - 1);
      assert ws[i] == Step(ws[i - 1], es[i - 1]);
      StepMirrors(ws[i - 1], es[i - 1]);
      StepKeepsRange(ws[i - 1], es[i - 1]);
    }
  }
}
