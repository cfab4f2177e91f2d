/** Two short runs from an empty server that reach the limits of replication. */
module ReplicationRuns {
  import opened Base
  import opened Session
  import opened SessionInvariants
  import opened Replication
  import opened ReplicationLimits
  import Combat

  const CALM := Combat.Dice(1, 1.0, 1.0)

  const EMPTY := Init(2, 2)

  /** One coordinate is twice the limit. */
  const FAR: Vec3 := Vec3(Num(2000000.0), Num(0.0), Num(0.0))

  lemma RunSnoc(ws: seq<World>, es: seq<Event>, e: Event)
    requires Run(ws, es) && Lawful(ws[|es|], e)
    ensures Run(ws + [Step(ws[|es|], e)], es + [e])
  {
    hide Lawful, Step;
    var ws', es' := ws + [Step(ws[|es|], e)], es + [e];
    forall i | 0 <= i < |es'| ensures Lawful(ws'[i], es'[i]) && ws'[i + 1] == Step(ws'[i], es'[i]) {
      if i < |es| {
        assert es'[i] == es[i] && ws'[i] == ws[i] && ws'[i + 1] == ws[i + 1];
      }
    }
  }

  lemma RunStart()
    ensures Run([EMPTY], [])
  {
  }

  /** A connected slot of a server with room, and its handshake. */
  lemma Joins(w: World, p: nat, env: Env)
    requires SessionOk(w) && Headroom(w) && p < |w.peers| && w.peers[p].state.Free?
    requires |w.players| < SizeT(w.maxPlayers) && EnvOk(w, env)
    ensures var c := OnConnect(w, p);
      && Lawful(w, Connect(p)) && Lawful(c, Packet(p, Handshake(PROTOCOL_VERSION, ""), env))
      && c == w.(peers := w.peers[p := Slot(Open, 0, [])]) && Admits(c, p, PROTOCOL_VERSION) && SessionOk(c)
      && var w' := OnHandshake(c, p, PROTOCOL_VERSION, "", env); var id := w.nextPlayerId;
         && w'.players == w.players[id := Player(id, Sanitize(""), p, ORIGIN, Zone(0, 0))]
         && w'.entities == w.entities && w'.nextEntityId == w.nextEntityId && w'.maxPlayers == w.maxPlayers
         && w'.nextPlayerId == Inc32(id) && |w'.peers| == |w.peers|
         && w'.peers[p].data == id && w'.peers[p].state.Open?
         && forall q :: 0 <= q < |w.peers| && q != p ==>
              w'.peers[q].data == w.peers[q].data && w'.peers[q].state == w.peers[q].state
  {
    hide SessionOk, Enumerates, Linked;
    var c := OnConnect(w, p);
    ConnectKeepsSession(w, p);
    SameEnv(w, c, env);
    assert c == w.(peers := w.peers[p := Slot(Open, 0, [])]);
    JoinFacts(c, p, env);
  }

  lemma SameEnv(w: World, c: World, env: Env)
    requires EnvOk(w, env) && c.players == w.players && c.entities == w.entities
    ensures EnvOk(c, env)
  {
  }

  lemma JoinFacts(c: World, p: nat, env: Env)
    requires p < |c.peers| && Admits(c, p, PROTOCOL_VERSION)
    ensures var w' := OnHandshake(c, p, PROTOCOL_VERSION, "", env); var id := c.nextPlayerId;
      && w'.players == c.players[id := Player(id, Sanitize(""), p, ORIGIN, Zone(0, 0))]
      && w'.entities == c.entities && w'.nextEntityId == c.nextEntityId && w'.maxPlayers == c.maxPlayers
      && w'.nextPlayerId == Inc32(id) && |w'.peers| == |c.peers| && w'.peers[p].data == id
      && forall q :: 0 <= q < |c.peers| ==>
           w'.peers[q].state == c.peers[q].state && (q != p ==> w'.peers[q].data == c.peers[q].data)
  {
    hide OnHandshake;
    AdmittedPlayers(c, p, "", env);
    HandshakeCounters(c, p, PROTOCOL_VERSION, "", env);
    HandshakeLinks(c, p, PROTOCOL_VERSION, "", env);
    forall q | 0 <= q < |c.peers|
      ensures OnHandshake(c, p, PROTOCOL_VERSION, "", env).peers[q].state == c.peers[q].state
    {
      AdmitStates(c, p, "", env, q);
    }
  }

  lemma EnumeratesNone<T(!new)>()
    ensures Enumerates<T>([], {})
  {
  }

  lemma EnumeratesOne<T(!new)>(x: T)
    ensures Enumerates([x], {x})
  {
  }

  lemma EnumeratesTwo<T(!new)>(x: T, y: T)
    requires x != y
    ensures Enumerates([x, y], {x, y})
  {
  }

  /** The first player is in, as host, with slot 1 still free. */
  ghost predicate OneIn(w: World) {
    && SessionOk(w) && |w.peers| == 2 && w.maxPlayers == 2 && w.nextPlayerId == 2
    && w.players.Keys == {1} && w.peers[0].data == 1 && w.peers[0].state.Open? && w.peers[1].state.Free?
  }

  function Join(p: nat, env: Env): Event {
    Packet(p, Handshake(PROTOCOL_VERSION, ""), env)
  }

  const FIRST: seq<Event> := [Connect(0), Join(0, Env([], [], CALM))]

  lemma FirstPlayer() returns (ws: seq<World>)
    ensures |ws| == 3 && Run(ws, FIRST) && ws[0] == EMPTY
    ensures OneIn(ws[2]) && ws[2].entities == map[] && ws[2].nextEntityId == 1
  {
    hide SessionOk, OnHandshake, OnConnect, Run, Lawful, EnvOk;
    var env := Env([], [], CALM);
    InitSession(2, 2);
    EmptyEnv(env);
    Joins(EMPTY, 0, env);
    RunStart();
    var w1 := OnConnect(EMPTY, 0);
    var w2 := OnHandshake(w1, 0, PROTOCOL_VERSION, "", env);
    RunSnoc([EMPTY], [], Connect(0));
    assert [EMPTY] + [w1] == [EMPTY, w1] && [] + [Connect(0)] == [Connect(0)];
    RunSnoc([EMPTY, w1], [Connect(0)], Join(0, env));
    ws := [EMPTY, w1, w2];
    assert [EMPTY, w1] + [w2] == ws && [Connect(0)] + [Join(0, env)] == FIRST;
    HandshakeKeepsSession(w1, 0, PROTOCOL_VERSION, "", env);
  }

  lemma EmptyEnv(env: Env)
    requires env == Env([], [], CALM)
    ensures EnvOk(EMPTY, env)
  {
    EnumeratesNone<U32>();
    assert EMPTY.entities.Keys == {} && EMPTY.players.Keys == {};
  }

  /** Both players are in and reachable. */
  ghost predicate TwoIn(w: World) {
    && SessionOk(w) && |w.peers| == 2 && w.players.Keys == {1, 2}
    && w.peers[0].data == 1 && w.peers[0].state.Open? && w.peers[1].data == 2 && w.peers[1].state.Open?
  }

  lemma SecondPlayer(w: World, env: Env)
    requires OneIn(w) && w.nextEntityId < 0xFFFF_FFFF && EnvOk(w, env)
    ensures var c := OnConnect(w, 1);
      && Lawful(w, Connect(1)) && Lawful(c, Join(1, env))
      && |c.peers| == 2 && SessionOk(c) && EnvOk(c, env) && Headroom(c) && c.entities == w.entities && c.nextPlayerId == 2
      && Admits(c, 1, PROTOCOL_VERSION) && c.peers[1].state.Open?
      && var w' := OnHandshake(c, 1, PROTOCOL_VERSION, "", env);
         TwoIn(w') && w'.entities == w.entities && w'.nextEntityId == w.nextEntityId
  {
    hide SessionOk, OnHandshake, Lawful, EnvOk;
    assert |w.players| == |w.players.Keys| == 1;
    Joins(w, 1, env);
    var c := OnConnect(w, 1);
    SameEnv(w, c, env);
    HandshakeKeepsSession(c, 1, PROTOCOL_VERSION, "", env);
    var w' := OnHandshake(c, 1, PROTOCOL_VERSION, "", env);
    assert w'.players.Keys == w.players.Keys + {2};
  }

  // ---- A joiner that misses an entity ---------------------------------------------

  /** A spawn is accepted whatever its coordinates. */
  lemma FarSpawnAccepted(w: World, pid: U32, r: Request)
    requires r.Spawn? && pid in w.players && r.kind <= TURRET && |w.entities| < MAX_SYNC_ENTITIES
    requires !InRange(r.position)
    ensures !AllInRange(OnSpawn(w, pid, r).entities)
  {
    var w' := OnSpawn(w, pid, r);
    assert w'.entities[w.nextEntityId].position == r.position;
  }

  lemma FarStep(w: World, env: Env)
    requires OneIn(w) && w.entities == map[] && w.nextEntityId == 1 && env == Env([], [1], CALM)
    ensures var e := Packet(0, Spawn(1, 0, FAR, 0, 0, "", None), env);
      && Lawful(w, e)
      && var w' := Step(w, e);
         OneIn(w') && w'.entities.Keys == {1} && w'.nextEntityId == 2 && !AllInRange(w'.entities)
  {
    hide SessionOk, Linked, Post;
    var r := Spawn(1, 0, FAR, 0, 0, "", None);
    EnumeratesNone<U32>();
    EnumeratesOne<U32>(1);
    assert w.entities.Keys == {};
    FarSpawnAccepted(w, 1, r);
    PacketKeepsSession(w, 0, r, env);
    PlayerRequestLinks(w, 0, 1, r, env);
    RequestStates(w, 0, 1, r, env);
  }

  lemma RequestStates(w: World, q: nat, pid: U32, r: Request, env: Env)
    requires pid in w.players && !r.AdminKick?
    ensures var w' := OnPlayerRequest(w, q, pid, r, env);
      |w'.peers| == |w.peers| && forall p :: 0 <= p < |w.peers| ==> w'.peers[p].state == w.peers[p].state
  {
    hide OnPlayerRequest;
    PlayerRequestLinks(w, q, pid, r, env);
    forall p | 0 <= p < |w.peers| ensures OnPlayerRequest(w, q, pid, r, env).peers[p].state == w.peers[p].state {
      RequestKeepsStates(w, q, pid, r, env, p);
    }
  }

  /** A reachable listed player does not know a living server entity. */
  ghost predicate Misses(w: World, p: nat, id: U32) {
    && p < |w.peers| && w.peers[p].state.Open? && w.peers[p].data in w.players
    && id in w.entities && id !in Replay(w.peers[p].log).known
  }

  const FAR_RUN: seq<Event> := FIRST + [Packet(0, Spawn(1, 0, FAR, 0, 0, "", None), Env([], [1], CALM))]
    + [Connect(1)] + [Join(1, Env([1], [1], CALM))]

  /** Connect, handshake, spawn at x = 2000000; connect, handshake: the second
      player is admitted, can be reached, and does not know the first one's entity. */
  lemma JoinerMissesEntity() returns (ws: seq<World>)
    ensures |ws| == 6 && Run(ws, FAR_RUN) && ws[0] == EMPTY
    ensures SessionOk(ws[5]) && Misses(ws[5], 1, 1) && !Replicated(ws[5])
  {
    hide SessionOk, OnHandshake, OnConnect, Run, Lawful, EnvOk, Step, OneIn, TwoIn, AllInRange, Misses, Replicated;
    var env1, env2 := Env([], [1], CALM), Env([1], [1], CALM);
    var far := Packet(0, Spawn(1, 0, FAR, 0, 0, "", None), env1);
    ws := FirstPlayer();
    FarStep(ws[2], env1);
    RunSnoc(ws, FIRST, far);
    var w3 := Step(ws[2], far);
    OneEntityEnv(w3, env2);
    SecondPlayer(w3, env2);
    SteppedTo(w3, env2);
    var w4 := OnConnect(w3, 1);
    var w5 := OnHandshake(w4, 1, PROTOCOL_VERSION, "", env2);
    RunSnoc(ws + [w3], FIRST + [far], Connect(1));
    RunSnoc(ws + [w3] + [w4], FIRST + [far] + [Connect(1)], Join(1, env2));
    ws := ws + [w3] + [w4] + [w5];
    JoinerUnaware(w4, w5, env2);
    BothOk(w5);
  }

  lemma BothOk(w: World)
    requires TwoIn(w)
    ensures SessionOk(w)
  {
  }

  lemma SteppedTo(w: World, env: Env)
    requires Lawful(w, Connect(1)) && Lawful(OnConnect(w, 1), Join(1, env))
    ensures 1 < |w.peers| == |OnConnect(w, 1).peers| && Step(w, Connect(1)) == OnConnect(w, 1)
    ensures Step(OnConnect(w, 1), Join(1, env)) == OnHandshake(OnConnect(w, 1), 1, PROTOCOL_VERSION, "", env)
  {
    hide OnHandshake;
  }

  lemma OneEntityEnv(w: World, env: Env)
    requires OneIn(w) && w.entities.Keys == {1} && env == Env([1], [1], CALM)
    ensures EnvOk(w, env)
  {
    EnumeratesOne<U32>(1);
  }

  lemma JoinerUnaware(c: World, w': World, env: Env)
    requires SessionOk(c) && EnvOk(c, env) && Headroom(c) && 1 < |c.peers| && c.peers[1].state.Open?
    requires Admits(c, 1, PROTOCOL_VERSION) && c.nextPlayerId == 2
    requires c.entities.Keys == {1} && !AllInRange(c.entities)
    requires w' == OnHandshake(c, 1, PROTOCOL_VERSION, "", env) && TwoIn(w')
    ensures Misses(w', 1, 1) && !Replicated(w')
  {
    hide SessionOk, OnHandshake, EnvOk, Replay, InRange, Shown, NamesFor, Misses, Replicated, Admits, Headroom;
    JoinerView(c, 1, "", env);
    OnlyOne(c);
    NotShown(w'.players, c.entities, 1);
    assert 2 in w'.players.Keys && 1 in c.entities.Keys;
    MissesWhen(w', 1, 1);
  }

  lemma OnlyOne(w: World)
    requires w.entities.Keys == {1} && !AllInRange(w.entities)
    ensures 1 in w.entities && !InRange(w.entities[1].position)
  {
    var bad :| bad in w.entities && !InRange(w.entities[bad].position);
    assert bad in w.entities.Keys;
  }

  lemma NotShown(players: map<U32, Player>, entities: map<U32, Entity>, id: U32)
    requires id in entities && !InRange(entities[id].position)
    ensures id !in Shown(players, entities)
  {
  }

  lemma MissesWhen(w: World, p: nat, id: U32)
    requires p < |w.peers| && w.peers[p].state.Open? && w.peers[p].data != 0 && w.peers[p].data in w.players
    requires id in w.entities && id !in Replay(w.peers[p].log).known
    ensures Misses(w, p, id) && !Replicated(w)
  {
    hide Replay;
    assert id in ViewFor(w, w.peers[p].data).known;
  }

  // ---- A leaver that goes stale ------------------------------------------------------

  /** A listed player that can no longer be reached has a wrong view. */
  ghost predicate Stale(w: World, p: nat) {
    && p < |w.peers| && w.peers[p].state.Closing? && w.peers[p].data in w.players
    && Replay(w.peers[p].log) != ViewFor(w, w.peers[p].data)
  }

  const JOINED: seq<Event> := FIRST + [Connect(1)] + [Join(1, Env([], [1], CALM))]
  const LEAVES := Packet(1, Leave, Env([], [1, 2], CALM))
  const BUILDS := Packet(0, Build(7, ORIGIN, 0), Env([], [1, 2], CALM))

  lemma BothPlayers() returns (ws: seq<World>)
    ensures |ws| == 5 && Run(ws, JOINED) && ws[0] == EMPTY
    ensures TwoIn(ws[4]) && ws[4].entities == map[] && ws[4].nextEntityId == 1
  {
    hide SessionOk, OnHandshake, OnConnect, Run, Lawful, EnvOk, Step, OneIn, TwoIn;
    var env := Env([], [1], CALM);
    ws := FirstPlayer();
    NoEntityEnv(ws[2], env);
    SecondPlayer(ws[2], env);
    SteppedTo(ws[2], env);
    var w3 := OnConnect(ws[2], 1);
    var w4 := OnHandshake(w3, 1, PROTOCOL_VERSION, "", env);
    RunSnoc(ws, FIRST, Connect(1));
    RunSnoc(ws + [w3], FIRST + [Connect(1)], Join(1, env));
    ws := ws + [w3] + [w4];
  }

  /** Two players join, the second asks to leave, the first builds: the second is
      still listed and no longer right, although every placement was in range. */
  lemma LeaverGoesStale() returns (ws: seq<World>)
    ensures |ws| == 7 && Run(ws, JOINED + [LEAVES] + [BUILDS]) && ws[0] == EMPTY
    ensures forall e :: e in JOINED + [LEAVES] + [BUILDS] ==> PlacesInRange(e)
    ensures SessionOk(ws[6]) && Stale(ws[6], 1)
  {
    hide SessionOk, Run, Lawful, Step, TwoIn, Stale, PlacesInRange;
    ws := BothPlayers();
    LeaveAndBuild(ws[4]);
    RunSnoc(ws, JOINED, LEAVES);
    var w5 := Step(ws[4], LEAVES);
    RunSnoc(ws + [w5], JOINED + [LEAVES], BUILDS);
    ws := ws + [w5] + [Step(w5, BUILDS)];
    AllNear();
    LastIsStale(ws);
  }

  lemma AllNear()
    ensures forall e :: e in JOINED + [LEAVES] + [BUILDS] ==> PlacesInRange(e)
  {
  }

  lemma LastIsStale(ws: seq<World>)
    requires |ws| == 7 && Run(ws, JOINED + [LEAVES] + [BUILDS]) && ws[0] == EMPTY
    requires StartsClosing(ws[4], ws[5], 1) && ws[5].peers[1].data == 2 && 2 in ws[5].players
    requires ViewFor(ws[6], 2) != ViewFor(ws[5], 2) && ws[6].players == ws[5].players
    ensures SessionOk(ws[6]) && Stale(ws[6], 1)
  {
    hide SessionOk, Run, Lawful, Step, Replay, ViewFor, PlacesInRange, Missed;
    var es := JOINED + [LEAVES] + [BUILDS];
    AllNear();
    assert forall k :: 0 <= k < |es| ==> PlacesInRange(es[k]);
    assert es[5] == BUILDS;
    SessionOverRuns(ws, es, 2, 2, 6);
    RightWhenClosing(ws, es, 2, 2, 1, 5);
    ClosingViewExact(ws, es, 2, 2, 1, 5, 6);
  }

  lemma NoEntityEnv(w: World, env: Env)
    requires OneIn(w) && w.entities == map[] && env == Env([], [1], CALM)
    ensures EnvOk(w, env)
  {
    EnumeratesNone<U32>();
    EnumeratesOne<U32>(1);
    assert w.entities.Keys == {};
  }

  lemma LeaveAndBuild(w: World)
    requires TwoIn(w) && w.entities == map[] && w.nextEntityId == 1
    ensures Lawful(w, LEAVES) && Lawful(Step(w, LEAVES), BUILDS)
    ensures var w' := Step(w, LEAVES);
      && StartsClosing(w, w', 1) && w'.peers[1].data == 2 && 2 in w'.players
      && var w'' := Step(w', BUILDS); w''.players == w'.players && ViewFor(w'', 2) != ViewFor(w', 2)
  {
    hide SessionOk;
    EnumeratesNone<U32>();
    EnumeratesTwo<U32>(1, 2);
    assert w.entities.Keys == {};
    assert 2 in w.players.Keys && 1 in w.players.Keys;
    var w' := Step(w, LEAVES);
    assert w' == w.(peers := w.peers[1 := w.peers[1].(state := Closing)]);
    BuildShows(w');
  }

  lemma BuildShows(w: World)
    requires |w.peers| == 2 && w.peers[0].data == 1 && 1 in w.players && w.entities == map[] && w.nextEntityId == 1
    requires Lawful(w, BUILDS)
    ensures ViewFor(Step(w, BUILDS), 2) != ViewFor(w, 2) && Step(w, BUILDS).players == w.players
  {
    assert 1 in KnownOf(Step(w, BUILDS).entities) && 1 !in KnownOf(w.entities);
  }
}
