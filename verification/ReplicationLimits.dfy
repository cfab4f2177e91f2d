/** Where replication stops: entities a joiner was not shown, and clients that
    are being disconnected. Both are made exact over runs. */
module ReplicationLimits {
  import opened Base
  import opened Session
  import opened SessionInvariants
  import opened Replication
  import opened Authority
  import Combat

  // ---- Entities missed at the join -------------------------------------------

  /** A view that lacks the entities in missed. */
  function Without(r: Replica, missed: set<U32>): Replica {
    r.(known := r.known - missed)
  }

  /** A message that announces or withdraws an entity settles it; joining again
      starts afresh. */
  function Settle(missed: set<U32>, m: Msg): set<U32> {
    match m
    case HandshakeAck(_) => {}
    case EntitySpawn(id, _) => missed - {id}
    case BuildPlaced(id, _, _) => missed - {id}
    case EntityDespawn(id, _) => missed - {id}
    case BuildDestroyed(id) => missed - {id}
    case _ => missed
  }

  function StillMissed(missed: set<U32>, ms: seq<Msg>): set<U32> {
    if ms == [] then missed else Settle(StillMissed(missed, ms[..|ms| - 1]), ms[|ms| - 1])
  }

  function OutOfRange(entities: map<U32, Entity>): set<U32> {
    set id | id in entities && !InRange(entities[id].position)
  }

  /** What slot p had not been told of at state j: the entities out of range when
      its player joined, less those a later message to it settled. */
  ghost function Missed(ws: seq<World>, es: seq<Event>, p: nat, j: nat): set<U32>
    requires |ws| == |es| + 1 && j <= |es|
  {
    if j == 0 then {}
    else if Newcomer(ws[j - 1], es[j - 1]) == p then OutOfRange(ws[j].entities)
    else StillMissed(Missed(ws, es, p, j - 1), Appended(ws[j - 1], ws[j], p))
  }

  function Appended(w: World, w': World, p: nat): seq<Msg> {
    if p < |w.peers| && p < |w'.peers| && |w.peers[p].log| <= |w'.peers[p].log|
    then w'.peers[p].log[|w.peers[p].log|..]
    else []
  }

  lemma SettleOne(r: Replica, missed: set<U32>, m: Msg)
    ensures Apply(Without(r, missed), m) == Without(Apply(r, m), Settle(missed, m))
  {
    assert Apply(Without(r, missed), m).known == Without(Apply(r, m), Settle(missed, m)).known;
  }

  /** What a client misses, it goes on missing until told. */
  lemma {:induction false} SettleAll(r: Replica, missed: set<U32>, ms: seq<Msg>)
    ensures ApplyAll(Without(r, missed), ms) == Without(ApplyAll(r, ms), StillMissed(missed, ms))
  {
    hide Apply, Settle, Without;
    if ms != [] {
      SettleAll(r, missed, ms[..|ms| - 1]);
      SettleOne(ApplyAll(r, ms[..|ms| - 1]), StillMissed(missed, ms[..|ms| - 1]), ms[|ms| - 1]);
    }
  }

  ghost predicate KnownBut(w: World, p: nat, missed: set<U32>)
    requires p < |w.peers|
  {
    Replay(w.peers[p].log) == Without(ViewFor(w, w.peers[p].data), missed)
  }

  lemma DeliveredBut(w: World, w': World, p: nat, ms: seq<Msg>, missed: set<U32>)
    requires p < |w.peers| == |w'.peers| && Delivers(w, w', p, ms) && KnownBut(w, p, missed)
    requires w'.peers[p].data == w.peers[p].data
    ensures KnownBut(w', p, StillMissed(missed, Appended(w, w', p)))
  {
    hide ViewFor, Without, ApplyAll, StillMissed;
    ApplyConcat(BLANK, w.peers[p].log, ms);
    SettleAll(ViewFor(w, w.peers[p].data), missed, ms);
    assert Appended(w, w', p) == ms;
  }

  lemma ShownIsWithout(players: map<U32, Player>, entities: map<U32, Entity>)
    requires forall id :: id in entities ==> entities[id].owner in players
    ensures Shown(players, entities) == KnownOf(entities) - OutOfRange(entities)
  {
    hide InRange;
  }

  lemma NewcomerBut(w: World, e: Event)
    requires SessionOk(w) && Headroom(w) && Lawful(w, e) && Newcomer(w, e) >= 0
    requires Step(w, e).peers[Newcomer(w, e)].state.Open?
    ensures KnownBut(Step(w, e), Newcomer(w, e), OutOfRange(Step(w, e).entities))
  {
    hide Step, Lawful, SessionOk, Newcomer, Replay, Shown, KnownOf, NamesFor, OutOfRange;
    NewcomerView(w, e);
    ShownIsWithout(Step(w, e).players, w.entities);
  }

  ghost predicate AllKnownBut(ws: seq<World>, es: seq<Event>, i: nat)
    requires |ws| == |es| + 1 && i <= |es|
  {
    forall p :: 0 <= p < |ws[i].peers| && ws[i].peers[p].state.Open? && ws[i].peers[p].data != 0 ==>
      KnownBut(ws[i], p, Missed(ws, es, p, i))
  }

  lemma StepKnownBut(ws: seq<World>, es: seq<Event>, i: nat)
    requires |ws| == |es| + 1 && 0 < i <= |es| && AllKnownBut(ws, es, i - 1)
    requires SessionOk(ws[i - 1]) && Headroom(ws[i - 1]) && Lawful(ws[i - 1], es[i - 1])
    requires ws[i] == Step(ws[i - 1], es[i - 1])
    ensures AllKnownBut(ws, es, i)
  {
    hide Step, Lawful, SessionOk, Headroom, Newcomer, KnownBut, Delivers, OutOfRange, StillMissed, Appended;
    var w, w', e := ws[i - 1], ws[i], es[i - 1];
    StepDelivers(w, e);
    forall p | 0 <= p < |w'.peers| && w'.peers[p].state.Open? && w'.peers[p].data != 0
      ensures KnownBut(w', p, Missed(ws, es, p, i))
    {
      if p == Newcomer(w, e) {
        NewcomerBut(w, e);
      } else {
        var ms :| Delivers(w, w', p, ms);
        DeliveredBut(w, w', p, ms, Missed(ws, es, p, i - 1));
      }
    }
  }

  lemma NobodyMisses(slots: nat, maxPlayers: int, ws: seq<World>, es: seq<Event>)
    requires |ws| == |es| + 1 && ws[0] == Init(slots, maxPlayers)
    ensures AllKnownBut(ws, es, 0)
  {
  }

  /** With no condition on coordinates: in every state of every run from an empty
      world, a reachable client knows all players and exactly the entities it does
      not miss. */
  lemma {:induction false} KnownButMissedOverRuns(ws: seq<World>, es: seq<Event>, slots: nat, maxPlayers: int, i: nat)
    requires Run(ws, es) && ws[0] == Init(slots, maxPlayers)
    requires -0x8000_0000 <= maxPlayers < 0x8000_0000 && |es| < 0xFFFF_FFFF && i <= |es|
    ensures AllKnownBut(ws, es, i)
  {
    hide Step, AllKnownBut, SessionOk, Lawful;
    if i == 0 {
      NobodyMisses(slots, maxPlayers, ws, es);
    } else {
      KnownButMissedOverRuns(ws, es, slots, maxPlayers, i - 1);
      SessionOverRuns(ws, es, slots, maxPlayers, i - 1);
      assert ws[i] == Step(ws[i - 1], es[i - 1]);
      StepKnownBut(ws, es, i);
    }
  }

  /** A reachable client's view is right if and only if nothing it misses exists. */
  lemma RightIffNothingMissed(ws: seq<World>, es: seq<Event>, slots: nat, maxPlayers: int, i: nat, p: nat)
    requires Run(ws, es) && ws[0] == Init(slots, maxPlayers)
    requires -0x8000_0000 <= maxPlayers < 0x8000_0000 && |es| < 0xFFFF_FFFF && i <= |es|
    requires p < |ws[i].peers| && ws[i].peers[p].state.Open? && ws[i].peers[p].data != 0
    ensures Replay(ws[i].peers[p].log) == ViewFor(ws[i], ws[i].peers[p].data) <==>
      Missed(ws, es, p, i) !! ws[i].entities.Keys
  {
    hide Step, Lawful, Missed, Replay;
    KnownButMissedOverRuns(ws, es, slots, maxPlayers, i);
    var known, missed := KnownOf(ws[i].entities), Missed(ws, es, p, i);
    assert known.Keys == ws[i].entities.Keys;
    if missed !! known.Keys {
      assert known - missed == known;
    } else {
      var id :| id in missed && id in known.Keys;
      assert id !in known - missed;
    }
  }

  /** Whatever is missed was out of range when the player joined. */
  lemma {:induction false} MissedWasOutOfRange(ws: seq<World>, es: seq<Event>, p: nat, j: nat, id: U32) returns (k: nat)
    requires |ws| == |es| + 1 && j <= |es| && id in Missed(ws, es, p, j)
    ensures 0 < k <= j && Newcomer(ws[k - 1], es[k - 1]) == p
    ensures id in ws[k].entities && !InRange(ws[k].entities[id].position)
  {
    hide Newcomer, InRange;
    if Newcomer(ws[j - 1], es[j - 1]) == p {
      k := j;
    } else {
      MissedShrinks(Missed(ws, es, p, j - 1), Appended(ws[j - 1], ws[j], p));
      k := MissedWasOutOfRange(ws, es, p, j - 1, id);
    }
  }

  lemma {:induction false} MissedShrinks(missed: set<U32>, ms: seq<Msg>)
    ensures StillMissed(missed, ms) <= missed
  {
    if ms != [] {
      MissedShrinks(missed, ms[..|ms| - 1]);
    }
  }

  function InReply(entities: map<U32, Entity>, pid: U32, zone: Zone, order: seq<U32>): set<U32> {
    set id | id in order && id in entities && InZoneReply(pid, zone, entities[id])
  }

  /** A zone reply settles exactly the entities it shows. */
  lemma {:induction false} ZoneReplySettles(missed: set<U32>, entities: map<U32, Entity>, pid: U32, zone: Zone, order: seq<U32>)
    requires forall id :: id in entities ==> entities[id].id == id
    ensures StillMissed(missed, ZoneMsgs(entities, pid, zone, order)) == missed - InReply(entities, pid, zone, order)
  {
    hide InZoneReply, InReply;
    if order == [] {
      NoReply(entities, pid, zone);
    } else {
      var front, last := order[..|order| - 1], order[|order| - 1];
      ZoneReplySettles(missed, entities, pid, zone, front);
      ReplySnoc(entities, pid, zone, order);
      if last in entities && InZoneReply(pid, zone, entities[last]) {
        var ms := ZoneMsgs(entities, pid, zone, order);
        assert ms[..|ms| - 1] == ZoneMsgs(entities, pid, zone, front);
      }
    }
  }

  lemma NoReply(entities: map<U32, Entity>, pid: U32, zone: Zone)
    ensures InReply(entities, pid, zone, []) == {}
  {
  }

  lemma ReplySnoc(entities: map<U32, Entity>, pid: U32, zone: Zone, order: seq<U32>)
    requires order != []
    ensures var front, last := order[..|order| - 1], order[|order| - 1];
      InReply(entities, pid, zone, order) ==
        InReply(entities, pid, zone, front)
        + (if last in entities && InZoneReply(pid, zone, entities[last]) then {last} else {})
  {
    hide InZoneReply;
    assert forall x :: x in order <==> x in order[..|order| - 1] || x == order[|order| - 1];
  }

  // ---- Clients being disconnected -------------------------------------------------

  lemma PostFrozen(peers: seq<Slot>, a: Audience, msgs: seq<Msg>, p: nat)
    requires p < |peers| && !peers[p].state.Open?
    ensures Post(peers, a, msgs)[p] == peers[p]
  {
  }

  /** p keeps its state, its log and, if it has one, its player. */
  ghost predicate Frozen(a: seq<Slot>, b: seq<Slot>, p: nat) {
    && p < |a| == |b| && b[p].state == a[p].state && b[p].log == a[p].log
    && (a[p].data != 0 ==> b[p].data == a[p].data)
  }

  lemma HandshakeFreezes(w: World, q: nat, version: U32, raw: string, env: Env, p: nat)
    requires q < |w.peers| && p < |w.peers| && w.peers[p].state.Closing?
    ensures Frozen(w.peers, OnHandshake(w, q, version, raw, env).peers, p)
  {
    hide Welcome, Sanitize;
    if Admits(w, q, version) {
      var players := OnHandshake(w, q, version, raw, env).players;
      var peers0 := w.peers[q := w.peers[q].(data := w.nextPlayerId)];
      WelcomeFrozen(peers0, q, w.nextPlayerId, Sanitize(raw), players, w.entities, env, p);
    }
  }

  lemma WelcomeFrozen(peers: seq<Slot>, q: nat, id: U32, name: string, players: map<U32, Player>,
                      entities: map<U32, Entity>, env: Env, p: nat)
    requires p < |peers| && !peers[p].state.Open?
    ensures var after := Welcome(peers, q, id, name, players, entities, env);
      |after| == |peers| && after[p] == peers[p]
  {
    hide JoinedMsgs, SnapshotMsgs;
  }

  lemma DisconnectFreezes(w: World, q: nat, env: Env, p: nat)
    requires q < |w.peers| && p < |w.peers| && p != q && w.peers[p].state.Closing?
    ensures Frozen(w.peers, OnDisconnect(w, q, env).peers, p)
  {
    hide OwnedIn, Heir;
  }

  lemma RequestFreezes(w: World, q: nat, pid: U32, r: Request, env: Env, p: nat)
    requires pid in w.players && p < |w.peers| && w.peers[p].state.Closing?
    ensures Frozen(w.peers, OnPlayerRequest(w, q, pid, r, env).peers, p)
  {
    if r.AdminKick? {
      KickFreezes(w, q, pid, r.target, r.reason, p);
    } else {
      hide OnPlayerRequest;
      OnePost(w, q, pid, r, env);
      var a, msgs :| OnPlayerRequest(w, q, pid, r, env).peers == Post(w.peers, a, msgs);
      PostFrozen(w.peers, a, msgs, p);
    }
  }

  lemma KickFreezes(w: World, q: nat, pid: U32, target: U32, reason: string, p: nat)
    requires p < |w.peers| && w.peers[p].state.Closing?
    ensures Frozen(w.peers, OnAdminKick(w, q, pid, target, reason).peers, p)
  {
  }

  /** Nothing but its own disconnect changes what a closing slot holds. */
  lemma StepFreezes(w: World, e: Event, p: nat)
    requires Lawful(w, e) && p < |w.peers| && w.peers[p].state.Closing?
    requires !(e.Disconnect? && e.peer == p)
    ensures Frozen(w.peers, Step(w, e).peers, p)
  {
    hide OnHandshake, OnDisconnect, OnPlayerRequest;
    match e
    case Connect(_) =>
    case Disconnect(q, env) => DisconnectFreezes(w, q, env, p);
    case Packet(q, r, env) =>
      if r.Handshake? {
        HandshakeFreezes(w, q, r.version, r.rawName, env, p);
      } else if !r.ServerQuery? && !r.Leave? && PlayerAt(w, q).Some? {
        RequestFreezes(w, q, PlayerAt(w, q).value, r, env, p);
      }
    case ConsoleKick(_, _) =>
  }

  ghost predicate NotDisconnected(es: seq<Event>, p: nat, i: nat, j: nat)
    requires i <= j <= |es|
  {
    forall k :: i <= k < j ==> !(es[k].Disconnect? && es[k].peer == p)
  }

  /** From the moment a slot is closing until its disconnect, its log stands still. */
  lemma {:induction false} FrozenOverRuns(ws: seq<World>, es: seq<Event>, p: nat, i: nat, j: nat)
    requires Run(ws, es) && i <= j <= |es| && p < |ws[i].peers| && ws[i].peers[p].state.Closing?
    requires NotDisconnected(es, p, i, j)
    ensures Frozen(ws[i].peers, ws[j].peers, p)
    decreases j
  {
    hide Step, Lawful;
    if i < j {
      FrozenOverRuns(ws, es, p, i, j - 1);
      assert ws[j] == Step(ws[j - 1], es[j - 1]);
      StepFreezes(ws[j - 1], es[j - 1], p);
    }
  }

  /** The step that starts closing a listed player's slot. */
  ghost predicate StartsClosing(w: World, w': World, p: nat) {
    && p < |w.peers| == |w'.peers|
    && w.peers[p].state.Open? && w.peers[p].data != 0 && w'.peers[p].state.Closing?
  }

  /** Only a query, a leave, a kick by the host or a kick at the console closes a
      listed player; none changes players or entities, and each appends only
      messages without effect. */
  ghost predicate QuietFor(w: World, w': World, p: nat) {
    && p < |w.peers| == |w'.peers|
    && w'.players == w.players && w'.entities == w.entities && w'.peers[p].data == w.peers[p].data
    && exists ms :: w'.peers[p].log == w.peers[p].log + ms && forall m :: m in ms ==> Inert(m)
  }

  lemma QuietWith(w: World, w': World, p: nat, ms: seq<Msg>)
    requires p < |w.peers| == |w'.peers|
    requires w'.players == w.players && w'.entities == w.entities && w'.peers[p].data == w.peers[p].data
    requires w'.peers[p].log == w.peers[p].log + ms && forall m :: m in ms ==> Inert(m)
    ensures QuietFor(w, w', p)
  {
  }

  lemma RequestCloses(w: World, q: nat, r: Request, env: Env, p: nat)
    requires SessionOk(w) && q < |w.peers| && PlayerAt(w, q).Some? && !r.Handshake? && !r.ServerQuery? && !r.Leave?
    requires StartsClosing(w, OnPacket(w, q, r, env), p)
    ensures QuietFor(w, OnPacket(w, q, r, env), p)
  {
    var pid, w' := PlayerAt(w, q).value, OnPacket(w, q, r, env);
    if r.AdminKick? {
      AdminKickExact(w, q, r.target, r.reason, env);
      QuietWith(w, w', p, [SystemMessage(w.players[r.target].name + " was kicked: " + r.reason), HandshakeReject(2)]);
    } else {
      hide OnPlayerRequest;
      RequestKeepsStates(w, q, pid, r, env, p);
    }
  }

  lemma RequestKeepsStates(w: World, q: nat, pid: U32, r: Request, env: Env, p: nat)
    requires pid in w.players && !r.AdminKick? && p < |w.peers|
    ensures var w' := OnPlayerRequest(w, q, pid, r, env);
      |w'.peers| == |w.peers| && w'.peers[p].state == w.peers[p].state
  {
    hide OnPlayerRequest;
    OnePost(w, q, pid, r, env);
    var a, msgs :| OnPlayerRequest(w, q, pid, r, env).peers == Post(w.peers, a, msgs);
    assert Post(w.peers, a, msgs)[p] == PostSlot(p, w.peers[p], a, msgs);
  }

  lemma PacketCloses(w: World, q: nat, r: Request, env: Env, p: nat)
    requires SessionOk(w) && q < |w.peers| && Headroom(w) && StartsClosing(w, OnPacket(w, q, r, env), p)
    ensures QuietFor(w, OnPacket(w, q, r, env), p)
  {
    hide OnHandshake, OnPlayerRequest;
    var w' := OnPacket(w, q, r, env);
    if r.Handshake? {
      HandshakeCloses(w, q, r.version, r.rawName, env, p);
    } else if r.ServerQuery? {
      QuietWith(w, w', p, [ServerInfo(|w.players|)]);
    } else if r.Leave? {
      assert w.peers[p].log + [] == w.peers[p].log;
      QuietWith(w, w', p, []);
    } else if PlayerAt(w, q).Some? {
      RequestCloses(w, q, r, env, p);
    }
  }

  lemma HandshakeCloses(w: World, q: nat, version: U32, raw: string, env: Env, p: nat)
    requires q < |w.peers| && p < |w.peers| && w.peers[p].state.Open? && w.peers[p].data != 0
    ensures OnHandshake(w, q, version, raw, env).peers[p].state.Open?
  {
  }

  lemma StepCloses(w: World, e: Event, p: nat)
    requires SessionOk(w) && Headroom(w) && Lawful(w, e) && StartsClosing(w, Step(w, e), p)
    ensures QuietFor(w, Step(w, e), p)
  {
    hide OnPacket, OnDisconnect, Post, Shut;
    match e
    case Connect(_) =>
    case Disconnect(q, env) => DisconnectLinks(w, q, env);
    case Packet(q, r, env) => PacketCloses(w, q, r, env, p);
    case ConsoleKick(id, reason) =>
      ConsoleKickExact(w, id, reason);
      if id in w.players {
        QuietWith(w, Step(w, e), p, [SystemMessage(w.players[id].name + " was kicked: " + reason)]);
      }
  }

  lemma {:induction false} InertSettles(missed: set<U32>, ms: seq<Msg>)
    requires forall m :: m in ms ==> Inert(m)
    ensures StillMissed(missed, ms) == missed
  {
    if ms != [] {
      InertSettles(missed, ms[..|ms| - 1]);
      assert ms[|ms| - 1] in ms;
    }
  }

  /** A closing step leaves known and missed entities as they were. */
  lemma QuietBut(w: World, w': World, p: nat, missed: set<U32>)
    requires QuietFor(w, w', p) && KnownBut(w, p, missed)
    ensures KnownBut(w', p, missed) && StillMissed(missed, Appended(w, w', p)) == missed
  {
    hide ViewFor, Without, ApplyAll;
    var ms :| w'.peers[p].log == w.peers[p].log + ms && forall m :: m in ms ==> Inert(m);
    ApplyConcat(BLANK, w.peers[p].log, ms);
    InertApply(Replay(w.peers[p].log), ms);
    SameView(w, w', w.peers[p].data);
    assert Appended(w, w', p) == ms;
    InertSettles(missed, ms);
  }

  lemma SameView(w: World, w': World, self: U32)
    requires w'.players == w.players && w'.entities == w.entities
    ensures ViewFor(w', self) == ViewFor(w, self)
  {
  }

  /** When a listed player's slot starts closing at state i it knows all but what it
      missed, and from then on until its disconnect its view is that one: at any
      such state j it is right if and only if players and entities, as it should
      see them, are what it knew at i. In particular, if it was right at i, it is
      right at j if and only if nothing it should see differs between i and j. */
  lemma ClosingViewExact(ws: seq<World>, es: seq<Event>, slots: nat, maxPlayers: int, p: nat, i: nat, j: nat)
    requires Run(ws, es) && ws[0] == Init(slots, maxPlayers)
    requires -0x8000_0000 <= maxPlayers < 0x8000_0000 && |es| < 0xFFFF_FFFF
    requires 0 < i <= j <= |es| && StartsClosing(ws[i - 1], ws[i], p) && NotDisconnected(es, p, i, j)
    ensures var self := ws[i].peers[p].data;
      && |ws[j].peers| == |ws[i].peers| && ws[j].peers[p].data == self != 0 && ws[j].peers[p].state.Closing?
      && Replay(ws[j].peers[p].log) == Without(ViewFor(ws[i], self), Missed(ws, es, p, i))
      && (Replay(ws[i].peers[p].log) == ViewFor(ws[i], self) ==>
            (Replay(ws[j].peers[p].log) == ViewFor(ws[j], self) <==> ViewFor(ws[j], self) == ViewFor(ws[i], self)))
  {
    hide Step, Lawful, SessionOk, Headroom, Replay, ViewFor, Without, StillMissed, Appended;
    SessionOverRuns(ws, es, slots, maxPlayers, i - 1);
    KnownButMissedOverRuns(ws, es, slots, maxPlayers, i - 1);
    HeadroomEarly(ws[i - 1], i - 1);
    assert ws[i] == Step(ws[i - 1], es[i - 1]);
    StepCloses(ws[i - 1], es[i - 1], p);
    QuietBut(ws[i - 1], ws[i], p, Missed(ws, es, p, i - 1));
    FrozenOverRuns(ws, es, p, i, j);
  }

  /** When every placement is in range, a client is right when it starts closing. */
  lemma RightWhenClosing(ws: seq<World>, es: seq<Event>, slots: nat, maxPlayers: int, p: nat, i: nat)
    requires Run(ws, es) && ws[0] == Init(slots, maxPlayers)
    requires -0x8000_0000 <= maxPlayers < 0x8000_0000 && |es| < 0xFFFF_FFFF
    requires forall k :: 0 <= k < |es| ==> PlacesInRange(es[k])
    requires 0 < i <= |es| && StartsClosing(ws[i - 1], ws[i], p)
    ensures Replay(ws[i].peers[p].log) == ViewFor(ws[i], ws[i].peers[p].data)
  {
    hide Step, Lawful, SessionOk, Headroom, Replay, ViewFor, Without;
    SessionOverRuns(ws, es, slots, maxPlayers, i - 1);
    ReplicationOverRuns(ws, es, slots, maxPlayers, i - 1);
    HeadroomEarly(ws[i - 1], i - 1);
    assert ws[i] == Step(ws[i - 1], es[i - 1]);
    StepCloses(ws[i - 1], es[i - 1], p);
    WithoutNone(ViewFor(ws[i - 1], ws[i - 1].peers[p].data));
    QuietBut(ws[i - 1], ws[i], p, {});
    WithoutNone(ViewFor(ws[i], ws[i].peers[p].data));
  }

  lemma WithoutNone(r: Replica)
    ensures Without(r, {}) == r
  {
    assert r.known - {} == r.known;
  }

  /** Whoever builds next, the client being disconnected is then wrong. */
  lemma ClosingPeerGoesStale(w: World, p: nat, builder: U32, t: U32, pos: Vec3, rot: U32)
    requires SessionOk(w) && p < |w.peers| && w.peers[p].state.Closing?
    requires Replay(w.peers[p].log) == ViewFor(w, w.peers[p].data)
    ensures var w' := OnBuild(w, builder, t, pos, rot);
      Replay(w'.peers[p].log) != ViewFor(w', w.peers[p].data)
  {
    var w' := OnBuild(w, builder, t, pos, rot);
    assert w.nextEntityId in KnownOf(w'.entities) && w.nextEntityId !in KnownOf(w.entities);
  }

  lemma HeadroomEarly(w: World, k: nat)
    requires w.nextPlayerId <= 1 + k && w.nextEntityId <= 1 + k && k + 1 < 0xFFFF_FFFF
    ensures Headroom(w)
  {
  }
}
