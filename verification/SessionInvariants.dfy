/** What every step of the server keeps: the peer/player bijection, ownership by
    connected players, the host rule and the player limit. */
module SessionInvariants {
  import opened Base
  import opened Session
  import Combat

  /** Back-pointers and the player table are mutually inverse; free slots carry none. */
  ghost predicate Linked(peers: seq<Slot>, players: map<U32, Player>) {
    && (forall p :: 0 <= p < |peers| && peers[p].state.Free? ==> peers[p].data == 0)
    && (forall p :: 0 <= p < |peers| && peers[p].data != 0 ==>
      peers[p].data in players && players[peers[p].data].peer == p)
    && (forall id :: id in players ==>
      && id != 0 && players[id].id == id
      && players[id].peer < |peers| && peers[players[id].peer].data == id)
  }

  ghost predicate PlayersNumbered(players: map<U32, Player>, next: U32) {
    next != 0 && forall id :: id in players ==> id < next
  }

  /** Entities are stored under their own id, below the counter, for a connected owner. */
  ghost predicate Tenanted(players: map<U32, Player>, entities: map<U32, Entity>, next: U32) {
    && next != 0
    && forall id :: id in entities ==>
      && 0 != id < next && entities[id].id == id
      && entities[id].owner in players && |entities[id].templateName| <= 255
  }

  ghost predicate Hosted(players: map<U32, Player>, host: U32) {
    if players == map[] then host == 0 else host in players && host != 0
  }

  ghost predicate SessionOk(w: World) {
    && Linked(w.peers, w.players)
    && PlayersNumbered(w.players, w.nextPlayerId)
    && Tenanted(w.players, w.entities, w.nextEntityId)
    && Hosted(w.players, w.host)
    && |w.players| <= SizeT(w.maxPlayers)
  }

  /** The uint32 counters have not reached their last value. */
  predicate Headroom(w: World) {
    w.nextPlayerId < 0xFFFF_FFFF && w.nextEntityId < 0xFFFF_FFFF
  }

  /** Equal keys and back-pointers, and no slot became free. */
  ghost predicate SameLinks(a: seq<Slot>, b: seq<Slot>) {
    && |a| == |b|
    && forall p :: 0 <= p < |a| ==> a[p].data == b[p].data && (b[p].state.Free? ==> a[p].state.Free?)
  }

  lemma LinkedFrame(a: seq<Slot>, b: seq<Slot>, players: map<U32, Player>, players': map<U32, Player>)
    requires Linked(a, players) && SameLinks(a, b)
    requires players'.Keys == players.Keys
    requires forall id :: id in players ==> SamePlayer(players[id], players'[id])
    ensures Linked(b, players')
  {
  }

  lemma SizeOfKeys(a: map<U32, Player>, b: map<U32, Player>)
    requires a.Keys == b.Keys
    ensures |a| == |b|
  {
    assert |a| == |a.Keys| && |b| == |b.Keys|;
  }

  lemma {:induction false} HeirOk(order: seq<U32>, leaver: U32)
    ensures if forall x :: x in order ==> x == leaver then Heir(order, leaver) == 0
            else Heir(order, leaver) in order && Heir(order, leaver) != leaver
  {
    if order != [] {
      if order[0] == leaver {
        HeirOk(order[1..], leaver);
        assert forall x :: x in order <==> x == order[0] || x in order[1..];
      } else {
        assert order[0] in order;
      }
    }
  }

  lemma {:induction false} OwnedInMeaning(entities: map<U32, Entity>, owner: U32, order: seq<U32>)
    ensures forall id :: id in OwnedIn(entities, owner, order) <==>
      id in order && id in entities && entities[id].owner == owner
  {
    if order != [] {
      OwnedInMeaning(entities, owner, order[..|order| - 1]);
      assert order == order[..|order| - 1] + [order[|order| - 1]];
    }
  }

  /** Removing a player together with its back-pointer and its entities. */
  lemma RemovePlayer(peers: seq<Slot>, peers': seq<Slot>, p: nat, pid: U32, players: map<U32, Player>)
    requires Linked(peers, players) && p < |peers| && peers[p].data == pid && pid in players
    requires |peers'| == |peers|
    requires forall q :: 0 <= q < |peers| ==>
      && peers'[q].data == (if q == p then 0 else peers[q].data)
      && (q != p && peers'[q].state.Free? ==> peers[q].state.Free?)
    ensures Linked(peers', players - {pid})
    ensures |players - {pid}| == |players| - 1
  {
    var rest := players - {pid};
    assert rest.Keys == players.Keys - {pid};
    assert |rest| == |rest.Keys| && |players| == |players.Keys|;
  }

  /** The peers after a player left: only the leaver's slot loses its back-pointer. */
  lemma DisconnectLinks(w: World, p: nat, env: Env)
    requires p < |w.peers|
    ensures var b := OnDisconnect(w, p, env).peers;
      && |b| == |w.peers|
      && b[p].data == 0 && b[p].state.Free?
      && forall q :: 0 <= q < |b| && q != p ==> b[q].data == w.peers[q].data && b[q].state == w.peers[q].state
  {
  }

  lemma DisconnectHost(w: World, p: nat, env: Env)
    requires Hosted(w.players, w.host) && EnvOk(w, env) && PlayerAt(w, p).Some? && 0 !in w.players
    requires p < |w.peers|
    ensures var w' := OnDisconnect(w, p, env); Hosted(w'.players, w'.host)
  {
    var pid := PlayerAt(w, p).value;
    var rest := w.players - {pid};
    assert rest.Keys == w.players.Keys - {pid};
    HeirOk(env.playerOrder, pid);
    if rest == map[] {
      assert forall x :: x in w.players ==> x == pid by {
        forall x | x in w.players ensures x == pid { assert x == pid || x in rest; }
      }
    } else {
      var k :| k in rest;
      assert k in w.players.Keys && k in env.playerOrder;
    }
  }

  lemma DisconnectKeepsSession(w: World, p: nat, env: Env)
    requires SessionOk(w) && p < |w.peers| && EnvOk(w, env)
    ensures SessionOk(OnDisconnect(w, p, env))
  {
    var w' := OnDisconnect(w, p, env);
    DisconnectLinks(w, p, env);
    if PlayerAt(w, p).Some? {
      var pid := PlayerAt(w, p).value;
      RemovePlayer(w.peers, w'.peers, p, pid, w.players);
      DisconnectHost(w, p, env);
      DisconnectEntities(w, p, env);
    }
  }

  /** Exactly the leaver's entities go. */
  lemma DisconnectEntities(w: World, p: nat, env: Env)
    requires p < |w.peers| && EnvOk(w, env) && PlayerAt(w, p).Some?
    ensures var w' := OnDisconnect(w, p, env); var pid := PlayerAt(w, p).value;
      && w'.players == w.players - {pid}
      && w'.entities == map id | id in w.entities && w.entities[id].owner != pid :: w.entities[id]
  {
    OwnedInMeaning(w.entities, PlayerAt(w, p).value, env.entityOrder);
  }

  /** Adding a player under a new id, with its back-pointer. */
  lemma AddPlayer(peers: seq<Slot>, peers': seq<Slot>, p: nat, pl: Player, players: map<U32, Player>)
    requires |peers'| == |peers|
    requires Linked(peers, players) && p < |peers| && peers[p].data == 0 && !peers'[p].state.Free?
    requires pl.id != 0 && pl.id !in players && pl.peer == p
    requires forall q :: 0 <= q < |peers| ==>
      && peers'[q].data == (if q == p then pl.id else peers[q].data)
      && (peers'[q].state.Free? ==> peers[q].state.Free?)
    ensures Linked(peers', players[pl.id := pl])
    ensures |players[pl.id := pl]| == |players| + 1
  {
    OneMore(players, pl);
  }

  lemma OneMore(players: map<U32, Player>, pl: Player)
    requires pl.id !in players
    ensures |players[pl.id := pl]| == |players| + 1
  {
    var more := players[pl.id := pl];
    assert more.Keys == players.Keys + {pl.id};
    assert |more| == |more.Keys| && |players| == |players.Keys|;
  }

  predicate Admits(w: World, p: nat, version: U32)
    requires p < |w.peers|
  {
    w.peers[p].data == 0 && |w.players| < SizeT(w.maxPlayers) && version == PROTOCOL_VERSION
  }

  lemma HandshakeLinks(w: World, p: nat, version: U32, raw: string, env: Env)
    requires p < |w.peers|
    ensures var b := OnHandshake(w, p, version, raw, env).peers;
      && |b| == |w.peers|
      && b[p].data == (if Admits(w, p, version) then w.nextPlayerId else w.peers[p].data)
      && (forall q :: 0 <= q < |b| ==> (b[q].state.Free? ==> w.peers[q].state.Free?))
      && (forall q :: 0 <= q < |b| && q != p ==> b[q].data == w.peers[q].data)
  {
  }

  lemma HandshakeKeepsSession(w: World, p: nat, version: U32, raw: string, env: Env)
    requires SessionOk(w) && p < |w.peers| && !w.peers[p].state.Free? && Headroom(w)
    ensures SessionOk(OnHandshake(w, p, version, raw, env))
  {
    var w' := OnHandshake(w, p, version, raw, env);
    HandshakeLinks(w, p, version, raw, env);
    if Admits(w, p, version) {
      AddPlayer(w.peers, w'.peers, p, w'.players[w.nextPlayerId], w.players);
    } else {
      LinkedFrame(w.peers, w'.peers, w.players, w.players);
    }
  }

  lemma {:induction false} MoveEachFrame(w: World, pid: U32, us: seq<PosUpdate>)
    ensures var es := MoveEach(w, pid, us);
      && es.Keys == w.entities.Keys
      && forall id :: id in es ==>
        && FactOf(es[id]) == FactOf(w.entities[id]) && es[id].id == w.entities[id].id
        && es[id].health == w.entities[id].health && es[id].buildProgress == w.entities[id].buildProgress
        && (w.entities[id].owner != pid ==> es[id] == w.entities[id])
        && (InRange(w.entities[id].position) ==> InRange(es[id].position))
  {
    if us != [] {
      MoveEachFrame(w, pid, us[..|us| - 1]);
    }
  }

  /** A player's request leaves the links as they were. */
  lemma PlayerRequestLinks(w: World, p: nat, pid: U32, r: Request, env: Env)
    requires pid in w.players
    ensures SameLinks(w.peers, OnPlayerRequest(w, p, pid, r, env).peers)
  {
    if r.AdminKick? {
      AdminKickLinks(w, p, pid, r.target, r.reason);
    } else {
      OnePost(w, p, pid, r, env);
    }
  }

  lemma PostNothing(peers: seq<Slot>, a: Audience)
    ensures Post(peers, a, []) == peers
  {
    forall p | 0 <= p < |peers| ensures Post(peers, a, [])[p] == peers[p] {
      assert peers[p].log + [] == peers[p].log;
    }
  }

  lemma AdminKickLinks(w: World, p: nat, pid: U32, target: U32, reason: string)
    ensures SameLinks(w.peers, OnAdminKick(w, p, pid, target, reason).peers)
  {
  }

  /** Every other request answers with one post, possibly of nothing. */
  lemma OnePost(w: World, p: nat, pid: U32, r: Request, env: Env)
    requires pid in w.players && !r.AdminKick?
    ensures exists a, msgs :: OnPlayerRequest(w, p, pid, r, env).peers == Post(w.peers, a, msgs)
    ensures SameLinks(w.peers, OnPlayerRequest(w, p, pid, r, env).peers)
  {
    var peers' := OnPlayerRequest(w, p, pid, r, env).peers;
    PostNothing(w.peers, Everyone);
    assert exists a, msgs :: peers' == Post(w.peers, a, msgs);
  }

  /** It also leaves the player table's identities, the host and the limits. */
  lemma PlayerRequestPlayers(w: World, p: nat, pid: U32, r: Request, env: Env)
    requires pid in w.players
    ensures var w' := OnPlayerRequest(w, p, pid, r, env);
      && w'.players.Keys == w.players.Keys
      && (forall id :: id in w.players ==> SamePlayer(w.players[id], w'.players[id]))
      && w'.host == w.host && w'.maxPlayers == w.maxPlayers && w'.nextPlayerId == w.nextPlayerId
  {
    hide Post, ZoneMsgs, MoveEach, ZoneOf, Combat.Resolve;
  }

  predicate SamePlayer(a: Player, b: Player) {
    a.id == b.id && a.peer == b.peer && a.name == b.name
  }

  lemma PlayerRequestTenants(w: World, p: nat, pid: U32, r: Request, env: Env)
    requires Tenanted(w.players, w.entities, w.nextEntityId) && pid in w.players && w.nextEntityId < 0xFFFF_FFFF
    ensures var w' := OnPlayerRequest(w, p, pid, r, env); Tenanted(w.players, w'.entities, w'.nextEntityId)
  {
    hide Post, ZoneMsgs, MoveEach, ZoneOf, Combat.Resolve;
    if r.Move? {
      MoveEachFrame(w, pid, r.updates);
    }
  }

  lemma PlayerRequestKeepsSession(w: World, p: nat, pid: U32, r: Request, env: Env)
    requires SessionOk(w) && p < |w.peers| && pid in w.players && Headroom(w)
    ensures SessionOk(OnPlayerRequest(w, p, pid, r, env))
  {
    var w' := OnPlayerRequest(w, p, pid, r, env);
    PlayerRequestLinks(w, p, pid, r, env);
    PlayerRequestPlayers(w, p, pid, r, env);
    PlayerRequestTenants(w, p, pid, r, env);
    assert SessionOk(w') by {
      SizeOfKeys(w.players, w'.players);
      LinkedFrame(w.peers, w'.peers, w.players, w'.players);
    }
  }

  lemma PacketKeepsSession(w: World, p: nat, r: Request, env: Env)
    requires SessionOk(w) && p < |w.peers| && !w.peers[p].state.Free? && Headroom(w)
    ensures SessionOk(OnPacket(w, p, r, env))
  {
    if r.Handshake? {
      HandshakeKeepsSession(w, p, r.version, r.rawName, env);
    } else if r.ServerQuery? || r.Leave? || PlayerAt(w, p).None? {
      LinkedFrame(w.peers, OnPacket(w, p, r, env).peers, w.players, w.players);
    } else {
      PlayerRequestKeepsSession(w, p, PlayerAt(w, p).value, r, env);
    }
  }

  lemma ConsoleKickKeepsSession(w: World, id: U32, reason: string)
    requires SessionOk(w)
    ensures SessionOk(OnConsoleKick(w, id, reason))
  {
    LinkedFrame(w.peers, OnConsoleKick(w, id, reason).peers, w.players, w.players);
  }

  lemma ConnectKeepsSession(w: World, p: nat)
    requires SessionOk(w) && p < |w.peers| && w.peers[p].state.Free?
    ensures SessionOk(OnConnect(w, p))
  {
  }

  /** The session invariant holds after every lawful event. */
  lemma StepKeepsSession(w: World, e: Event)
    requires SessionOk(w) && Lawful(w, e) && Headroom(w)
    ensures SessionOk(Step(w, e))
  {
    match e
    case Connect(p) => ConnectKeepsSession(w, p);
    case Disconnect(p, env) => DisconnectKeepsSession(w, p, env);
    case Packet(p, r, env) => PacketKeepsSession(w, p, r, env);
    case ConsoleKick(id, reason) => ConsoleKickKeepsSession(w, id, reason);
  }

  lemma InitSession(slots: nat, maxPlayers: int)
    requires -0x8000_0000 <= maxPlayers < 0x8000_0000
    ensures SessionOk(Init(slots, maxPlayers))
  {
  }

  /** Each event advances a counter by at most one, so a run of fewer than
      2^32 - 1 events cannot exhaust them. */
  lemma CountersAdvance(w: World, e: Event)
    requires Lawful(w, e) && Headroom(w)
    ensures var w' := Step(w, e);
      && w.nextPlayerId <= w'.nextPlayerId <= w.nextPlayerId + 1
      && w.nextEntityId <= w'.nextEntityId <= w.nextEntityId + 1
      && w'.maxPlayers == w.maxPlayers
  {
    match e
    case Connect(p) =>
    case Disconnect(p, env) =>
    case Packet(p, r, env) =>
      if r.Handshake? {
        HandshakeCounters(w, p, r.version, r.rawName, env);
      } else if PlayerAt(w, p).Some? && !r.ServerQuery? && !r.Leave? {
        RequestCounters(w, p, PlayerAt(w, p).value, r, env);
        PlayerRequestPlayers(w, p, PlayerAt(w, p).value, r, env);
      }
    case ConsoleKick(id, reason) =>
  }

  lemma HandshakeCounters(w: World, p: nat, version: U32, raw: string, env: Env)
    requires p < |w.peers|
    ensures var w' := OnHandshake(w, p, version, raw, env);
      && w'.nextPlayerId == (if Admits(w, p, version) then Inc32(w.nextPlayerId) else w.nextPlayerId)
      && w'.nextEntityId == w.nextEntityId && w'.maxPlayers == w.maxPlayers && w'.entities == w.entities
  {
  }

  lemma RequestCounters(w: World, p: nat, pid: U32, r: Request, env: Env)
    requires pid in w.players
    ensures var w' := OnPlayerRequest(w, p, pid, r, env);
      w'.nextEntityId in {w.nextEntityId, Inc32(w.nextEntityId)}
  {
  }

  /** The session invariant in every state of every run from an empty world. */
  lemma {:induction false} SessionOverRuns(ws: seq<World>, es: seq<Event>, slots: nat, maxPlayers: int, i: nat)
    requires Run(ws, es) && ws[0] == Init(slots, maxPlayers)
    requires -0x8000_0000 <= maxPlayers < 0x8000_0000
    requires |es| < 0xFFFF_FFFF && i <= |es|
    ensures SessionOk(ws[i])
    ensures ws[i].nextPlayerId <= 1 + i && ws[i].nextEntityId <= 1 + i && ws[i].maxPlayers == maxPlayers
  {
    if i == 0 {
      InitSession(slots, maxPlayers);
    } else {
      SessionOverRuns(ws, es, slots, maxPlayers, i - 1);
      assert ws[i] == Step(ws[i - 1], es[i - 1]);
      StepKeepsSession(ws[i - 1], es[i - 1]);
      CountersAdvance(ws[i - 1], es[i - 1]);
    }
  }

  /** The counter width matters: once the player counter has wrapped, an accepted
      handshake stores a null back-pointer, and players and back-pointers that
      were mutually inverse no longer are. */
  lemma WrappedCounterBreaksLinks(w: World, p: nat, raw: string, env: Env)
    requires Linked(w.peers, w.players) && w.nextPlayerId == 0 && p < |w.peers| && w.peers[p].data == 0
    requires |w.players| < SizeT(w.maxPlayers)
    ensures var w' := OnHandshake(w, p, PROTOCOL_VERSION, raw, env); !Linked(w'.peers, w'.players)
  {
    var w' := OnHandshake(w, p, PROTOCOL_VERSION, raw, env);
    assert 0 in w'.players;
  }
}
