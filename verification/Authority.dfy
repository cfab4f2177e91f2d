/** Who may change what, and what can never be undone. */
module Authority {
  import opened Base
  import opened Session
  import opened SessionInvariants
  import opened Replication
  import Combat

  // ---- Authority frame -----------------------------------------------------

  /** What a packet of player pid may do to an entity it does not own. */
  predicate ForeignChange(w: World, pid: U32, r: Request, id: U32, w': World)
    requires id in w.entities
  {
    var e := w.entities[id];
    || (id in w'.entities && w'.entities[id] == e)
    || (r.Attack? && r.target == id && CanAttack(w, pid, r.attacker, id, r.attackType)
        && id in w'.entities && w'.entities[id] == e.(health := w'.entities[id].health, alive := w'.entities[id].alive))
    || (r.Dismantle? && r.id == id && pid == w.host && id !in w'.entities)
    || (r.Repair? && r.id == id && pid == w.host
        && id in w'.entities && w'.entities[id] == e.(buildProgress := w'.entities[id].buildProgress))
  }

  lemma RequestFrame(w: World, p: nat, pid: U32, r: Request, env: Env)
    requires pid in w.players && w.nextEntityId !in w.entities
    ensures var w' := OnPlayerRequest(w, p, pid, r, env);
      && (forall id :: id in w.entities && w.entities[id].owner != pid ==> ForeignChange(w, pid, r, id, w'))
      && (forall id :: id in w'.entities && id !in w.entities ==> w'.entities[id].owner == pid && id == w.nextEntityId)
  {
    if r.Move? {
      MoveEachFrame(w, pid, r.updates);
    }
  }

  /** A packet touches only entities of its sender, apart from an attack on a
      living target within reach and the host's dismantling and repairing; a
      sender without a handshake touches none, and what is created belongs to
      the sender. */
  lemma AuthorityFrame(w: World, p: nat, r: Request, env: Env)
    requires SessionOk(w) && p < |w.peers|
    ensures var w' := OnPacket(w, p, r, env);
      match PlayerAt(w, p)
      case None => w'.entities == w.entities
      case Some(pid) =>
        && (forall id :: id in w.entities && w.entities[id].owner != pid ==> ForeignChange(w, pid, r, id, w'))
        && (forall id :: id in w'.entities && id !in w.entities ==> w'.entities[id].owner == pid)
  {
    if r.Handshake? {
      HandshakeCounters(w, p, r.version, r.rawName, env);
    } else if !r.ServerQuery? && !r.Leave? && PlayerAt(w, p).Some? {
      RequestFrame(w, p, PlayerAt(w, p).value, r, env);
    }
  }

  // ---- Identity and death --------------------------------------------------

  /** Every id below the older counter that is still present was present before,
      as the same thing for the same owner, and was alive if it is alive now. */
  ghost predicate Later(w: World, w': World) {
    && w.nextEntityId <= w'.nextEntityId && w.nextSquadId <= w'.nextSquadId
    && forall id :: id in w'.entities && id < w.nextEntityId ==>
      && id in w.entities
      && FactOf(w'.entities[id]) in {FactOf(w.entities[id]), FactOf(w.entities[id]).(alive := false)}
  }

  predicate SquadRoom(w: World) {
    0x8000_0000 <= w.nextSquadId < 0xFFFF_FFFF
  }

  lemma RequestLater(w: World, p: nat, pid: U32, r: Request, env: Env)
    requires pid in w.players && Headroom(w) && SquadRoom(w)
    ensures Later(w, OnPlayerRequest(w, p, pid, r, env))
    ensures OnPlayerRequest(w, p, pid, r, env).nextSquadId <= w.nextSquadId + 1
  {
    if r.Move? {
      MoveEachFrame(w, pid, r.updates);
    }
  }

  lemma StepLater(w: World, e: Event)
    requires Lawful(w, e) && Headroom(w) && SquadRoom(w)
    ensures Later(w, Step(w, e)) && Step(w, e).nextSquadId <= w.nextSquadId + 1
  {
    match e
    case Disconnect(p, env) =>
    case Packet(p, r, env) =>
      if r.Handshake? {
        HandshakeCounters(w, p, r.version, r.rawName, env);
        HandshakeSquads(w, p, r.version, r.rawName, env);
      } else if PlayerAt(w, p).Some? && !r.ServerQuery? && !r.Leave? {
        RequestLater(w, p, PlayerAt(w, p).value, r, env);
      }
    case _ =>
  }

  lemma HandshakeSquads(w: World, p: nat, version: U32, raw: string, env: Env)
    requires p < |w.peers|
    ensures OnHandshake(w, p, version, raw, env).nextSquadId == w.nextSquadId
  {
  }

  lemma LaterTransitive(a: World, b: World, c: World)
    requires Later(a, b) && Later(b, c)
    ensures Later(a, c)
  {
  }

  /** Along every run from an empty world, any later state stands in this
      relation to any earlier one: no entity id is reused, no owner or type
      changes, and nothing dead comes back to life. */
  lemma {:induction false} HistoryOverRuns(ws: seq<World>, es: seq<Event>, slots: nat, maxPlayers: int, i: nat, j: nat)
    requires Run(ws, es) && ws[0] == Init(slots, maxPlayers)
    requires -0x8000_0000 <= maxPlayers < 0x8000_0000
    requires |es| < 0x7FFF_FFFF && i <= j <= |es|
    ensures Later(ws[i], ws[j]) && 0x8000_0000 <= ws[j].nextSquadId <= 0x8000_0000 + j
    decreases j
  {
    hide Step, SessionOk, Lawful, Later;
    if j == 0 {
      LaterInit(ws[0], slots, maxPlayers);
    } else {
      HistoryOverRuns(ws, es, slots, maxPlayers, if i < j then i else j - 1, j - 1);
      SessionOverRuns(ws, es, slots, maxPlayers, j - 1);
      assert ws[j] == Step(ws[j - 1], es[j - 1]);
      StepLater(ws[j - 1], es[j - 1]);
      if i < j {
        LaterTransitive(ws[i], ws[j - 1], ws[j]);
      } else {
        LaterReflexive(ws[j]);
      }
    }
  }

  lemma LaterReflexive(w: World)
    ensures Later(w, w)
  {
  }

  lemma LaterInit(w: World, slots: nat, maxPlayers: int)
    requires w == Init(slots, maxPlayers)
    ensures Later(w, w) && w.nextSquadId == 0x8000_0000
  {
  }

  predicate IssuesEntity(w: World, w': World) {
    w'.nextEntityId != w.nextEntityId
  }

  predicate IssuesSquad(w: World, w': World) {
    w'.nextSquadId != w.nextSquadId
  }

  /** An id taken from the entity counter is never issued twice, and no squad
      id ever equals an entity id, in runs that stay below 2^31 - 1 events. */
  lemma IdsIssuedOnce(ws: seq<World>, es: seq<Event>, slots: nat, maxPlayers: int, i: nat, j: nat)
    requires Run(ws, es) && ws[0] == Init(slots, maxPlayers)
    requires -0x8000_0000 <= maxPlayers < 0x8000_0000
    requires |es| < 0x7FFF_FFFF && i < |es| && j < |es|
    ensures i < j && IssuesEntity(ws[i], ws[i + 1]) && IssuesEntity(ws[j], ws[j + 1]) ==>
      ws[i].nextEntityId < ws[j].nextEntityId
    ensures i < j && IssuesSquad(ws[i], ws[i + 1]) && IssuesSquad(ws[j], ws[j + 1]) ==>
      ws[i].nextSquadId < ws[j].nextSquadId
    ensures ws[i].nextEntityId < 0x8000_0000 <= ws[j].nextSquadId
  {
    hide Step, SessionOk, Lawful;
    SessionOverRuns(ws, es, slots, maxPlayers, i);
    HistoryOverRuns(ws, es, slots, maxPlayers, j, j);
    if i < j {
      HistoryOverRuns(ws, es, slots, maxPlayers, i, i + 1);
      HistoryOverRuns(ws, es, slots, maxPlayers, i + 1, j);
    }
  }

  /** An attack on a dead target, by anyone, changes nothing at all. */
  lemma DeadTakeNoDamage(w: World, p: nat, r: Request, env: Env)
    requires p < |w.peers| && r.Attack? && r.target in w.entities && !w.entities[r.target].alive
    ensures OnPacket(w, p, r, env) == w
  {
  }

  /** A knock-out report carries the chest's health; it lands on the head, and the
      chest keeps the value it had. */
  lemma ChestReportLandsOnHead(w: World, p: nat, id: U32, attacker: U32, chestHealth: real, env: Env)
    requires p < |w.peers| && PlayerAt(w, p).Some? && Owns(w, PlayerAt(w, p).value, id)
    ensures var before, after := w.entities[id].health, OnPacket(w, p, ReportKO(id, attacker, chestHealth), env).entities[id].health;
      && after[Combat.Index(Combat.Head)] == chestHealth
      && after[Combat.Index(Combat.Chest)] == before[Combat.Index(Combat.Chest)]
  {
    var w' := OnReportKO(w, PlayerAt(w, p).value, id, chestHealth);
    assert w'.entities[id].health == w.entities[id].health[0 := chestHealth];
  }

  // ---- Equipment, repairs and kicks ----------------------------------------

  /** The sender's own entity changes in the named slot only; anything else is ignored. */
  lemma EquipChangesOneSlot(w: World, p: nat, id: U32, slot: nat, item: U32, env: Env)
    requires p < |w.peers| && PlayerAt(w, p).Some?
    ensures var w' := OnPacket(w, p, Equip(id, slot, item), env);
      if Owns(w, PlayerAt(w, p).value, id) && slot < 14 then
        && w'.(entities := w.entities) == w && w'.entities.Keys == w.entities.Keys
        && (forall x :: x in w.entities && x != id ==> w'.entities[x] == w.entities[x])
        && w'.entities[id].(equipment := w.entities[id].equipment) == w.entities[id]
        && w'.entities[id].equipment[slot] == item
        && (forall k :: 0 <= k < 14 && k != slot ==> w'.entities[id].equipment[k] == w.entities[id].equipment[k])
      else w' == w
  {
    var w' := OnPacket(w, p, Equip(id, slot, item), env);
    if Owns(w, PlayerAt(w, p).value, id) && slot < 14 {
      assert w'.entities[id].equipment == w.entities[id].equipment[slot := item];
    }
  }

  ghost predicate ProgressOk(entities: map<U32, Entity>) {
    forall id :: id in entities ==> 0.0 <= entities[id].buildProgress <= 1.0
  }

  /** Progress is kept in [0, 1] and no entity that stays loses any. */
  ghost predicate Raised(before: map<U32, Entity>, after: map<U32, Entity>, next: U32) {
    && ProgressOk(after)
    && forall id :: id in before && id in after && id < next ==> before[id].buildProgress <= after[id].buildProgress
  }

  lemma RequestRaisesProgress(w: World, p: nat, pid: U32, r: Request, env: Env)
    requires ProgressOk(w.entities) && pid in w.players
    ensures Raised(w.entities, OnPlayerRequest(w, p, pid, r, env).entities, w.nextEntityId)
  {
    hide Post, ZoneMsgs, MoveEach, ZoneOf, Combat.Resolve;
    if r.Move? {
      MoveEachFrame(w, pid, r.updates);
    }
  }

  lemma StepRaisesProgress(w: World, e: Event)
    requires ProgressOk(w.entities) && Lawful(w, e)
    ensures Raised(w.entities, Step(w, e).entities, w.nextEntityId)
  {
    hide Post, Shut, OnPlayerRequest, Welcome, OnDisconnect, OnHandshake;
    match e
    case Connect(_) =>
    case Disconnect(p, env) => DisconnectKeepsProgress(w, p, env);
    case Packet(p, r, env) =>
      if r.Handshake? {
        HandshakeCounters(w, p, r.version, r.rawName, env);
      } else if !r.ServerQuery? && !r.Leave? && PlayerAt(w, p).Some? {
        RequestRaisesProgress(w, p, PlayerAt(w, p).value, r, env);
      }
    case ConsoleKick(_, _) =>
  }

  lemma DisconnectKeepsProgress(w: World, p: nat, env: Env)
    requires ProgressOk(w.entities) && p < |w.peers|
    ensures Raised(w.entities, OnDisconnect(w, p, env).entities, w.nextEntityId)
  {
    hide Farewell, OwnedIn, Heir;
  }

  /** Over runs, build progress stays in [0, 1] and each event only raises it. */
  lemma {:induction false} ProgressOverRuns(ws: seq<World>, es: seq<Event>, slots: nat, maxPlayers: int, i: nat)
    requires Run(ws, es) && ws[0] == Init(slots, maxPlayers) && i <= |es|
    ensures ProgressOk(ws[i].entities)
    ensures i > 0 ==> Raised(ws[i - 1].entities, ws[i].entities, ws[i - 1].nextEntityId)
  {
    hide Step, Lawful;
    if i > 0 {
      ProgressOverRuns(ws, es, slots, maxPlayers, i - 1);
      assert ws[i] == Step(ws[i - 1], es[i - 1]);
      StepRaisesProgress(ws[i - 1], es[i - 1]);
    }
  }

  /** A repair has an effect exactly when its sender owns the entity or hosts, the
      amount is in (0, 1] and the entity is not complete; it adds the amount up to 1. */
  lemma RepairExact(w: World, p: nat, id: U32, amount: Float, env: Env)
    requires p < |w.peers| && PlayerAt(w, p).Some? && ProgressOk(w.entities)
    ensures var pid, w' := PlayerAt(w, p).value, OnPacket(w, p, Repair(id, amount), env);
      && w'.(entities := w.entities) == w && w'.entities.Keys == w.entities.Keys
      && (forall x :: x in w.entities && x != id ==> w'.entities[x] == w.entities[x])
      && (id in w.entities ==> w'.entities[id].(buildProgress := w.entities[id].buildProgress) == w.entities[id])
      && (w'.entities != w.entities <==>
            id in w.entities && (w.entities[id].owner == pid || pid == w.host)
            && amount.Num? && 0.0 < amount.v <= 1.0 && w.entities[id].buildProgress < 1.0)
      && (w'.entities != w.entities ==>
            var was, now := w.entities[id].buildProgress, w'.entities[id].buildProgress;
            was < now && (now == was + amount.v || (now == 1.0 && was + amount.v > 1.0)))
  {
    var w' := OnPacket(w, p, Repair(id, amount), env);
    if id in w.entities && w'.entities[id].buildProgress == w.entities[id].buildProgress {
      assert w'.entities[id] == w.entities[id];
      assert w'.entities == w.entities;
    }
  }

  /** The host kicks a listed player other than itself: an open target gets the
      announcement and then the reason, and its slot closes; no other slot changes
      state, the host's included. Any other kick closes nothing. */
  lemma AdminKickExact(w: World, p: nat, target: U32, reason: string, env: Env)
    requires SessionOk(w) && p < |w.peers| && PlayerAt(w, p).Some?
    ensures var w' := OnPacket(w, p, AdminKick(target, reason), env);
      && |w'.peers| == |w.peers| && w' == w.(peers := w'.peers)
      && if PlayerAt(w, p).value == w.host && target in w.players && target != w.host then
           var q := w.players[target].peer;
           && q != p
           && (w.peers[q].state.Open? ==> w'.peers[q] == KickedSlot(w.peers[q], w.players[target].name, reason))
           && (!w.peers[q].state.Open? ==> w'.peers[q] == w.peers[q])
           && (forall k :: 0 <= k < |w.peers| && k != q ==> w'.peers[k].state == w.peers[k].state)
         else forall k :: 0 <= k < |w.peers| ==> w'.peers[k].state == w.peers[k].state
  {
    hide Post, Shut, Tenanted, Hosted, PlayersNumbered, KickedSlot;
    if PlayerAt(w, p).value == w.host && target in w.players && target != w.host {
      KickedPeers(w.peers, p, w.players[target].peer, w.players[target].name, reason);
    } else {
      AnswerOnly(w.peers, p, AdminResponse(PlayerAt(w, p).value == w.host));
    }
  }

  lemma AnswerOnly(peers: seq<Slot>, p: nat, m: Msg)
    ensures forall k :: 0 <= k < |peers| ==> Post(peers, Only(p), [m])[k].state == peers[k].state
  {
  }

  lemma KickedPeers(peers: seq<Slot>, p: nat, q: nat, name: string, reason: string)
    requires p < |peers| && q < |peers| && p != q
    ensures var announced := Post(peers, Everyone, [SystemMessage(name + " was kicked: " + reason)]);
      var closed := Shut(Post(announced, Only(q), [HandshakeReject(2)]), q);
      var r := Post(closed, Only(p), [AdminResponse(true)]);
      && |r| == |peers|
      && (if peers[q].state.Open? then r[q] == KickedSlot(peers[q], name, reason) else r[q] == peers[q])
      && (forall k :: 0 <= k < |peers| && k != q ==> r[k].state == peers[k].state)
  {
    var m := SystemMessage(name + " was kicked: " + reason);
    assert peers[q].log + [m] + [HandshakeReject(2)] == peers[q].log + [m, HandshakeReject(2)];
  }

  function KickedSlot(s: Slot, name: string, reason: string): Slot {
    Slot(Closing, s.data, s.log + [SystemMessage(name + " was kicked: " + reason), HandshakeReject(2)])
  }

  /** The console may kick anybody, the host included: the announcement reaches
      every open slot and the player's own then closes. */
  lemma ConsoleKickExact(w: World, id: U32, reason: string)
    requires SessionOk(w)
    ensures var w' := OnConsoleKick(w, id, reason);
      && |w'.peers| == |w.peers| && w' == w.(peers := w'.peers) && (id !in w.players ==> w' == w)
      && (id in w.players ==> forall k :: 0 <= k < |w.peers| ==>
           if !w.peers[k].state.Open? then w'.peers[k] == w.peers[k]
           else w'.peers[k] == Slot(if k == w.players[id].peer then Closing else Open, w.peers[k].data,
                  w.peers[k].log + [SystemMessage(w.players[id].name + " was kicked: " + reason)]))
  {
  }
}
