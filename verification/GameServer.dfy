/** The dedicated server as the program writes it: fields updated in place, loops
    over the hash maps and the peer array, one method per handler. Every method
    is proved equal to its function in Session. */
module GameServers {
  import opened Base
  import opened Session
  import opened SessionInvariants
  import HandlerEffects
  import Combat

  /** Links seen by a broadcast that leaves out player ex: off ex, open back-pointers
      and the player table agree. */
  ghost predicate LinkedBut(peers: seq<Slot>, players: map<U32, Player>, ex: U32) {
    && (forall q :: 0 <= q < |peers| && peers[q].data != 0 && peers[q].data != ex ==>
      peers[q].data in players && players[peers[q].data].peer == q)
    && (forall id :: id in players && id != ex ==>
      id != 0 && players[id].peer < |peers| && peers[players[id].peer].data == id)
  }

  lemma PostTwice(peers: seq<Slot>, a: Audience, m1: seq<Msg>, m2: seq<Msg>)
    ensures Post(Post(peers, a, m1), a, m2) == Post(peers, a, m1 + m2)
  {
    forall p | 0 <= p < |peers| ensures Post(Post(peers, a, m1), a, m2)[p] == Post(peers, a, m1 + m2)[p] {
      assert peers[p].log + m1 + m2 == peers[p].log + (m1 + m2);
    }
  }

  lemma PostKeepsLinks(peers: seq<Slot>, players: map<U32, Player>, ex: U32, a: Audience, msgs: seq<Msg>)
    requires LinkedBut(peers, players, ex)
    ensures LinkedBut(Post(peers, a, msgs), players, ex)
  {
  }

  lemma LinkedWithNewcomer(peers: seq<Slot>, peers': seq<Slot>, p: nat, pl: Player, players: map<U32, Player>)
    requires Linked(peers, players) && p < |peers| && peers[p].data == 0
    requires peers' == peers[p := peers[p].(data := pl.id)]
    ensures LinkedBut(peers', players[pl.id := pl], pl.id)
  {
  }

  class GameServer {
    var peers: seq<Slot>
    var players: map<U32, Player>
    var entities: map<U32, Entity>
    var nextPlayerId: U32
    var nextEntityId: U32
    var nextSquadId: U32
    var hostPlayerId: U32
    const maxPlayers: int

    ghost function View(): World
      reads this
    {
      World(peers, players, entities, nextPlayerId, nextEntityId, nextSquadId, hostPlayerId, maxPlayers)
    }

    constructor (slots: nat, maxPlayers: int)
      ensures View() == Init(slots, maxPlayers)
    {
      peers := seq(slots, i => Slot(Free, 0, []));
      players, entities := map[], map[];
      nextPlayerId, nextEntityId, nextSquadId, hostPlayerId := 1, 1, 0x8000_0000, 0;
      this.maxPlayers := maxPlayers;
    }

    // ---- Sending -----------------------------------------------------------

    /** enet_peer_send: refused unless the peer is connected. */
    method Send(q: nat, m: Msg)
      requires q < |peers|
      modifies this`peers
      ensures peers == Post(old(peers), Only(q), [m])
    {
      if peers[q].state.Open? {
        peers := peers[q := peers[q].(log := peers[q].log + [m])];
      }
    }

    /** enet_host_broadcast. */
    method Broadcast(m: Msg)
      modifies this`peers
      ensures peers == Post(old(peers), Everyone, [m])
    {
      for q := 0 to |peers|
        invariant |peers| == old(|peers|)
        invariant forall k :: 0 <= k < |peers| ==>
          peers[k] == if k < q then PostSlot(k, old(peers)[k], Everyone, [m]) else old(peers)[k]
      {
        if peers[q].state.Open? {
          peers := peers[q := peers[q].(log := peers[q].log + [m])];
        }
      }
    }

    method BroadcastExcept(exclude: U32, m: Msg)
      requires LinkedBut(peers, players, exclude)
      modifies this`peers
      ensures peers == Post(old(peers), Except(exclude), [m])
    {
      var todo := players.Keys;
      while todo != {}
        invariant todo <= players.Keys
        invariant |peers| == old(|peers|)
        invariant forall k :: 0 <= k < |peers| ==>
          peers[k] == if old(peers)[k].data in todo then old(peers)[k]
                        else PostSlot(k, old(peers)[k], Except(exclude), [m])
        decreases todo
      {
        var id :| id in todo;
        if id != exclude {
          Send(players[id].peer, m);
        }
        todo := todo - {id};
      }
    }

    method Disconnecting(q: nat)
      modifies this`peers
      ensures peers == Shut(old(peers), q)
    {
      if q < |peers| && peers[q].state.Open? {
        peers := peers[q := peers[q].(state := Closing)];
      }
    }

    method GetPlayer(p: nat) returns (r: Option<U32>)
      requires p < |peers|
      ensures r == PlayerAt(View(), p)
    {
      var id := peers[p].data;
      if id == 0 || id !in players {
        return None;
      }
      return Some(id);
    }

    // ---- Connections -------------------------------------------------------

    method HandleConnect(p: nat)
      requires p < |peers|
      modifies this
      ensures View() == OnConnect(old(View()), p)
    {
      peers := peers[p := Slot(Open, peers[p].data, [])];
      if |players| >= SizeT(maxPlayers) {
        Disconnecting(p);
        return;
      }
      peers := peers[p := peers[p].(data := 0)];
    }

    method OwnedEntities(owner: U32, order: seq<U32>) returns (toRemove: seq<U32>)
      ensures toRemove == OwnedIn(entities, owner, order)
    {
      toRemove := [];
      for i := 0 to |order|
        invariant toRemove == OwnedIn(entities, owner, order[..i])
      {
        assert order[..i + 1][..i] == order[..i];
        if order[i] in entities && entities[order[i]].owner == owner {
          toRemove := toRemove + [order[i]];
        }
      }
      assert order[..|order|] == order;
    }

    /** One despawn message and one erase per owned entity. */
    method DespawnAll(exclude: U32, ids: seq<U32>)
      requires LinkedBut(peers, players, exclude)
      modifies this`peers, this`entities
      ensures peers == Post(old(peers), Except(exclude), DespawnMsgs(ids))
      ensures entities == old(entities) - (set id | id in ids)
    {
      PostNothing(peers, Except(exclude));
      assert DespawnMsgs([]) == [];
      for i := 0 to |ids|
        invariant peers == Post(old(peers), Except(exclude), DespawnMsgs(ids[..i]))
        invariant entities == old(entities) - (set id | id in ids[..i])
      {
        BroadcastExcept(exclude, EntityDespawn(ids[i], 1));
        entities := entities - {ids[i]};
        PostTwice(old(peers), Except(exclude), DespawnMsgs(ids[..i]), [EntityDespawn(ids[i], 1)]);
        assert ids[..i + 1] == ids[..i] + [ids[i]];
        assert DespawnMsgs(ids[..i + 1]) == DespawnMsgs(ids[..i]) + [EntityDespawn(ids[i], 1)];
      }
      assert ids[..|ids|] == ids;
    }

    method FirstPlayer(order: seq<U32>, leaver: U32) returns (heir: U32)
      ensures heir == Heir(order, leaver)
    {
      var i := 0;
      while i < |order| && order[i] == leaver
        invariant i <= |order|
        invariant Heir(order, leaver) == Heir(order[i..], leaver)
      {
        i := i + 1;
      }
      heir := if i < |order| then order[i] else 0;
    }

    /** Despawns, the leave notice, the erase and the choice of a new host. */
    method RemovePlayer(pid: U32, env: Env)
      requires pid in players && LinkedBut(peers, players, pid)
      modifies this
      ensures var rest := old(players) - {pid};
        var heir := if pid != old(hostPlayerId) then old(hostPlayerId) else Heir(env.playerOrder, pid);
        var gone := OwnedIn(old(entities), pid, env.entityOrder);
        View() == old(View()).(
          players := rest, host := heir, entities := old(entities) - (set id | id in gone),
          peers := Farewell(old(peers), pid, old(players)[pid].name, gone, pid == old(hostPlayerId), rest, heir))
    {
      hide Heir, OwnedIn, DespawnMsgs, Post, LinkedBut;
      var toRemove := OwnedEntities(pid, env.entityOrder);
      PostKeepsLinks(peers, players, pid, Except(pid), DespawnMsgs(toRemove));
      DespawnAll(pid, toRemove);
      BroadcastExcept(pid, PlayerLeft(pid));
      var leavingName := players[pid].name;
      players := players - {pid};
      if pid == hostPlayerId {
        hostPlayerId := FirstPlayer(env.playerOrder, pid);
        if players != map[] {
          Broadcast(SystemMessage(NameOf(players, hostPlayerId) + " is now the host"));
        }
      }
      Broadcast(SystemMessage(leavingName + " left the game"));
    }

    method HandleDisconnect(p: nat, env: Env)
      requires p < |peers| && Linked(peers, players)
      modifies this
      ensures View() == OnDisconnect(old(View()), p, env)
    {
      var who := GetPlayer(p);
      peers := peers[p := peers[p].(state := Free)];
      if who.Some? {
        RemovePlayer(who.value, env);
      }
      peers := peers[p := peers[p].(data := 0)];
    }

    // ---- Handshake ---------------------------------------------------------

    method SanitizeName(raw: string) returns (name: string)
      ensures name == Sanitize(raw)
      ensures exists at :: HandlerEffects.Keeps(raw, at) && HandlerEffects.Spells(raw, at, name)
    {
      name := "";
      var i := 0;
      while i < |raw| && i < MAX_NAME_LENGTH && raw[i] != '\0'
        invariant i <= |raw| && i <= MAX_NAME_LENGTH
        invariant name == Filter(raw, i)
        invariant NameEnd(raw, 0) == NameEnd(raw, i)
      {
        if Printable(raw[i]) {
          name := name + [raw[i]];
        }
        i := i + 1;
      }
      if name == "" {
        name := "Player";
      }
      ghost var at := HandlerEffects.NameExact(raw);
    }

    method SendExistingPlayers(p: nat, self: U32, order: seq<U32>)
      requires p < |peers|
      modifies this`peers
      ensures peers == Post(old(peers), Only(p), JoinedMsgs(players, self, order))
    {
      PostNothing(peers, Only(p));
      for i := 0 to |order|
        invariant peers == Post(old(peers), Only(p), JoinedMsgs(players, self, order[..i]))
      {
        assert order[..i + 1][..i] == order[..i];
        if order[i] in players && order[i] != self {
          Send(p, JoinedMsg(order[i], players[order[i]].name));
          PostTwice(old(peers), Only(p), JoinedMsgs(players, self, order[..i]),
                    [JoinedMsg(order[i], players[order[i]].name)]);
        }
      }
      assert order[..|order|] == order;
    }

    method SendWorldSnapshot(p: nat, order: seq<U32>)
      requires p < |peers|
      modifies this`peers
      ensures peers == Post(old(peers), Only(p), SnapshotMsgs(players, entities, order))
    {
      PostNothing(peers, Only(p));
      for i := 0 to |order|
        invariant peers == Post(old(peers), Only(p), SnapshotMsgs(players, entities, order[..i]))
      {
        assert order[..i + 1][..i] == order[..i];
        var id := order[i];
        if id in entities && (entities[id].owner == 0 || entities[id].owner in players)
           && InRange(entities[id].position) {
          Send(p, SpawnMsg(entities[id]));
          PostTwice(old(peers), Only(p), SnapshotMsgs(players, entities, order[..i]), [SpawnMsg(entities[id])]);
        }
      }
      assert order[..|order|] == order;
    }

    method Reject(p: nat, code: nat)
      requires p < |peers|
      modifies this`peers
      ensures peers == Shut(Post(old(peers), Only(p), [HandshakeReject(code)]), p)
    {
      Send(p, HandshakeReject(code));
      Disconnecting(p);
    }

    method SendWelcome(p: nat, id: U32, name: string, env: Env)
      requires p < |peers| && LinkedBut(peers, players, id)
      modifies this`peers
      ensures peers == Welcome(old(peers), p, id, name, players, entities, env)
    {
      ghost var peers0 := peers;
      Send(p, HandshakeAck(id));
      var slot: nat := (id as int + 1) % 2;
      Send(p, FactionAssignment(slot));
      PostTwice(peers0, Only(p), [HandshakeAck(id)], [FactionAssignment(slot)]);
      assert [HandshakeAck(id)] + [FactionAssignment(slot)] == [HandshakeAck(id), FactionAssignment(slot)];
      BroadcastExcept(id, JoinedMsg(id, name));
      SendExistingPlayers(p, id, env.playerOrder);
      SendWorldSnapshot(p, env.entityOrder);
      Broadcast(SystemMessage(name + " joined the game"));
    }

    method HandleHandshake(p: nat, version: U32, raw: string, env: Env)
      requires p < |peers| && Linked(peers, players)
      modifies this
      ensures View() == OnHandshake(old(View()), p, version, raw, env)
    {
      if peers[p].data != 0 {
        return;
      }
      if |players| >= SizeT(maxPlayers) {
        Reject(p, 0);
        return;
      }
      if version != PROTOCOL_VERSION {
        Reject(p, 1);
        return;
      }
      var name := SanitizeName(raw);
      var id := nextPlayerId;
      nextPlayerId := Inc32(nextPlayerId);
      peers := peers[p := peers[p].(data := id)];
      players := players[id := Player(id, name, p, ORIGIN, Zone(0, 0))];
      if hostPlayerId == 0 {
        hostPlayerId := id;
      }
      LinkedWithNewcomer(old(peers), peers, p, players[id], old(players));
      SendWelcome(p, id, name, env);
    }

    method HandleServerQuery(p: nat)
      requires p < |peers|
      modifies this
      ensures View() == OnServerQuery(old(View()), p)
    {
      Send(p, ServerInfo(|players|));
      Disconnecting(p);
    }

    // ---- Requests of players -----------------------------------------------

    method HandlePositionUpdate(pid: U32, updates: seq<PosUpdate>)
      requires pid in players
      modifies this
      ensures View() == OnMove(old(View()), pid, updates)
      ensures HandlerEffects.Repositioned(old(View()), View(), pid, updates)
    {
      hide HandlerEffects.Repositioned;
      var playerPosUpdated := false;
      ghost var w := View();
      for i := 0 to |updates|
        invariant entities == MoveEach(w, pid, updates[..i])
        invariant players == (match FirstApplied(w, pid, updates[..i])
                              case None => w.players
                              case Some(v) => w.players[pid := w.players[pid].(position := v, zone := ZoneOf(v))])
        invariant playerPosUpdated == FirstApplied(w, pid, updates[..i]).Some?
        invariant View() == w.(entities := entities, players := players)
      {
        var u := updates[i];
        assert updates[..i + 1][..i] == updates[..i];
        MoveEachFrame(w, pid, updates[..i]);
        if InRange(u.position) && u.id in entities && entities[u.id].owner == pid {
          entities := entities[u.id := Moved(entities[u.id], u)];
          if !playerPosUpdated {
            players := players[pid := players[pid].(position := u.position, zone := ZoneOf(u.position))];
            playerPosUpdated := true;
          }
        }
      }
      assert updates[..|updates|] == updates;
      HandlerEffects.OnMoveExact(w, pid, updates);
    }

    method HandleAttackIntent(pid: U32, attacker: U32, target: U32, attackType: nat, dice: Combat.Dice)
      modifies this
      ensures View() == OnAttack(old(View()), pid, attacker, target, attackType, dice)
      ensures Combat.DiceOk(dice) ==>
        HandlerEffects.Struck(old(View()), View(), pid, attacker, target, attackType, dice)
    {
      hide HandlerEffects.Struck;
      if Combat.DiceOk(dice) {
        HandlerEffects.OnAttackExact(View(), pid, attacker, target, attackType, dice);
      }
      if attacker !in entities || entities[attacker].owner != pid { return; }
      if target !in entities || !entities[target].alive { return; }
      var distSq := DistSq(entities[attacker].position, entities[target].position);
      var maxDist := if attackType == 1 then 150.0 else 15.0;
      if Exceeds(distSq, maxDist * maxDist) { return; }
      ghost var peers0 := peers;
      var t := entities[target];
      var o := Combat.Resolve(t.health, dice);
      entities := entities[target := t.(health := o.health, alive := t.alive && !o.wasDeath)];
      PostNothing(peers0, Everyone);
      if o.wasDeath {
        entities := entities[target := entities[target].(alive := false)];
        Broadcast(CombatDeath(target, attacker));
      } else if o.wasKO {
        Broadcast(CombatKO(target, attacker));
      }
    }

    method HandleBuildRequest(pid: U32, templateId: U32, pos: Vec3, rot: U32)
      modifies this
      ensures View() == OnBuild(old(View()), pid, templateId, pos, rot)
    {
      var buildId := nextEntityId;
      nextEntityId := Inc32(nextEntityId);
      entities := entities[buildId := Entity(buildId, BUILDING, pid, pos, rot, ZoneOf(pos), templateId, 0, "",
                                             FULL_HEALTH, true, 0, 0, 0, 0.0, NO_EQUIPMENT)];
      Broadcast(BuildPlaced(buildId, templateId, pid));
    }

    method HandleEntitySpawnReq(pid: U32, r: Request)
      requires r.Spawn? && pid in players
      modifies this
      ensures View() == OnSpawn(old(View()), pid, r)
    {
      if r.kind > TURRET { return; }
      if |entities| >= MAX_SYNC_ENTITIES { return; }
      var serverId := nextEntityId;
      nextEntityId := Inc32(nextEntityId);
      var entity := Entity(serverId, r.kind, pid, r.position, r.rotation, ZoneOf(r.position), r.templateId, r.factionId,
                           r.name, FULL_HEALTH, true, 0, 0, 0, 0.0, NO_EQUIPMENT);
      if r.state.Some? {
        entity := entity.(health := r.state.value.0, alive := r.state.value.1);
      }
      entities := entities[serverId := entity];
      if players[pid].zone == Zone(0, 0) {
        players := players[pid := players[pid].(position := entity.position, zone := entity.zone)];
      }
      assert players == old(players)[pid := players[pid]];
      Broadcast(EntitySpawn(serverId, Fact(r.kind, pid, r.templateId, r.factionId, r.name, entity.alive)));
    }

    method HandleEntityDespawnReq(pid: U32, id: U32, reason: nat)
      modifies this
      ensures View() == OnDespawn(old(View()), pid, id, reason)
    {
      if id !in entities || entities[id].owner != pid { return; }
      entities := entities - {id};
      Broadcast(EntityDespawn(id, reason));
    }

    method HandleEquipmentUpdate(pid: U32, id: U32, slot: nat, item: U32)
      modifies this
      ensures View() == OnEquip(old(View()), pid, id, slot, item)
    {
      if id !in entities || entities[id].owner != pid || slot >= 14 { return; }
      var e := entities[id];
      entities := entities[id := e.(equipment := e.equipment[slot := item])];
    }

    method HandleZoneRequest(p: nat, pid: U32, x: int, y: int, env: Env)
      requires p < |peers|
      modifies this
      ensures View() == OnZoneRequest(old(View()), p, pid, x, y, env)
    {
      if x < -ZONE_MAX || x > ZONE_MAX || y < -ZONE_MAX || y > ZONE_MAX { return; }
      var order := env.entityOrder;
      PostNothing(peers, Only(p));
      for i := 0 to |order|
        invariant peers == Post(old(peers), Only(p), ZoneMsgs(entities, pid, Zone(x, y), order[..i]))
        invariant View() == old(View()).(peers := peers)
      {
        assert order[..i + 1][..i] == order[..i];
        var id := order[i];
        if id in entities && entities[id].owner != pid
           && (Adjacent(Zone(x, y), entities[id].zone) || entities[id].zone == Zone(x, y)) {
          Send(p, SpawnMsg(entities[id]));
          PostTwice(old(peers), Only(p), ZoneMsgs(entities, pid, Zone(x, y), order[..i]), [SpawnMsg(entities[id])]);
        }
      }
      assert order[..|order|] == order;
    }

    method HandleSquadCreate(pid: U32, creator: U32)
      modifies this
      ensures View() == OnCreateSquad(old(View()), pid, creator)
    {
      if creator !in entities || entities[creator].owner != pid { return; }
      var squadNetId := nextSquadId;
      nextSquadId := Inc32(nextSquadId);
      Broadcast(SquadCreated(creator, squadNetId));
    }

    method HandleBuildDismantle(pid: U32, id: U32)
      modifies this
      ensures View() == OnDismantle(old(View()), pid, id)
    {
      if id !in entities { return; }
      if entities[id].owner != pid && pid != hostPlayerId { return; }
      entities := entities - {id};
      Broadcast(BuildDestroyed(id));
    }

    method HandleBuildRepair(pid: U32, id: U32, amount: Float)
      modifies this
      ensures View() == OnRepair(old(View()), pid, id, amount)
    {
      if id !in entities { return; }
      if entities[id].owner != pid && pid != hostPlayerId { return; }
      if !amount.Num? || amount.v <= 0.0 || amount.v > 1.0 { return; }
      var e := entities[id];
      entities := entities[id := e.(buildProgress := Clamp01(e.buildProgress + amount.v))];
    }

    method HandleCombatKO(pid: U32, id: U32, chestHealth: real)
      modifies this
      ensures View() == OnReportKO(old(View()), pid, id, chestHealth)
    {
      if id !in entities || entities[id].owner != pid { return; }
      var e := entities[id];
      entities := entities[id := e.(health := e.health[0 := chestHealth])];
    }

    method HandleCombatDeath(pid: U32, id: U32, killer: U32)
      modifies this
      ensures View() == OnReportDeath(old(View()), pid, id, killer)
    {
      if id !in entities || entities[id].owner != pid { return; }
      entities := entities[id := entities[id].(alive := false)];
      Broadcast(CombatDeath(id, killer));
    }

    method HandleAdminKick(p: nat, pid: U32, target: U32, reason: string)
      requires p < |peers| && Linked(peers, players)
      modifies this
      ensures View() == OnAdminKick(old(View()), p, pid, target, reason)
    {
      if pid != hostPlayerId {
        Send(p, AdminResponse(false));
        return;
      }
      if target in players && target != hostPlayerId {
        Broadcast(SystemMessage(players[target].name + " was kicked: " + reason));
        Send(players[target].peer, HandshakeReject(2));
        Disconnecting(players[target].peer);
      }
      Send(p, AdminResponse(true));
    }

    method KickPlayer(id: U32, reason: string)
      modifies this
      ensures View() == OnConsoleKick(old(View()), id, reason)
    {
      if id !in players { return; }
      Broadcast(SystemMessage(players[id].name + " was kicked: " + reason));
      Disconnecting(players[id].peer);
    }

    // ---- Dispatch ----------------------------------------------------------

    method HandlePlayerRequest(p: nat, pid: U32, r: Request, env: Env)
      requires p < |peers| && pid in players && Linked(peers, players)
      modifies this
      ensures View() == OnPlayerRequest(old(View()), p, pid, r, env)
    {
      match r
      case Move(us) => HandlePositionUpdate(pid, us);
      case Attack(a, t, k) => HandleAttackIntent(pid, a, t, k, env.dice);
      case Build(t, pos, rot) => HandleBuildRequest(pid, t, pos, rot);
      case Spawn(_, _, _, _, _, _, _) => HandleEntitySpawnReq(pid, r);
      case Despawn(id, reason) => HandleEntityDespawnReq(pid, id, reason);
      case Equip(id, s, item) => HandleEquipmentUpdate(pid, id, s, item);
      case ZoneRequest(x, y) => HandleZoneRequest(p, pid, x, y, env);
      case CreateSquad(c) => HandleSquadCreate(pid, c);
      case Dismantle(id) => HandleBuildDismantle(pid, id);
      case Repair(id, amount) => HandleBuildRepair(pid, id, amount);
      case ReportKO(id, _, h) => HandleCombatKO(pid, id, h);
      case ReportDeath(id, killer) => HandleCombatDeath(pid, id, killer);
      case AdminKick(target, reason) => HandleAdminKick(p, pid, target, reason);
      case _ =>
    }

    method HandlePacket(p: nat, r: Request, env: Env)
      requires p < |peers| && Linked(peers, players)
      modifies this
      ensures View() == OnPacket(old(View()), p, r, env)
    {
      match r
      case Handshake(version, raw) => HandleHandshake(p, version, raw, env);
      case ServerQuery => HandleServerQuery(p);
      case Leave => Disconnecting(p);
      case _ =>
        var who := GetPlayer(p);
        if who.Some? {
          HandlePlayerRequest(p, who.value, r, env);
        }
    }

    /** One event of the service loop: the fields follow the state machine and
        the session invariant survives. */
    method Service(e: Event)
      requires SessionOk(View()) && Headroom(View()) && Lawful(View(), e)
      modifies this
      ensures View() == Step(old(View()), e)
      ensures SessionOk(View())
    {
      ghost var w := View();
      StepKeepsSession(w, e);
      match e
      case Connect(p) => HandleConnect(p);
      case Disconnect(p, env) => HandleDisconnect(p, env);
      case Packet(p, r, env) => HandlePacket(p, r, env);
      case ConsoleKick(id, reason) => KickPlayer(id, reason);
    }
  }
}
