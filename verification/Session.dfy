/** The dedicated server's protocol as a state machine on values: one function
    per handler of server.cpp. GameServer.dfy holds the class whose methods
    update these fields in place and are proved equal to these functions. */
module Session {
  import opened Base
  import Combat

  const PROTOCOL_VERSION: U32 := 1
  const MAX_NAME_LENGTH: nat := 31
  const BUILDING: nat := 3
  const TURRET: nat := 6
  const ZONE_MAX: int := 500

  type Name255 = s: string | |s| <= 255

  // ---- Messages on the reliable-ordered channel ----------------------------

  /** What a spawn message tells about an entity's identity and life. */
  datatype Fact = Fact(kind: nat, owner: U32, templateId: U32, factionId: U32, name: string, alive: bool)

  datatype Msg =
    | HandshakeAck(playerId: U32)
    | HandshakeReject(code: nat)
    | FactionAssignment(slot: nat)
    | PlayerJoined(id: U32, name: string)
    | PlayerLeft(id: U32)
    | EntitySpawn(id: U32, fact: Fact)
    | BuildPlaced(id: U32, templateId: U32, builder: U32)
    | EntityDespawn(id: U32, reason: nat)
    | BuildDestroyed(id: U32)
    | CombatDeath(id: U32, killer: U32)
    | CombatKO(id: U32, attacker: U32)
    | SquadCreated(creator: U32, squad: U32)
    | SystemMessage(text: string)
    | AdminResponse(ok: bool)
    | ServerInfo(players: nat)

  // ---- State ---------------------------------------------------------------

  /** A peer slot of the ENet host. Sends succeed only while it is Open; a
      Closing peer has been asked to disconnect but may still deliver packets. */
  datatype SlotState = Free | Open | Closing

  /** data is the back-pointer to the player (0 is nullptr); log is everything
      queued for this connection on the ordered channel. */
  datatype Slot = Slot(state: SlotState, data: U32, log: seq<Msg>)

  datatype Player = Player(id: U32, name: string, peer: nat, position: Vec3, zone: Zone)

  datatype Entity = Entity(
    id: U32, kind: nat, owner: U32, position: Vec3, rotation: U32, zone: Zone,
    templateId: U32, factionId: U32, templateName: string, health: Health, alive: bool,
    animState: nat, moveSpeed: nat, flags: nat, buildProgress: real, equipment: Equipment)

  datatype World = World(
    peers: seq<Slot>, players: map<U32, Player>, entities: map<U32, Entity>,
    nextPlayerId: U32, nextEntityId: U32, nextSquadId: U32, host: U32, maxPlayers: int)

  function Init(slots: nat, maxPlayers: int): World {
    World(seq(slots, i => Slot(Free, 0, [])), map[], map[], 1, 1, 0x8000_0000, 0, maxPlayers)
  }

  /** static_cast<size_t>(maxPlayers). */
  function SizeT(n: int): int {
    if n >= 0 then n else n + 0x1_0000_0000_0000_0000
  }

  // ---- Events --------------------------------------------------------------

  /** Choices the program does not make: the order in which the two hash maps
      are traversed, and the combat dice. */
  datatype Env = Env(entityOrder: seq<U32>, playerOrder: seq<U32>, dice: Combat.Dice)

  datatype PosUpdate = PosUpdate(id: U32, position: Vec3, rotation: U32, animState: nat, moveSpeed: nat, flags: nat)

  datatype Request =
    | Handshake(version: U32, rawName: string)
    | ServerQuery
    | Leave
    | Move(updates: seq<PosUpdate>)
    | Attack(attacker: U32, target: U32, attackType: nat)
    | Build(templateId: U32, position: Vec3, rotation: U32)
    | Spawn(kind: nat, templateId: U32, position: Vec3, rotation: U32, factionId: U32,
            name: Name255, state: Option<(Health, bool)>)
    | Despawn(id: U32, despawnReason: nat)
    | Equip(id: U32, equipSlot: nat, item: U32)
    | ZoneRequest(x: int, y: int)
    | CreateSquad(creator: U32)
    | Dismantle(id: U32)
    | Repair(id: U32, amount: Float)
    | ReportKO(id: U32, attacker: U32, chestHealth: real)
    | ReportDeath(id: U32, killer: U32)
    | AdminKick(target: U32, reason: string)

  datatype Event =
    | Connect(peer: nat)
    | Disconnect(peer: nat, env: Env)
    | Packet(peer: nat, request: Request, env: Env)
    | ConsoleKick(id: U32, reason: string)

  // ---- Sending -------------------------------------------------------------

  datatype Audience = Everyone | Except(id: U32) | Only(peer: nat)

  predicate Hears(p: nat, s: Slot, a: Audience) {
    && s.state.Open?
    && match a
       case Everyone => true
       case Except(id) => s.data != 0 && s.data != id
       case Only(q) => p == q
  }

  function PostSlot(p: nat, s: Slot, a: Audience, msgs: seq<Msg>): Slot {
    if Hears(p, s, a) then s.(log := s.log + msgs) else s
  }

  function Post(peers: seq<Slot>, a: Audience, msgs: seq<Msg>): (r: seq<Slot>)
    ensures |r| == |peers|
    ensures forall p :: 0 <= p < |r| ==> r[p] == PostSlot(p, peers[p], a, msgs)
  {
    seq(|peers|, p requires 0 <= p < |peers| => PostSlot(p, peers[p], a, msgs))
  }

  /** enet_peer_disconnect and enet_peer_disconnect_later. */
  function Shut(peers: seq<Slot>, p: nat): seq<Slot> {
    if p < |peers| && peers[p].state.Open? then peers[p := peers[p].(state := Closing)] else peers
  }

  function FactOf(e: Entity): Fact {
    Fact(e.kind, e.owner, e.templateId, e.factionId, e.templateName, e.alive)
  }

  /** Snapshot and zone replies cut the template name at 255 bytes. */
  function SpawnMsg(e: Entity): Msg {
    EntitySpawn(e.id, FactOf(e).(name := Clip(e.templateName, 255)))
  }

  /** The join message copies at most KMP_MAX_NAME_LENGTH - 1 bytes of the name. */
  function JoinedMsg(id: U32, name: string): Msg {
    PlayerJoined(id, Clip(name, MAX_NAME_LENGTH - 1))
  }

  /** HandleDisconnect's toRemove. */
  function OwnedIn(entities: map<U32, Entity>, owner: U32, order: seq<U32>): seq<U32> {
    if order == [] then []
    else
      var rest, id := OwnedIn(entities, owner, order[..|order| - 1]), order[|order| - 1];
      if id in entities && entities[id].owner == owner then rest + [id] else rest
  }

  function DespawnMsgs(ids: seq<U32>): seq<Msg> {
    seq(|ids|, i requires 0 <= i < |ids| => EntityDespawn(ids[i], 1))
  }

  function JoinedMsgs(players: map<U32, Player>, self: U32, order: seq<U32>): seq<Msg> {
    if order == [] then []
    else
      var rest, id := JoinedMsgs(players, self, order[..|order| - 1]), order[|order| - 1];
      if id in players && id != self then rest + [JoinedMsg(id, players[id].name)] else rest
  }

  /** SendWorldSnapshot skips orphans and garbage positions. */
  predicate InSnapshot(players: map<U32, Player>, e: Entity) {
    (e.owner == 0 || e.owner in players) && InRange(e.position)
  }

  function SnapshotMsgs(players: map<U32, Player>, entities: map<U32, Entity>, order: seq<U32>): seq<Msg> {
    if order == [] then []
    else
      var rest, id := SnapshotMsgs(players, entities, order[..|order| - 1]), order[|order| - 1];
      if id in entities && InSnapshot(players, entities[id]) then rest + [SpawnMsg(entities[id])] else rest
  }

  predicate InZoneReply(pid: U32, zone: Zone, e: Entity) {
    e.owner != pid && (Adjacent(zone, e.zone) || e.zone == zone)
  }

  function ZoneMsgs(entities: map<U32, Entity>, pid: U32, zone: Zone, order: seq<U32>): seq<Msg> {
    if order == [] then []
    else
      var rest, id := ZoneMsgs(entities, pid, zone, order[..|order| - 1]), order[|order| - 1];
      if id in entities && InZoneReply(pid, zone, entities[id]) then rest + [SpawnMsg(entities[id])] else rest
  }

  // ---- Handlers ------------------------------------------------------------

  /** GetPlayer(ENetPeer*): the id when the back-pointer leads to a player. */
  function PlayerAt(w: World, p: nat): Option<U32> {
    if p < |w.peers| && w.peers[p].data != 0 && w.peers[p].data in w.players then Some(w.peers[p].data) else None
  }

  function OnConnect(w: World, p: nat): World
    requires p < |w.peers|
  {
    var s := w.peers[p];
    if |w.players| >= SizeT(w.maxPlayers) then w.(peers := w.peers[p := Slot(Closing, s.data, [])])
    else w.(peers := w.peers[p := Slot(Open, 0, [])])
  }

  /** The first player of the traversal that is not the leaver: m_players.begin() after the erase. */
  function Heir(order: seq<U32>, leaver: U32): U32 {
    if order == [] then 0 else if order[0] != leaver then order[0] else Heir(order[1..], leaver)
  }

  function NameOf(players: map<U32, Player>, id: U32): string {
    if id in players then players[id].name else ""
  }

  /** Everything sent when player pid leaves the remaining players. */
  function Farewell(peers0: seq<Slot>, pid: U32, name: string, gone: seq<U32>, wasHost: bool,
                    players: map<U32, Player>, host: U32): seq<Slot> {
    var peers1 := Post(Post(peers0, Except(pid), DespawnMsgs(gone)), Except(pid), [PlayerLeft(pid)]);
    var peers2 := if wasHost && players != map[]
                  then Post(peers1, Everyone, [SystemMessage(NameOf(players, host) + " is now the host")])
                  else peers1;
    Post(peers2, Everyone, [SystemMessage(name + " left the game")])
  }

  function OnDisconnect(w: World, p: nat, env: Env): World
    requires p < |w.peers|
  {
    var peers0 := w.peers[p := w.peers[p].(state := Free)];
    match PlayerAt(w, p)
    case None => w.(peers := peers0[p := peers0[p].(data := 0)])
    case Some(pid) =>
      var gone := OwnedIn(w.entities, pid, env.entityOrder);
      var players := w.players - {pid};
      var host := if pid != w.host then w.host else Heir(env.playerOrder, pid);
      var peers := Farewell(peers0, pid, w.players[pid].name, gone, pid == w.host, players, host);
      w.(entities := w.entities - (set id | id in gone), players := players, host := host,
         peers := peers[p := peers[p].(data := 0)])
  }

  predicate Printable(c: char) {
    ' ' <= c <= '~'
  }

  /** Keep the printable characters among the first 31, stopping at the terminator. */
  function Filter(raw: string, n: nat): string
    requires n <= |raw|
  {
    if n == 0 then ""
    else
      var rest := Filter(raw, n - 1);
      if Printable(raw[n - 1]) then rest + [raw[n - 1]] else rest
  }

  /** Index of the terminator, the end of the buffer or 31, whichever is first. */
  function NameEnd(raw: string, i: nat): (n: nat)
    requires i <= |raw| && i <= MAX_NAME_LENGTH
    ensures i <= n <= |raw| && n <= MAX_NAME_LENGTH
    decreases |raw| - i
  {
    if i == |raw| || i == MAX_NAME_LENGTH || raw[i] == '\0' then i else NameEnd(raw, i + 1)
  }

  function Sanitize(raw: string): string {
    var s := Filter(raw, NameEnd(raw, 0));
    if s == "" then "Player" else s
  }

  const ORIGIN: Vec3 := Vec3(Num(0.0), Num(0.0), Num(0.0))

  /** Everything sent once a player is in the table. */
  function Welcome(peers0: seq<Slot>, p: nat, id: U32, name: string, players: map<U32, Player>,
                   entities: map<U32, Entity>, env: Env): seq<Slot> {
    var peers1 := Post(peers0, Only(p), [HandshakeAck(id), FactionAssignment((id + 1) % 2)]);
    var peers2 := Post(peers1, Except(id), [JoinedMsg(id, name)]);
    var peers3 := Post(peers2, Only(p), JoinedMsgs(players, id, env.playerOrder));
    var peers4 := Post(peers3, Only(p), SnapshotMsgs(players, entities, env.entityOrder));
    Post(peers4, Everyone, [SystemMessage(name + " joined the game")])
  }

  function OnHandshake(w: World, p: nat, version: U32, raw: string, env: Env): World
    requires p < |w.peers|
  {
    if w.peers[p].data != 0 then w
    else if |w.players| >= SizeT(w.maxPlayers) then
      w.(peers := Shut(Post(w.peers, Only(p), [HandshakeReject(0)]), p))
    else if version != PROTOCOL_VERSION then
      w.(peers := Shut(Post(w.peers, Only(p), [HandshakeReject(1)]), p))
    else
      var id, name := w.nextPlayerId, Sanitize(raw);
      var players := w.players[id := Player(id, name, p, ORIGIN, Zone(0, 0))];
      var peers0 := w.peers[p := w.peers[p].(data := id)];
      w.(peers := Welcome(peers0, p, id, name, players, w.entities, env),
         players := players, nextPlayerId := Inc32(id),
         host := if w.host == 0 then id else w.host)
  }

  function OnServerQuery(w: World, p: nat): World {
    w.(peers := Shut(Post(w.peers, Only(p), [ServerInfo(|w.players|)]), p))
  }

  predicate Owns(w: World, pid: U32, id: U32) {
    id in w.entities && w.entities[id].owner == pid
  }

  function Moved(e: Entity, u: PosUpdate): Entity {
    e.(position := u.position, rotation := u.rotation, zone := ZoneOf(u.position),
       animState := u.animState, moveSpeed := u.moveSpeed, flags := u.flags)
  }

  predicate Applies(w: World, pid: U32, u: PosUpdate) {
    InRange(u.position) && Owns(w, pid, u.id)
  }

  /** Every valid update of an owned entity is applied in turn. */
  function MoveEach(w: World, pid: U32, us: seq<PosUpdate>): map<U32, Entity> {
    if us == [] then w.entities
    else
      var rest, u := MoveEach(w, pid, us[..|us| - 1]), us[|us| - 1];
      if Applies(w, pid, u) && u.id in rest then rest[u.id := Moved(rest[u.id], u)] else rest
  }

  /** The first applied update also places the player. */
  function FirstApplied(w: World, pid: U32, us: seq<PosUpdate>): Option<Vec3> {
    if us == [] then None
    else
      var rest := FirstApplied(w, pid, us[..|us| - 1]);
      if rest.None? && Applies(w, pid, us[|us| - 1]) then Some(us[|us| - 1].position) else rest
  }

  function OnMove(w: World, pid: U32, us: seq<PosUpdate>): World
    requires pid in w.players
  {
    var w1 := w.(entities := MoveEach(w, pid, us));
    match FirstApplied(w, pid, us)
    case None => w1
    case Some(v) => w1.(players := w.players[pid := w.players[pid].(position := v, zone := ZoneOf(v))])
  }

  /** Ranged attacks reach 150 m, all others 15 m. */
  function Reach(attackType: nat): real {
    if attackType == 1 then 150.0 else 15.0
  }

  predicate CanAttack(w: World, pid: U32, attacker: U32, target: U32, attackType: nat) {
    && Owns(w, pid, attacker)
    && target in w.entities && w.entities[target].alive
    && !Exceeds(DistSq(w.entities[attacker].position, w.entities[target].position),
                Reach(attackType) * Reach(attackType))
  }

  function OnAttack(w: World, pid: U32, attacker: U32, target: U32, attackType: nat, dice: Combat.Dice): World {
    if !CanAttack(w, pid, attacker, target, attackType) then w
    else
      var t := w.entities[target];
      var o := Combat.Resolve(t.health, dice);
      var msgs := if o.wasDeath then [CombatDeath(target, attacker)]
                  else if o.wasKO then [CombatKO(target, attacker)] else [];
      w.(entities := w.entities[target := t.(health := o.health, alive := t.alive && !o.wasDeath)],
         peers := Post(w.peers, Everyone, msgs))
  }

  function OnBuild(w: World, pid: U32, templateId: U32, pos: Vec3, rot: U32): World {
    var id := w.nextEntityId;
    var e := Entity(id, BUILDING, pid, pos, rot, ZoneOf(pos), templateId, 0, "", FULL_HEALTH, true,
                    0, 0, 0, 0.0, NO_EQUIPMENT);
    w.(entities := w.entities[id := e], nextEntityId := Inc32(id),
       peers := Post(w.peers, Everyone, [BuildPlaced(id, templateId, pid)]))
  }

  function OnSpawn(w: World, pid: U32, r: Request): World
    requires r.Spawn? && pid in w.players
  {
    if r.kind > TURRET || |w.entities| >= MAX_SYNC_ENTITIES then w
    else
      var id := w.nextEntityId;
      var (health, alive) := match r.state case None => (FULL_HEALTH, true) case Some(s) => s;
      var e := Entity(id, r.kind, pid, r.position, r.rotation, ZoneOf(r.position), r.templateId, r.factionId,
                      r.name, health, alive, 0, 0, 0, 0.0, NO_EQUIPMENT);
      var me := w.players[pid];
      var me' := if me.zone == Zone(0, 0) then me.(position := e.position, zone := e.zone) else me;
      w.(entities := w.entities[id := e], nextEntityId := Inc32(id), players := w.players[pid := me'],
         peers := Post(w.peers, Everyone, [EntitySpawn(id, Fact(r.kind, pid, r.templateId, r.factionId, r.name, alive))]))
  }

  function OnDespawn(w: World, pid: U32, id: U32, reason: nat): World {
    if !Owns(w, pid, id) then w
    else w.(entities := w.entities - {id}, peers := Post(w.peers, Everyone, [EntityDespawn(id, reason)]))
  }

  function OnEquip(w: World, pid: U32, id: U32, slot: nat, item: U32): World {
    if !Owns(w, pid, id) || slot >= 14 then w
    else
      var e := w.entities[id];
      w.(entities := w.entities[id := e.(equipment := e.equipment[slot := item])])
  }

  function OnZoneRequest(w: World, p: nat, pid: U32, x: int, y: int, env: Env): World {
    if !(-ZONE_MAX <= x <= ZONE_MAX && -ZONE_MAX <= y <= ZONE_MAX) then w
    else w.(peers := Post(w.peers, Only(p), ZoneMsgs(w.entities, pid, Zone(x, y), env.entityOrder)))
  }

  function OnCreateSquad(w: World, pid: U32, creator: U32): World {
    if !Owns(w, pid, creator) then w
    else w.(nextSquadId := Inc32(w.nextSquadId),
            peers := Post(w.peers, Everyone, [SquadCreated(creator, w.nextSquadId)]))
  }

  /** The owner or the host may dismantle; the entity's type is not consulted. */
  function OnDismantle(w: World, pid: U32, id: U32): World {
    if id !in w.entities || (w.entities[id].owner != pid && pid != w.host) then w
    else w.(entities := w.entities - {id}, peers := Post(w.peers, Everyone, [BuildDestroyed(id)]))
  }

  function Clamp01(x: real): real {
    if x < 0.0 then 0.0 else if x > 1.0 then 1.0 else x
  }

  function OnRepair(w: World, pid: U32, id: U32, amount: Float): World {
    if id !in w.entities || (w.entities[id].owner != pid && pid != w.host) then w
    else if !(amount.Num? && 0.0 < amount.v <= 1.0) then w
    else
      var e := w.entities[id];
      w.(entities := w.entities[id := e.(buildProgress := Clamp01(e.buildProgress + amount.v))])
  }

  /** The reported chest health is stored at health[0], which is the head. */
  function OnReportKO(w: World, pid: U32, id: U32, chestHealth: real): World {
    if !Owns(w, pid, id) then w
    else
      var e := w.entities[id];
      w.(entities := w.entities[id := e.(health := e.health[0 := chestHealth])])
  }

  function OnReportDeath(w: World, pid: U32, id: U32, killer: U32): World {
    if !Owns(w, pid, id) then w
    else w.(entities := w.entities[id := w.entities[id].(alive := false)],
            peers := Post(w.peers, Everyone, [CombatDeath(id, killer)]))
  }

  function OnAdminKick(w: World, p: nat, pid: U32, target: U32, reason: string): World {
    if pid != w.host then w.(peers := Post(w.peers, Only(p), [AdminResponse(false)]))
    else if target in w.players && target != w.host then
      var q := w.players[target].peer;
      var peers1 := Post(w.peers, Everyone, [SystemMessage(w.players[target].name + " was kicked: " + reason)]);
      var peers2 := Shut(Post(peers1, Only(q), [HandshakeReject(2)]), q);
      w.(peers := Post(peers2, Only(p), [AdminResponse(true)]))
    else w.(peers := Post(w.peers, Only(p), [AdminResponse(true)]))
  }

  function OnConsoleKick(w: World, id: U32, reason: string): World {
    if id !in w.players then w
    else w.(peers := Shut(Post(w.peers, Everyone, [SystemMessage(w.players[id].name + " was kicked: " + reason)]),
                          w.players[id].peer))
  }

  /** HandlePacket: everything but handshake, query and leave needs a player. */
  function OnPacket(w: World, p: nat, r: Request, env: Env): World
    requires p < |w.peers|
  {
    match r
    case Handshake(version, raw) => OnHandshake(w, p, version, raw, env)
    case ServerQuery => OnServerQuery(w, p)
    case Leave => w.(peers := Shut(w.peers, p))
    case _ =>
      match PlayerAt(w, p)
      case None => w
      case Some(pid) => OnPlayerRequest(w, p, pid, r, env)
  }

  function OnPlayerRequest(w: World, p: nat, pid: U32, r: Request, env: Env): World
    requires pid in w.players
  {
    match r
    case Move(us) => OnMove(w, pid, us)
    case Attack(a, t, k) => OnAttack(w, pid, a, t, k, env.dice)
    case Build(t, pos, rot) => OnBuild(w, pid, t, pos, rot)
    case Spawn(_, _, _, _, _, _, _) => OnSpawn(w, pid, r)
    case Despawn(id, reason) => OnDespawn(w, pid, id, reason)
    case Equip(id, s, item) => OnEquip(w, pid, id, s, item)
    case ZoneRequest(x, y) => OnZoneRequest(w, p, pid, x, y, env)
    case CreateSquad(c) => OnCreateSquad(w, pid, c)
    case Dismantle(id) => OnDismantle(w, pid, id)
    case Repair(id, amount) => OnRepair(w, pid, id, amount)
    case ReportKO(id, _, h) => OnReportKO(w, pid, id, h)
    case ReportDeath(id, killer) => OnReportDeath(w, pid, id, killer)
    case AdminKick(target, reason) => OnAdminKick(w, p, pid, target, reason)
    case _ => w
  }

  // ---- Runs ----------------------------------------------------------------

  /** What ENet and the hash maps guarantee of the next event: slots cycle
      through CONNECT, RECEIVE..., DISCONNECT, and a traversal visits every
      key once. Nothing is assumed of what clients send. */
  ghost predicate Lawful(w: World, e: Event) {
    match e
    case Connect(p) => p < |w.peers| && w.peers[p].state.Free?
    case Disconnect(p, env) => p < |w.peers| && !w.peers[p].state.Free? && EnvOk(w, env)
    case Packet(p, _, env) => p < |w.peers| && !w.peers[p].state.Free? && EnvOk(w, env)
    case ConsoleKick(_, _) => true
  }

  ghost predicate EnvOk(w: World, env: Env) {
    && Enumerates(env.entityOrder, w.entities.Keys)
    && Enumerates(env.playerOrder, w.players.Keys)
    && Combat.DiceOk(env.dice)
  }

  ghost function Step(w: World, e: Event): World
    requires Lawful(w, e)
  {
    match e
    case Connect(p) => OnConnect(w, p)
    case Disconnect(p, env) => OnDisconnect(w, p, env)
    case Packet(p, r, env) => OnPacket(w, p, r, env)
    case ConsoleKick(id, reason) => OnConsoleKick(w, id, reason)
  }

  /** ws is the sequence of states a run passes through. */
  ghost predicate Run(ws: seq<World>, es: seq<Event>) {
    && |ws| == |es| + 1
    && (forall i :: 0 <= i < |es| ==> Lawful(ws[i], es[i]) && ws[i + 1] == Step(ws[i], es[i]))
  }
}
