/** What each request does, told from its input: the entities, players, counters
    and messages afterwards, without reference to the functions that compute them. */
module HandlerEffects {
  import opened Base
  import opened Session
  import Combat

  // ---- Who is told ---------------------------------------------------------------

  /** Every reachable slot gets ms, and nothing else about the slots changes. */
  ghost predicate AllTold(before: seq<Slot>, after: seq<Slot>, ms: seq<Msg>) {
    && |after| == |before|
    && forall k :: 0 <= k < |before| ==>
      after[k] == if before[k].state.Open? then Slot(Open, before[k].data, before[k].log + ms) else before[k]
  }

  /** Slot p alone gets ms, if it is reachable. */
  ghost predicate OneTold(before: seq<Slot>, after: seq<Slot>, p: nat, ms: seq<Msg>) {
    && |after| == |before|
    && forall k :: 0 <= k < |before| ==>
      after[k] == if k == p && before[k].state.Open? then Slot(Open, before[k].data, before[k].log + ms) else before[k]
  }

  /** Zone z is the 750 m square that holds v; the origin's for coordinates that are
      not finite. */
  ghost predicate InSquare(v: Vec3, z: Zone) {
    if v.x.Num? && v.z.Num? then
      && 750.0 * (z.x as real) <= v.x.v < 750.0 * (z.x as real) + 750.0
      && 750.0 * (z.y as real) <= v.z.v < 750.0 * (z.y as real) + 750.0
    else z.x == 0 && z.y == 0
  }

  lemma ZoneIsSquare(v: Vec3)
    ensures InSquare(v, ZoneOf(v))
  {
    if v.x.Num? && v.z.Num? {
      FloorSquare(v.x.v);
      FloorSquare(v.z.v);
    }
  }

  lemma FloorSquare(x: real)
    ensures 750.0 * ((x / 750.0).Floor as real) <= x < 750.0 * ((x / 750.0).Floor as real) + 750.0
  {
    var q := x / 750.0;
    assert q * 750.0 == x;
    assert q.Floor as real <= q < q.Floor as real + 1.0;
  }

  // ---- Movement --------------------------------------------------------------------

  /** Three numbers of at most a million metres. */
  ghost predicate OnMap(v: Vec3) {
    && v.x.Num? && v.y.Num? && v.z.Num?
    && -1000000.0 <= v.x.v <= 1000000.0 && -1000000.0 <= v.y.v <= 1000000.0 && -1000000.0 <= v.z.v <= 1000000.0
  }

  lemma OnMapIsInRange()
    ensures forall v :: OnMap(v) <==> InRange(v)
  {
  }

  /** Update k is about entity id and carries usable coordinates. */
  ghost predicate Usable(us: seq<PosUpdate>, k: int, id: U32) {
    0 <= k < |us| && us[k].id == id && OnMap(us[k].position)
  }

  ghost predicate LastUsable(us: seq<PosUpdate>, k: int, id: U32) {
    Usable(us, k, id) && forall j :: k < j < |us| ==> !Usable(us, j, id)
  }

  /** e' is e at the place and in the pose that u reports. */
  ghost predicate At(e: Entity, e': Entity, u: PosUpdate) {
    && e'.position == u.position && e'.rotation == u.rotation
    && e'.animState == u.animState && e'.moveSpeed == u.moveSpeed && e'.flags == u.flags
    && InSquare(u.position, e'.zone)
    && e'.(position := e.position, rotation := e.rotation, animState := e.animState, moveSpeed := e.moveSpeed,
           flags := e.flags, zone := e.zone) == e
  }

  /** Update k moves an entity of player pid. */
  ghost predicate Effective(w: World, pid: U32, us: seq<PosUpdate>, k: int) {
    && 0 <= k < |us| && us[k].id in w.entities && w.entities[us[k].id].owner == pid && OnMap(us[k].position)
  }

  ghost predicate FirstEffective(w: World, pid: U32, us: seq<PosUpdate>, k: int) {
    Effective(w, pid, us, k) && forall j :: 0 <= j < k ==> !Effective(w, pid, us, j)
  }

  /** me' is player me, placed at v. */
  ghost predicate Placed(me: Player, me': Player, v: Vec3) {
    me'.position == v && InSquare(v, me'.zone) && me'.(position := me.position, zone := me.zone) == me
  }

  lemma {:induction false} MovedEntity(w: World, pid: U32, us: seq<PosUpdate>, id: U32)
    requires id in w.entities
    ensures var e, es := w.entities[id], MoveEach(w, pid, us);
      && es.Keys == w.entities.Keys
      && (e.owner == pid ==> forall k :: LastUsable(us, k, id) ==> At(e, es[id], us[k]))
      && (e.owner != pid || (forall k :: !Usable(us, k, id)) ==> es[id] == e)
  {
    hide InRange, OnMap, InSquare, ZoneOf;
    OnMapIsInRange();
    if us != [] {
      var front, n := us[..|us| - 1], |us| - 1;
      MovedEntity(w, pid, front, id);
      FrontUsable(us, id);
      ZoneIsSquare(us[n].position);
      var e, e', e0 := w.entities[id], MoveEach(w, pid, us)[id], MoveEach(w, pid, front)[id];
      if e.owner == pid {
        forall k | LastUsable(us, k, id) ensures At(e, e', us[k]) {
          if k < n {
            assert !Usable(us, n, id);
            FrontLastUsable(us, k, id);
          } else if exists j :: Usable(front, j, id) {
            var j := GreatestUsable(front, n, id);
            assert At(e, e0, front[j]);
          }
        }
      }
      if forall k :: !Usable(us, k, id) {
        assert !Usable(us, n, id);
        NoneInFront(front, us, id);
      }
    }
  }

  lemma MovedEntities(w: World, pid: U32, us: seq<PosUpdate>)
    ensures var es := MoveEach(w, pid, us);
      && es.Keys == w.entities.Keys
      && (forall id, k :: id in w.entities && w.entities[id].owner == pid && LastUsable(us, k, id) ==>
            At(w.entities[id], es[id], us[k]))
      && (forall id :: id in w.entities && (w.entities[id].owner != pid || forall k :: !Usable(us, k, id)) ==>
            es[id] == w.entities[id])
  {
    hide MoveEach, At, OnMap;
    MovedKeys(w, pid, us);
    forall id | id in w.entities
      ensures var e, es := w.entities[id], MoveEach(w, pid, us);
        && (e.owner == pid ==> forall k :: LastUsable(us, k, id) ==> At(e, es[id], us[k]))
        && (e.owner != pid || (forall k :: !Usable(us, k, id)) ==> es[id] == e)
    {
      MovedEntity(w, pid, us, id);
    }
  }

  lemma {:induction false} MovedKeys(w: World, pid: U32, us: seq<PosUpdate>)
    ensures MoveEach(w, pid, us).Keys == w.entities.Keys
  {
    if us != [] {
      MovedKeys(w, pid, us[..|us| - 1]);
    }
  }

  lemma FrontLastUsable(us: seq<PosUpdate>, k: int, id: U32)
    requires LastUsable(us, k, id) && 0 <= k < |us| - 1
    ensures LastUsable(us[..|us| - 1], k, id)
  {
    hide Usable;
    var front := us[..|us| - 1];
    FrontUsable(us, id);
    assert Usable(front, k, id);
    forall j | k < j < |front| ensures !Usable(front, j, id) {
      assert Usable(front, j, id) ==> Usable(us, j, id);
    }
  }

  lemma FrontUsable(us: seq<PosUpdate>, id: U32)
    requires us != []
    ensures forall j :: Usable(us[..|us| - 1], j, id) <==> j < |us| - 1 && Usable(us, j, id)
  {
    hide OnMap;
    forall j ensures Usable(us[..|us| - 1], j, id) <==> j < |us| - 1 && Usable(us, j, id) {
      if 0 <= j < |us| - 1 {
        assert us[..|us| - 1][j] == us[j];
      }
    }
  }

  lemma NoneInFront(front: seq<PosUpdate>, us: seq<PosUpdate>, id: U32)
    requires us != [] && front == us[..|us| - 1] && forall k :: !Usable(us, k, id)
    ensures forall k :: !Usable(front, k, id)
  {
    hide Usable;
    FrontUsable(us, id);
    forall k ensures !Usable(front, k, id) {
      assert Usable(front, k, id) ==> Usable(us, k, id);
    }
  }

  lemma {:induction false} GreatestUsable(us: seq<PosUpdate>, n: nat, id: U32) returns (k: int)
    requires n <= |us| && exists j :: 0 <= j < n && Usable(us, j, id)
    ensures Usable(us, k, id) && k < n && forall j :: k < j < n ==> !Usable(us, j, id)
  {
    hide Usable;
    if Usable(us, n - 1, id) {
      k := n - 1;
    } else {
      k := GreatestUsable(us, n - 1, id);
    }
  }

  lemma {:induction false} FirstPlace(w: World, pid: U32, us: seq<PosUpdate>)
    ensures forall k :: FirstEffective(w, pid, us, k) ==> FirstApplied(w, pid, us) == Some(us[k].position)
    ensures (forall k :: !Effective(w, pid, us, k)) ==> FirstApplied(w, pid, us) == None
    ensures FirstApplied(w, pid, us).Some? ==> exists k :: FirstEffective(w, pid, us, k)
  {
    hide InRange, OnMap;
    OnMapIsInRange();
    if us != [] {
      var front, n := us[..|us| - 1], |us| - 1;
      FirstPlace(w, pid, front);
      assert forall k :: k < n ==> (Effective(w, pid, us, k) <==> Effective(w, pid, front, k));
      forall k | FirstEffective(w, pid, us, k) ensures FirstApplied(w, pid, us) == Some(us[k].position) {
        if k < n {
          assert FirstEffective(w, pid, front, k);
        } else {
          assert forall j :: !Effective(w, pid, front, j);
        }
      }
      if FirstApplied(w, pid, front).Some? {
        var k :| FirstEffective(w, pid, front, k);
        assert FirstEffective(w, pid, us, k);
      } else if FirstApplied(w, pid, us).Some? {
        NoneEffective(w, pid, front);
        assert FirstEffective(w, pid, us, n);
      }
    }
  }

  lemma {:induction false} NoneEffective(w: World, pid: U32, us: seq<PosUpdate>)
    requires FirstApplied(w, pid, us) == None
    ensures forall k :: !Effective(w, pid, us, k)
  {
    hide InRange, OnMap;
    OnMapIsInRange();
    if us != [] {
      var front := us[..|us| - 1];
      NoneEffective(w, pid, front);
      assert forall k :: k < |front| ==> (Effective(w, pid, us, k) <==> Effective(w, pid, front, k));
    }
  }

  /** A position update leaves each entity of its sender at the last usable report
      about it, and every other entity as it was; the player stands where the first
      effective report says. */
  ghost predicate Repositioned(w: World, w': World, pid: U32, us: seq<PosUpdate>)
    requires pid in w.players
  {
    && w'.(entities := w.entities, players := w.players) == w
    && w'.entities.Keys == w.entities.Keys
    && (forall id, k :: id in w.entities && w.entities[id].owner == pid && LastUsable(us, k, id) ==>
          At(w.entities[id], w'.entities[id], us[k]))
    && (forall id :: id in w.entities && (w.entities[id].owner != pid || forall k :: !Usable(us, k, id)) ==>
          w'.entities[id] == w.entities[id])
    && w'.players.Keys == w.players.Keys
    && (forall q :: q in w.players && q != pid ==> w'.players[q] == w.players[q])
    && (forall k :: FirstEffective(w, pid, us, k) ==> Placed(w.players[pid], w'.players[pid], us[k].position))
    && ((forall k :: !Effective(w, pid, us, k)) ==> w'.players == w.players)
  }

  lemma MoveFrame(w: World, pid: U32, us: seq<PosUpdate>)
    requires pid in w.players
    ensures var w' := OnMove(w, pid, us);
      && w'.entities == MoveEach(w, pid, us) && w'.(entities := w.entities, players := w.players) == w
      && w'.players.Keys == w.players.Keys
      && (forall q :: q in w.players && q != pid ==> w'.players[q] == w.players[q])
      && match FirstApplied(w, pid, us)
         case None => w'.players == w.players
         case Some(v) => Placed(w.players[pid], w'.players[pid], v)
  {
    hide MoveEach, FirstApplied, InSquare, ZoneOf;
    if FirstApplied(w, pid, us).Some? {
      ZoneIsSquare(FirstApplied(w, pid, us).value);
    }
  }

  lemma OnMoveExact(w: World, pid: U32, us: seq<PosUpdate>)
    requires pid in w.players
    ensures Repositioned(w, OnMove(w, pid, us), pid, us)
  {
    hide OnMove, MoveEach, FirstApplied, OnMap, At, Placed, Effective;
    MovedEntities(w, pid, us);
    FirstPlace(w, pid, us);
    MoveFrame(w, pid, us);
  }

  lemma MoveExact(w: World, p: nat, us: seq<PosUpdate>, env: Env)
    requires p < |w.peers| && PlayerAt(w, p).Some?
    ensures Repositioned(w, OnPacket(w, p, Move(us), env), PlayerAt(w, p).value, us)
  {
    hide OnMove, Repositioned;
    OnMoveExact(w, PlayerAt(w, p).value, us);
  }

  // ---- Attacks -------------------------------------------------------------------------

  /** The difference of two coordinates is not a number. */
  ghost predicate Undefined(a: Float, b: Float) {
    a.NaN? || b.NaN? || (a == b && !a.Num?)
  }

  /** Melee reaches 15 m and ranged 150 m between finite places; an infinite distance
      is out of reach, and one that is not a number is not refused. */
  ghost predicate WithinReach(a: Vec3, b: Vec3, attackType: nat) {
    if Undefined(a.x, b.x) || Undefined(a.y, b.y) || Undefined(a.z, b.z) then true
    else if a.x.Num? && a.y.Num? && a.z.Num? && b.x.Num? && b.y.Num? && b.z.Num? then
      var dx, dy, dz := a.x.v - b.x.v, a.y.v - b.y.v, a.z.v - b.z.v;
      dx * dx + dy * dy + dz * dz <= if attackType == 1 then 22500.0 else 225.0
    else false
  }

  lemma ReachIs(w: World, pid: U32, attacker: U32, target: U32, attackType: nat)
    requires attacker in w.entities && target in w.entities
    ensures CanAttack(w, pid, attacker, target, attackType) <==>
      && w.entities[attacker].owner == pid && w.entities[target].alive
      && WithinReach(w.entities[attacker].position, w.entities[target].position, attackType)
  {
    assert 150.0 * 150.0 == 22500.0 && 15.0 * 15.0 == 225.0;
  }

  /** The attack is its sender's, on something alive, and within reach. */
  ghost predicate MayStrike(w: World, pid: U32, attacker: U32, target: U32, attackType: nat) {
    && attacker in w.entities && w.entities[attacker].owner == pid
    && target in w.entities && w.entities[target].alive
    && WithinReach(w.entities[attacker].position, w.entities[target].position, attackType)
  }

  /** An attack that may strike takes one blow's damage from the target, which dies at
      -100 on head or chest, and everyone hears of a death, else of a knock-out, else
      nothing. Any other attack does nothing. */
  ghost predicate Struck(w: World, w': World, pid: U32, attacker: U32, target: U32, attackType: nat, dice: Combat.Dice) {
    if MayStrike(w, pid, attacker, target, attackType) then
      var t := w.entities[target];
      var h := Combat.Resolve(t.health, dice).health;
      var fatal := h[0] <= -100.0 || h[1] <= -100.0;
      && h != t.health
      && w'.(entities := w.entities, peers := w.peers) == w
      && w'.entities == w.entities[target := t.(health := h, alive := !fatal)]
      && AllTold(w.peers, w'.peers, if fatal then [CombatDeath(target, attacker)]
                                    else if exists i :: 0 <= i < 7 && h[i] <= -50.0 then [CombatKO(target, attacker)]
                                    else [])
    else w' == w
  }

  lemma OnAttackExact(w: World, pid: U32, attacker: U32, target: U32, attackType: nat, dice: Combat.Dice)
    requires Combat.DiceOk(dice)
    ensures Struck(w, OnAttack(w, pid, attacker, target, attackType, dice), pid, attacker, target, attackType, dice)
  {
    hide Combat.Resolve, WithinReach;
    if attacker in w.entities && target in w.entities {
      ReachIs(w, pid, attacker, target, attackType);
      Combat.BlowExact(w.entities[target].health, dice);
    }
  }

  /** An attack changes the target's health if and only if it may strike. */
  lemma AttackExact(w: World, p: nat, attacker: U32, target: U32, attackType: nat, env: Env)
    requires p < |w.peers| && PlayerAt(w, p).Some? && Combat.DiceOk(env.dice)
    ensures var pid, w' := PlayerAt(w, p).value, OnPacket(w, p, Attack(attacker, target, attackType), env);
      && Struck(w, w', pid, attacker, target, attackType, env.dice)
      && (target in w.entities ==>
            (target in w'.entities
             && (w'.entities[target].health != w.entities[target].health <==> MayStrike(w, pid, attacker, target, attackType))))
  {
    hide OnAttack, MayStrike, Combat.Resolve;
    OnAttackExact(w, PlayerAt(w, p).value, attacker, target, attackType, env.dice);
  }

  /** Between finite places the reach is 150 m for ranged attacks, type 1, and 15 m
      otherwise. */
  lemma AttackRange(w: World, p: nat, attacker: U32, target: U32, attackType: nat, env: Env)
    requires p < |w.peers| && PlayerAt(w, p).Some? && Combat.DiceOk(env.dice)
    requires attacker in w.entities && w.entities[attacker].owner == PlayerAt(w, p).value
    requires target in w.entities && w.entities[target].alive
    requires var a, b := w.entities[attacker].position, w.entities[target].position;
      a.x.Num? && a.y.Num? && a.z.Num? && b.x.Num? && b.y.Num? && b.z.Num?
    ensures var a, b := w.entities[attacker].position, w.entities[target].position;
      var dx, dy, dz := a.x.v - b.x.v, a.y.v - b.y.v, a.z.v - b.z.v;
      var w' := OnPacket(w, p, Attack(attacker, target, attackType), env);
      target in w'.entities &&
      (w'.entities[target].health != w.entities[target].health <==>
         dx * dx + dy * dy + dz * dz <= if attackType == 1 then 22500.0 else 225.0)
  {
    hide OnPacket, Struck;
    AttackExact(w, p, attacker, target, attackType, env);
  }

  // ---- Placing and removing --------------------------------------------------------------

  /** A spawn of a known type in a world below 2048 entities stores exactly what was
      sent under the next id, for its sender, in full health unless told otherwise;
      it places a sender that stands nowhere yet; and everyone is told. */
  lemma SpawnExact(w: World, p: nat, r: Request, env: Env)
    requires p < |w.peers| && PlayerAt(w, p).Some? && r.Spawn?
    ensures var pid, w' := PlayerAt(w, p).value, OnPacket(w, p, r, env);
      if r.kind > 6 || |w.entities| >= 2048 then w' == w
      else
        var id := w.nextEntityId;
        var health := if r.state.Some? then r.state.value.0 else [100.0, 100.0, 100.0, 100.0, 100.0, 100.0, 100.0];
        var alive := if r.state.Some? then r.state.value.1 else true;
        && w'.(entities := w.entities, players := w.players, peers := w.peers, nextEntityId := id) == w
        && w'.nextEntityId == (if id == 0xFFFF_FFFF then 0 else id + 1)
        && id in w'.entities && InSquare(r.position, w'.entities[id].zone)
        && w'.entities == w.entities[id := Entity(id, r.kind, pid, r.position, r.rotation, w'.entities[id].zone,
             r.templateId, r.factionId, r.name, health, alive, 0, 0, 0, 0.0, w'.entities[id].equipment)]
        && (forall k :: 0 <= k < 14 ==> w'.entities[id].equipment[k] == 0)
        && w'.players.Keys == w.players.Keys && (forall q :: q in w.players && q != pid ==> w'.players[q] == w.players[q])
        && (if w.players[pid].zone == Zone(0, 0) then Placed(w.players[pid], w'.players[pid], r.position)
            else w'.players[pid] == w.players[pid])
        && AllTold(w.peers, w'.peers,
             [EntitySpawn(id, Fact(r.kind, pid, r.templateId, r.factionId, r.name, alive))])
  {
    hide InSquare, ZoneOf;
    ZoneIsSquare(r.position);
  }

  /** A building is stored under the next id, for its sender, in full health and
      without progress, whatever its place and the number of entities. */
  lemma BuildExact(w: World, p: nat, templateId: U32, position: Vec3, rotation: U32, env: Env)
    requires p < |w.peers| && PlayerAt(w, p).Some?
    ensures var pid, w' := PlayerAt(w, p).value, OnPacket(w, p, Build(templateId, position, rotation), env);
      var id := w.nextEntityId;
      && w'.(entities := w.entities, peers := w.peers, nextEntityId := id) == w
      && w'.nextEntityId == (if id == 0xFFFF_FFFF then 0 else id + 1)
      && id in w'.entities && InSquare(position, w'.entities[id].zone)
      && w'.entities == w.entities[id := Entity(id, 3, pid, position, rotation, w'.entities[id].zone, templateId, 0, "",
           [100.0, 100.0, 100.0, 100.0, 100.0, 100.0, 100.0], true, 0, 0, 0, 0.0, w'.entities[id].equipment)]
      && (forall k :: 0 <= k < 14 ==> w'.entities[id].equipment[k] == 0)
      && AllTold(w.peers, w'.peers, [BuildPlaced(id, templateId, pid)])
  {
    hide InSquare, ZoneOf;
    ZoneIsSquare(position);
  }

  /** An owner's despawn removes that entity and nothing else, and everyone is told;
      anyone else's does nothing. */
  lemma DespawnExact(w: World, p: nat, id: U32, reason: nat, env: Env)
    requires p < |w.peers| && PlayerAt(w, p).Some?
    ensures var w' := OnPacket(w, p, Despawn(id, reason), env);
      if id in w.entities && w.entities[id].owner == PlayerAt(w, p).value then
        && w'.(entities := w.entities, peers := w.peers) == w
        && id !in w'.entities && w'.entities.Keys == w.entities.Keys - {id}
        && (forall x :: x in w.entities && x != id ==> w'.entities[x] == w.entities[x])
        && AllTold(w.peers, w'.peers, [EntityDespawn(id, reason)])
      else w' == w
  {
  }

  /** Dismantling works for the owner and for the host, and for nobody else. */
  lemma DismantleExact(w: World, p: nat, id: U32, env: Env)
    requires p < |w.peers| && PlayerAt(w, p).Some?
    ensures var pid, w' := PlayerAt(w, p).value, OnPacket(w, p, Dismantle(id), env);
      if id in w.entities && (w.entities[id].owner == pid || w.host == pid) then
        && w'.(entities := w.entities, peers := w.peers) == w
        && id !in w'.entities && w'.entities.Keys == w.entities.Keys - {id}
        && (forall x :: x in w.entities && x != id ==> w'.entities[x] == w.entities[x])
        && AllTold(w.peers, w'.peers, [BuildDestroyed(id)])
      else w' == w
  {
  }

  /** An owner's death report clears that entity's alive flag and no other field, and
      everyone is told, whether or not it was alive. */
  lemma DeathReportExact(w: World, p: nat, id: U32, killer: U32, env: Env)
    requires p < |w.peers| && PlayerAt(w, p).Some?
    ensures var w' := OnPacket(w, p, ReportDeath(id, killer), env);
      if id in w.entities && w.entities[id].owner == PlayerAt(w, p).value then
        && w'.(entities := w.entities, peers := w.peers) == w
        && w'.entities.Keys == w.entities.Keys && !w'.entities[id].alive
        && w'.entities[id].(alive := w.entities[id].alive) == w.entities[id]
        && (forall x :: x in w.entities && x != id ==> w'.entities[x] == w.entities[x])
        && AllTold(w.peers, w'.peers, [CombatDeath(id, killer)])
      else w' == w
  {
  }

  /** An owner's knock-out report overwrites health value 0 and nothing else. */
  lemma KnockOutReportExact(w: World, p: nat, id: U32, attacker: U32, chestHealth: real, env: Env)
    requires p < |w.peers| && PlayerAt(w, p).Some?
    ensures var w' := OnPacket(w, p, ReportKO(id, attacker, chestHealth), env);
      if id in w.entities && w.entities[id].owner == PlayerAt(w, p).value then
        && w'.(entities := w.entities) == w && w'.entities.Keys == w.entities.Keys
        && (forall x :: x in w.entities && x != id ==> w'.entities[x] == w.entities[x])
        && w'.entities[id].(health := w.entities[id].health) == w.entities[id]
        && w'.entities[id].health[0] == chestHealth
        && (forall k :: 1 <= k < 7 ==> w'.entities[id].health[k] == w.entities[id].health[k])
      else w' == w
  {
  }

  /** The owner of the creator gets the next squad id announced to everyone. */
  lemma SquadExact(w: World, p: nat, creator: U32, env: Env)
    requires p < |w.peers| && PlayerAt(w, p).Some?
    ensures var w' := OnPacket(w, p, CreateSquad(creator), env);
      if creator in w.entities && w.entities[creator].owner == PlayerAt(w, p).value then
        && w'.(peers := w.peers, nextSquadId := w.nextSquadId) == w
        && w'.nextSquadId == (if w.nextSquadId == 0xFFFF_FFFF then 0 else w.nextSquadId + 1)
        && AllTold(w.peers, w'.peers, [SquadCreated(creator, w.nextSquadId)])
      else w' == w
  {
  }

  // ---- Zone replies ------------------------------------------------------------------------

  /** The entity at place i of the walk is not the asker's and lies in the asked zone
      or one of the eight around it. */
  ghost predicate Answered(entities: map<U32, Entity>, pid: U32, x: int, y: int, order: seq<U32>, i: int) {
    && 0 <= i < |order| && order[i] in entities && entities[order[i]].owner != pid
    && x - 1 <= entities[order[i]].zone.x <= x + 1 && y - 1 <= entities[order[i]].zone.y <= y + 1
  }

  /** What a spawn message about e says. */
  ghost predicate Describes(m: Msg, e: Entity) {
    && m.EntitySpawn? && m.id == e.id
    && m.fact.kind == e.kind && m.fact.owner == e.owner && m.fact.templateId == e.templateId
    && m.fact.factionId == e.factionId && m.fact.alive == e.alive
    && m.fact.name <= e.templateName && |m.fact.name| == Min(|e.templateName|, 255)
  }

  lemma MsgDescribes(e: Entity)
    ensures Describes(SpawnMsg(e), e)
  {
  }

  lemma AnsweredIs(entities: map<U32, Entity>, pid: U32, x: int, y: int, order: seq<U32>, i: nat)
    requires i < |order|
    ensures Answered(entities, pid, x, y, order, i) <==>
      order[i] in entities && InZoneReply(pid, Zone(x, y), entities[order[i]])
  {
  }

  lemma {:induction false} ReplyInOrder(entities: map<U32, Entity>, pid: U32, x: int, y: int, order: seq<U32>)
    returns (at: seq<int>)
    ensures forall j, k :: 0 <= j < k < |at| ==> at[j] < at[k]
    ensures forall i :: i in at <==> Answered(entities, pid, x, y, order, i)
    ensures var ms := ZoneMsgs(entities, pid, Zone(x, y), order);
      |ms| == |at| && forall j :: 0 <= j < |at| ==>
        Answered(entities, pid, x, y, order, at[j]) && Describes(ms[j], entities[order[at[j]]])
  {
    hide Describes, SpawnMsg, InZoneReply;
    if order == [] {
      at := [];
    } else {
      var n := |order| - 1;
      AnsweredIs(entities, pid, x, y, order, n);
      var front := order[..n];
      at := ReplyInOrder(entities, pid, x, y, front);
      assert forall i :: i < n ==> (Answered(entities, pid, x, y, order, i) <==> Answered(entities, pid, x, y, front, i));
      assert forall j :: 0 <= j < |at| ==> at[j] in at && front[at[j]] == order[at[j]];
      if Answered(entities, pid, x, y, order, n) {
        MsgDescribes(entities[order[n]]);
        at := at + [n];
      }
    }
  }

  /** A zone request within 500 zones of the origin is answered, to its sender alone,
      with the foreign entities of the nine zones around it, each once, in walking
      order; any other request is ignored. */
  lemma ZoneReplyExact(w: World, p: nat, x: int, y: int, env: Env) returns (at: seq<int>)
    requires p < |w.peers| && PlayerAt(w, p).Some?
    ensures forall j, k :: 0 <= j < k < |at| ==> at[j] < at[k]
    ensures forall i :: i in at <==> Answered(w.entities, PlayerAt(w, p).value, x, y, env.entityOrder, i)
    ensures var w' := OnPacket(w, p, ZoneRequest(x, y), env);
      if -500 <= x <= 500 && -500 <= y <= 500 then
        && w'.(peers := w.peers) == w
        && exists ms :: OneTold(w.peers, w'.peers, p, ms) && |ms| == |at|
             && forall j :: 0 <= j < |at| ==>
                  && Answered(w.entities, PlayerAt(w, p).value, x, y, env.entityOrder, at[j])
                  && Describes(ms[j], w.entities[env.entityOrder[at[j]]])
      else w' == w
  {
    hide ZoneMsgs, Describes;
    at := ReplyInOrder(w.entities, PlayerAt(w, p).value, x, y, env.entityOrder);
    var ms := ZoneMsgs(w.entities, PlayerAt(w, p).value, Zone(x, y), env.entityOrder);
    if -500 <= x <= 500 && -500 <= y <= 500 {
      assert OneTold(w.peers, OnPacket(w, p, ZoneRequest(x, y), env).peers, p, ms);
    }
  }

  // ---- Coming and going --------------------------------------------------------------------

  /** Position i of the raw name is kept: among the first 31, before any terminator,
      and printable. */
  ghost predicate KeptChar(raw: string, i: int) {
    0 <= i < |raw| && i < 31 && ' ' <= raw[i] <= '~' && forall j :: 0 <= j < i ==> raw[j] != '\0'
  }

  /** `at` lists the kept positions in order. */
  ghost predicate Keeps(raw: string, at: seq<int>) {
    && (forall j, k :: 0 <= j < k < |at| ==> at[j] < at[k])
    && (forall i :: i in at <==> KeptChar(raw, i))
  }

  /** The name consists of the characters at those positions, or is "Player" when there
      are none. */
  ghost predicate Spells(raw: string, at: seq<int>, name: string) {
    if at == [] then name == "Player"
    else |name| == |at| && forall j :: 0 <= j < |at| ==> 0 <= at[j] < |raw| && name[j] == raw[at[j]]
  }

  lemma {:induction false} FilterInOrder(raw: string, n: nat) returns (at: seq<int>)
    requires n <= |raw|
    ensures forall j, k :: 0 <= j < k < |at| ==> at[j] < at[k]
    ensures forall i :: i in at <==> 0 <= i < n && ' ' <= raw[i] <= '~'
    ensures |Filter(raw, n)| == |at| && forall j :: 0 <= j < |at| ==> 0 <= at[j] < n && Filter(raw, n)[j] == raw[at[j]]
  {
    if n == 0 {
      at := [];
    } else {
      at := FilterInOrder(raw, n - 1);
      if ' ' <= raw[n - 1] <= '~' {
        at := at + [n - 1];
      }
    }
  }

  lemma {:induction false} NameEndIs(raw: string, i: nat)
    requires i <= |raw| && i <= MAX_NAME_LENGTH
    ensures var n := NameEnd(raw, i);
      (forall j :: i <= j < n ==> raw[j] != '\0') && (n == |raw| || n == 31 || raw[n] == '\0')
    decreases |raw| - i
  {
    if !(i == |raw| || i == MAX_NAME_LENGTH || raw[i] == '\0') {
      NameEndIs(raw, i + 1);
    }
  }

  /** The sanitized name is the kept characters, in order; "Player" when there are none. */
  lemma NameExact(raw: string) returns (at: seq<int>)
    ensures Keeps(raw, at) && Spells(raw, at, Sanitize(raw))
  {
    NameEndIs(raw, 0);
    var n := NameEnd(raw, 0);
    at := FilterInOrder(raw, n);
    forall i ensures i in at <==> KeptChar(raw, i) {
      assert KeptChar(raw, i) ==> i < n;
    }
  }

  /** A handshake on a slot that has a player is ignored; a full server and then a
      wrong version are refused, with their code, and the slot starts closing;
      otherwise the next player id is taken under the name that the kept characters
      of the raw one spell, and the newcomer hosts only if nobody does. */
  lemma HandshakeExact(w: World, p: nat, version: U32, raw: string, env: Env) returns (at: seq<int>)
    requires p < |w.peers| && 0 <= w.maxPlayers
    ensures Keeps(raw, at)
    ensures var w' := OnPacket(w, p, Handshake(version, raw), env); var id := w.nextPlayerId;
      if w.peers[p].data != 0 then w' == w
      else if |w.players| >= w.maxPlayers || version != 1 then
        && w'.(peers := w.peers) == w
        && RefusedSlot(w.peers, w'.peers, p, if |w.players| >= w.maxPlayers then 0 else 1)
      else
        && w'.(peers := w.peers, players := w.players, nextPlayerId := id, host := w.host) == w
        && w'.nextPlayerId == (if id == 0xFFFF_FFFF then 0 else id + 1)
        && w'.host == (if w.host == 0 then id else w.host)
        && id in w'.players && Spells(raw, at, w'.players[id].name)
        && w'.players == w.players[id := Player(id, w'.players[id].name, p, Vec3(Num(0.0), Num(0.0), Num(0.0)), Zone(0, 0))]
  {
    hide Welcome, Sanitize, Spells, Keeps;
    at := NameExact(raw);
  }

  /** An open slot p is told why and starts closing; nothing else changes. */
  ghost predicate RefusedSlot(before: seq<Slot>, after: seq<Slot>, p: nat, code: nat) {
    && |after| == |before|
    && forall k :: 0 <= k < |before| ==>
      after[k] == if k == p && before[k].state.Open?
                  then Slot(Closing, before[k].data, before[k].log + [HandshakeReject(code)]) else before[k]
  }

  /** What the newcomer hears first, and the two notices of everyone else who is in. */
  lemma WelcomeExact(w: World, p: nat, raw: string, env: Env, q: nat)
    requires p < |w.peers| && q < |w.peers| && w.peers[p].data == 0 && |w.players| < w.maxPlayers
    requires w.peers[q].state.Open?
    ensures var w' := OnPacket(w, p, Handshake(1, raw), env); var id := w.nextPlayerId; var name := NameOf(w'.players, id);
      && id in w'.players && |w'.peers| == |w.peers| && w'.peers[q].state.Open? && w'.peers[q].data == (if q == p then id else w.peers[q].data)
      && |w.peers[q].log| <= |w'.peers[q].log| && w'.peers[q].log[..|w.peers[q].log|] == w.peers[q].log
      && var told := w'.peers[q].log[|w.peers[q].log|..];
         && told != [] && told[|told| - 1] == SystemMessage(name + " joined the game")
         && (q == p ==> |told| >= 3 && told[..2] == [HandshakeAck(id), FactionAssignment(if id % 2 == 1 then 0 else 1)])
         && (q != p && w.peers[q].data != 0 && w.peers[q].data != id ==>
               (|told| == 2 && told[0] == PlayerJoined(id, Clip(name, 30))))
         && (q != p && w.peers[q].data == 0 ==> |told| == 1)
  {
    hide Sanitize, JoinedMsgs, SnapshotMsgs, Clip;
    var w' := OnPacket(w, p, Handshake(1, raw), env);
    var id := w.nextPlayerId;
    var name := NameOf(w'.players, id);
    var log := w.peers[q].log;
    if q == p {
      var js, ss := JoinedMsgs(w'.players, id, env.playerOrder), SnapshotMsgs(w'.players, w.entities, env.entityOrder);
      var told := [HandshakeAck(id), FactionAssignment((id as int + 1) % 2)] + js + ss + [SystemMessage(name + " joined the game")];
      assert w'.peers[q].log == log + told;
    } else if w.peers[q].data != 0 && w.peers[q].data != id {
      assert w'.peers[q].log == log + [JoinedMsg(id, name), SystemMessage(name + " joined the game")];
    } else {
      assert w.peers[q].data == 0 ==> w'.peers[q].log == log + [SystemMessage(name + " joined the game")];
    }
  }

  /** The heir is the first player of the walk that is not the leaver. */
  lemma {:induction false} HeirIsFirst(order: seq<U32>, leaver: U32)
    ensures (forall k :: 0 <= k < |order| ==> order[k] == leaver) ==> Heir(order, leaver) == 0
    ensures forall k :: 0 <= k < |order| && order[k] != leaver && (forall j :: 0 <= j < k ==> order[j] == leaver) ==>
      Heir(order, leaver) == order[k]
  {
    if order != [] {
      HeirIsFirst(order[1..], leaver);
      forall k | 0 <= k < |order| && order[k] != leaver && (forall j :: 0 <= j < k ==> order[j] == leaver)
        ensures Heir(order, leaver) == order[k]
      {
        if k > 0 {
          assert order[1..][k - 1] == order[k];
          assert forall j :: 0 <= j < k - 1 ==> order[1..][j] == order[j + 1];
          assert order[0] == leaver;
        }
      }
    }
  }

  /** The entity at place i of the walk belongs to the leaver. */
  ghost predicate LeftBehind(entities: map<U32, Entity>, pid: U32, order: seq<U32>, i: int) {
    0 <= i < |order| && order[i] in entities && entities[order[i]].owner == pid
  }

  lemma {:induction false} OwnedInOrder(entities: map<U32, Entity>, pid: U32, order: seq<U32>) returns (at: seq<int>)
    ensures forall j, k :: 0 <= j < k < |at| ==> at[j] < at[k]
    ensures forall i :: i in at <==> LeftBehind(entities, pid, order, i)
    ensures |OwnedIn(entities, pid, order)| == |at|
    ensures forall j :: 0 <= j < |at| ==>
      LeftBehind(entities, pid, order, at[j]) && OwnedIn(entities, pid, order)[j] == order[at[j]]
  {
    at := [];
    if order != [] {
      var n := |order| - 1;
      var front := order[..n];
      at := OwnedInOrder(entities, pid, front);
      assert forall i :: i < n ==> (LeftBehind(entities, pid, order, i) <==> LeftBehind(entities, pid, front, i));
      assert forall j :: 0 <= j < |at| ==> at[j] in at && front[at[j]] == order[at[j]];
      if LeftBehind(entities, pid, order, n) {
        at := at + [n];
      }
    }
  }

  function HostNotice(w: World, w': World, pid: U32): seq<Msg> {
    if w.host == pid && w'.players != map[] then [SystemMessage(NameOf(w'.players, w'.host) + " is now the host")] else []
  }

  lemma FarewellLog(w: World, p: nat, env: Env, q: nat)
    requires p < |w.peers| && q < |w.peers| && p != q && PlayerAt(w, p).Some?
    requires w.peers[q].state.Open? && w.peers[q].data != 0 && w.peers[q].data != w.peers[p].data
    ensures var pid, w' := w.peers[p].data, OnDisconnect(w, p, env);
      && |w'.peers| == |w.peers| && w'.peers[q].state.Open? && w'.peers[q].data == w.peers[q].data
      && w'.peers[q].log == w.peers[q].log
           + (DespawnMsgs(OwnedIn(w.entities, pid, env.entityOrder)) + [PlayerLeft(pid)] + HostNotice(w, w', pid)
              + [SystemMessage(w.players[pid].name + " left the game")])
  {
    hide OwnedIn, Heir, DespawnMsgs, NameOf;
  }

  /** What another reachable player q is told when the player on slot p leaves: its
      entities go, one by one in walking order, then the player, then who the host is
      if it was the host and anyone remains, and a notice by name. */
  lemma FarewellExact(w: World, p: nat, env: Env, q: nat) returns (at: seq<int>)
    requires p < |w.peers| && q < |w.peers| && p != q && PlayerAt(w, p).Some?
    requires w.peers[q].state.Open? && w.peers[q].data != 0 && w.peers[q].data != w.peers[p].data
    ensures forall j, k :: 0 <= j < k < |at| ==> at[j] < at[k]
    ensures forall i :: i in at <==> LeftBehind(w.entities, w.peers[p].data, env.entityOrder, i)
    ensures var pid, w' := w.peers[p].data, OnDisconnect(w, p, env);
      && |w'.peers| == |w.peers| && w'.peers[q].state.Open? && w'.peers[q].data == w.peers[q].data
      && |w.peers[q].log| <= |w'.peers[q].log| && w'.peers[q].log[..|w.peers[q].log|] == w.peers[q].log
      && var told := w'.peers[q].log[|w.peers[q].log|..];
         var newHost := w.host == pid && w'.players != map[];
         && |told| == |at| + (if newHost then 3 else 2)
         && (forall j :: 0 <= j < |at| ==>
               && LeftBehind(w.entities, pid, env.entityOrder, at[j])
               && told[j] == EntityDespawn(env.entityOrder[at[j]], 1))
         && told[|at|] == PlayerLeft(pid)
         && (newHost && w'.host in w'.players ==>
               told[|at| + 1] == SystemMessage(w'.players[w'.host].name + " is now the host"))
         && told[|told| - 1] == SystemMessage(w.players[pid].name + " left the game")
  {
    hide OwnedIn, Heir, LeftBehind, OnDisconnect;
    var pid, w' := w.peers[p].data, OnDisconnect(w, p, env);
    at := OwnedInOrder(w.entities, pid, env.entityOrder);
    FarewellLog(w, p, env, q);
    var told := DespawnMsgs(OwnedIn(w.entities, pid, env.entityOrder)) + [PlayerLeft(pid)] + HostNotice(w, w', pid)
                + [SystemMessage(w.players[pid].name + " left the game")];
    assert told == w'.peers[q].log[|w.peers[q].log|..];
  }

  /** A connection is let in while there is room; otherwise it starts closing. Its
      log is new, and nothing else changes. */
  lemma ConnectExact(w: World, p: nat)
    requires p < |w.peers| && 0 <= w.maxPlayers
    ensures var w' := OnConnect(w, p);
      && w'.(peers := w.peers) == w && |w'.peers| == |w.peers|
      && (forall k :: 0 <= k < |w.peers| && k != p ==> w'.peers[k] == w.peers[k])
      && w'.peers[p].log == []
      && (if |w.players| < w.maxPlayers then w'.peers[p].state.Open? && w'.peers[p].data == 0
          else w'.peers[p].state.Closing? && w'.peers[p].data == w.peers[p].data)
  {
  }

  /** A query tells the player count, and a leave nothing; both close the slot. */
  lemma QueryAndLeaveExact(w: World, p: nat, env: Env)
    requires p < |w.peers|
    ensures var q, l := OnPacket(w, p, ServerQuery, env), OnPacket(w, p, Leave, env);
      && q.(peers := w.peers) == w && l.(peers := w.peers) == w && |q.peers| == |l.peers| == |w.peers|
      && (forall k :: 0 <= k < |w.peers| && (k != p || !w.peers[k].state.Open?) ==>
            q.peers[k] == w.peers[k] && l.peers[k] == w.peers[k])
      && (w.peers[p].state.Open? ==>
            && q.peers[p] == Slot(Closing, w.peers[p].data, w.peers[p].log + [ServerInfo(|w.players|)])
            && l.peers[p] == Slot(Closing, w.peers[p].data, w.peers[p].log))
  {
  }

  /** Without a player, only handshake, query and leave do anything. */
  lemma StrangerIgnored(w: World, p: nat, r: Request, env: Env)
    requires p < |w.peers| && PlayerAt(w, p) == None && !r.Handshake? && !r.ServerQuery? && !r.Leave?
    ensures OnPacket(w, p, r, env) == w
  {
  }
}
