/** Saving the world as a JSON document and loading it again. The document is
    modelled as a tree; its text is not. */
module Persistence {
  import opened Base

  type U8 = x: int | 0 <= x < 0x100
  type I32 = x: int | -0x8000_0000 <= x < 0x8000_0000
  type Health7 = h: seq<Float> | |h| == 7 witness DEFAULT_HEALTH
  const DEFAULT_HEALTH: seq<Float> :=
    [Num(100.0), Num(100.0), Num(100.0), Num(100.0), Num(100.0), Num(100.0), Num(100.0)]

  datatype Quat = Quat(w: Float, x: Float, y: Float, z: Float)

  /** Names are byte strings. The last four fields are not saved. */
  datatype ServerEntity = ServerEntity(
    id: U32, kind: U8, owner: U32, templateId: U32, factionId: U32, templateName: string,
    position: Vec3, rotation: Quat, zone: Zone, health: Health7, alive: bool, equipment: Equipment,
    animState: U8, moveSpeed: U8, flags: nat, buildProgress: Float)

  datatype Json =
    | Null | Bool(b: bool) | Int(i: int) | Real(r: real) | Str(s: string)
    | Arr(items: seq<Json>) | Obj(fields: map<string, Json>)

  // ---- Saving ------------------------------------------------------------------------

  /** The serializer writes NaN and the infinities as null. */
  function JFloat(f: Float): Json {
    if f.Num? then Real(f.v) else Null
  }

  function JFloats(fs: seq<Float>): seq<Json> {
    seq(|fs|, i requires 0 <= i < |fs| => JFloat(fs[i]))
  }

  function JInts(xs: seq<U32>): seq<Json> {
    seq(|xs|, i requires 0 <= i < |xs| => Int(xs[i]))
  }

  function WriteEntity(e: ServerEntity): Json {
    Obj(map[
      "id" := Int(e.id), "type" := Int(e.kind), "owner" := Int(e.owner),
      "templateId" := Int(e.templateId), "factionId" := Int(e.factionId),
      "position" := Arr(JFloats([e.position.x, e.position.y, e.position.z])),
      "rotation" := Arr(JFloats([e.rotation.w, e.rotation.x, e.rotation.y, e.rotation.z])),
      "alive" := Bool(e.alive), "health" := Arr(JFloats(e.health)),
      "templateName" := Str(e.templateName), "equipment" := Arr(JInts(e.equipment))])
  }

  function WriteAll(world: map<U32, ServerEntity>, order: seq<U32>): seq<Json> {
    if order == [] then []
    else
      var rest, id := WriteAll(world, order[..|order| - 1]), order[|order| - 1];
      if id in world then rest + [WriteEntity(world[id])] else rest
  }

  predicate Continues(s: string, n: nat) {
    n <= |s| && forall i :: 0 <= i < n ==> 0x80 <= s[i] as int <= 0xBF
  }

  /** Well-formed UTF-8 (section 4 of RFC 3629); the serializer throws on anything else. */
  predicate Utf8(s: string) {
    s == [] ||
    var b := s[0] as int;
    var second := if |s| > 1 then s[1] as int else 0;
    if b < 0x80 then Utf8(s[1..])
    else if 0xC2 <= b <= 0xDF then Continues(s[1..], 1) && Utf8(s[2..])
    else if 0xE0 <= b <= 0xEF then
      Continues(s[1..], 2) && (b == 0xE0 ==> second >= 0xA0) && (b == 0xED ==> second <= 0x9F) && Utf8(s[3..])
    else if 0xF0 <= b <= 0xF4 then
      Continues(s[1..], 3) && (b == 0xF0 ==> second >= 0x90) && (b == 0xF4 ==> second <= 0x8F) && Utf8(s[4..])
    else false
  }

  predicate Writable(world: map<U32, ServerEntity>) {
    forall id :: id in world ==> Utf8(world[id].templateName)
  }

  function Document(world: map<U32, ServerEntity>, order: seq<U32>, time: Float, weather: I32): Json {
    Obj(map["version" := Int(1), "timeOfDay" := JFloat(time), "weather" := Int(weather),
            "entities" := Arr(WriteAll(world, order))])
  }

  // ---- Reading values ------------------------------------------------------------------

  /** operator[] on a missing key yields null, which converts to nothing. */
  function Field(j: Json, key: string): Json {
    if j.Obj? && key in j.fields then j.fields[key] else Null
  }

  function Trunc(r: real): int {
    if r >= 0.0 then r.Floor else -((-r).Floor)
  }

  /** Conversion to a number: integers, floats and booleans; anything else throws. */
  function ToInt(j: Json): Option<int> {
    match j
    case Int(i) => Some(i)
    case Real(r) => Some(Trunc(r))
    case Bool(b) => Some(if b then 1 else 0)
    case _ => None
  }

  function ToU32(j: Json): Option<U32> {
    match ToInt(j)
    case Some(i) => Some(i % 0x1_0000_0000)
    case None => None
  }

  function ToFloat(j: Json): Option<Float> {
    match j
    case Int(i) => Some(Num(i as real))
    case Real(r) => Some(Num(r))
    case Bool(b) => Some(Num(if b then 1.0 else 0.0))
    case _ => None
  }

  function Item(j: Json, k: nat): Json {
    if j.Arr? && k < |j.items| then j.items[k] else Null
  }

  function Vec(j: Json): Option<Vec3> {
    match (ToFloat(Item(j, 0)), ToFloat(Item(j, 1)), ToFloat(Item(j, 2)))
    case (Some(x), Some(y), Some(z)) => Some(Vec3(x, y, z))
    case _ => None
  }

  function Rotation(j: Json): Option<Quat> {
    match (ToFloat(Item(j, 0)), ToFloat(Item(j, 1)), ToFloat(Item(j, 2)), ToFloat(Item(j, 3)))
    case (Some(w), Some(x), Some(y), Some(z)) => Some(Quat(w, x, y, z))
    case _ => None
  }

  /** What a size()-bounded loop sees: null is empty, a scalar cannot be indexed. */
  function Items(j: Json): Option<seq<Json>> {
    match j
    case Arr(items) => Some(items)
    case Null => Some([])
    case Obj(fields) => if fields == map[] then Some([]) else None
    case _ => None
  }

  /** Overwrite the first k values; the rest keep their defaults. */
  function ReadFloats(items: seq<Json>, init: seq<Float>, k: nat): (r: Option<seq<Float>>)
    requires k <= |items| && k <= |init|
    ensures r.Some? ==> |r.value| == |init|
  {
    if k == 0 then Some(init)
    else
      match (ReadFloats(items, init, k - 1), ToFloat(items[k - 1]))
      case (Some(fs), Some(f)) => Some(fs[k - 1 := f])
      case _ => None
  }

  function ReadU32s(items: seq<Json>, init: seq<U32>, k: nat): (r: Option<seq<U32>>)
    requires k <= |items| && k <= |init|
    ensures r.Some? ==> |r.value| == |init|
  {
    if k == 0 then Some(init)
    else
      match (ReadU32s(items, init, k - 1), ToU32(items[k - 1]))
      case (Some(xs), Some(x)) => Some(xs[k - 1 := x])
      case _ => None
  }

  function ReadHealth(j: Json): Option<Health7> {
    match Items(j)
    case Some(items) => ReadFloats(items, DEFAULT_HEALTH, Min(7, |items|))
    case None => None
  }

  function ReadEquipment(j: Json): Option<Equipment> {
    match Items(j)
    case Some(items) => ReadU32s(items, NO_EQUIPMENT, Min(14, |items|))
    case None => None
  }

  function BoolOr(e: Json, key: string, default: bool): Option<bool>
    requires e.Obj?
  {
    if key !in e.fields then Some(default)
    else if e.fields[key].Bool? then Some(e.fields[key].b)
    else None
  }

  function StrOr(e: Json, key: string, default: string): Option<string>
    requires e.Obj?
  {
    if key !in e.fields then Some(default)
    else if e.fields[key].Str? then Some(e.fields[key].s)
    else None
  }

  // ---- Loading ------------------------------------------------------------------------

  /** Thrown: reading this entry throws. Skipped: its position is out of range. */
  datatype Read = Thrown | Skipped(id: U32) | Entity(entity: ServerEntity)

  function ReadBody(e: Json, id: U32, kind: U8, owner: U32, templateId: U32, factionId: U32, position: Vec3): Read
    requires e.Obj?
  {
    match (Rotation(Field(e, "rotation")), BoolOr(e, "alive", true), ReadHealth(Field(e, "health")),
           StrOr(e, "templateName", ""), ReadEquipment(Field(e, "equipment")))
    case (Some(rotation), Some(alive), Some(health), Some(name), Some(equipment)) =>
      Entity(ServerEntity(id, kind, owner, templateId, factionId, name, position, rotation, ZoneOf(position),
                          health, alive, equipment, 0, 0, 0, Num(0.0)))
    case _ => Thrown
  }

  function ReadEntity(e: Json): Read {
    match (ToU32(Field(e, "id")), ToInt(Field(e, "type")), ToU32(Field(e, "owner")),
           ToU32(Field(e, "templateId")), ToU32(Field(e, "factionId")), Vec(Field(e, "position")))
    case (Some(id), Some(kind), Some(owner), Some(templateId), Some(factionId), Some(position)) =>
      if !InRange(position) then Skipped(id)
      else if e.Obj? then ReadBody(e, id, kind % 0x100, owner, templateId, factionId, position)
      else Thrown
    case _ => Thrown
  }

  datatype Status = Going | Capped | Failed

  datatype Loading = Loading(entities: map<U32, ServerEntity>, maxId: U32, loaded: nat, status: Status)

  function Max(a: U32, b: U32): U32 {
    if a > b then a else b
  }

  function LoadOne(l: Loading, e: Json): Loading {
    if l.status != Going then l
    else if l.loaded >= MAX_SYNC_ENTITIES then l.(status := Capped)
    else
      match ReadEntity(e)
      case Thrown => l.(status := Failed)
      case Skipped(id) => l.(maxId := Max(l.maxId, id))
      case Entity(x) => Loading(l.entities[x.id := x], Max(l.maxId, x.id), l.loaded + 1, Going)
  }

  function LoadAll(items: seq<Json>): Loading {
    if items == [] then Loading(map[], 0, 0, Going)
    else LoadOne(LoadAll(items[..|items| - 1]), items[|items| - 1])
  }

  /** A number or string in place of the array is iterated as itself. */
  function Elements(j: Json): seq<Json> {
    match j
    case Arr(items) => items
    case Null => []
    case _ => [j]
  }

  function FloatOr(doc: Json, key: string, default: Float): Option<Float>
    requires doc.Obj?
  {
    if key in doc.fields then ToFloat(doc.fields[key]) else Some(default)
  }

  function Wrap32(i: int): I32 {
    var u := i % 0x1_0000_0000;
    if u >= 0x8000_0000 then u - 0x1_0000_0000 else u
  }

  function IntOr(doc: Json, key: string, default: I32): Option<I32>
    requires doc.Obj?
  {
    if key !in doc.fields then Some(default)
    else match ToInt(doc.fields[key])
         case Some(i) => Some(Wrap32(i))
         case None => None
  }

  datatype State = State(entities: map<U32, ServerEntity>, timeOfDay: Float, weather: I32, nextEntityId: U32)

  /** GameServer::LoadWorld on a readable file: the entities are cleared once time
      and weather have been read; time, weather and the next id are taken over
      only when nothing throws. */
  function Load(s: State, doc: Json): (bool, State) {
    if !doc.Obj? then (false, s)
    else
      match (FloatOr(doc, "timeOfDay", Num(0.5)), IntOr(doc, "weather", 0))
      case (Some(time), Some(weather)) =>
        var l := LoadAll(Elements(Field(doc, "entities")));
        if l.status == Failed then (false, s.(entities := l.entities))
        else (true, State(l.entities, time, weather, Inc32(l.maxId)))
      case _ => (false, s)
  }

  // ---- One entity, there and back --------------------------------------------------------

  predicate FinitePos(p: Vec3) {
    p.x.Num? && p.y.Num? && p.z.Num?
  }

  predicate FiniteState(e: ServerEntity) {
    && e.rotation.w.Num? && e.rotation.x.Num? && e.rotation.y.Num? && e.rotation.z.Num?
    && forall i :: 0 <= i < 7 ==> e.health[i].Num?
  }

  /** Every float that loading reads was finite when it was saved. */
  predicate Readable(e: ServerEntity) {
    FinitePos(e.position) && (InRange(e.position) ==> FiniteState(e))
  }

  /** What survives: everything but animation, speed, flags and build progress;
      the zone is computed from the position. */
  function Restored(e: ServerEntity): ServerEntity {
    e.(zone := ZoneOf(e.position), animState := 0, moveSpeed := 0, flags := 0, buildProgress := Num(0.0))
  }

  lemma {:induction false} FloatsBack(fs: seq<Float>, init: seq<Float>, k: nat)
    requires |fs| == |init| && k <= |fs|
    ensures ReadFloats(JFloats(fs), init, k).Some? <==> forall i :: 0 <= i < k ==> fs[i].Num?
    ensures ReadFloats(JFloats(fs), init, k).Some? ==> ReadFloats(JFloats(fs), init, k).value == fs[..k] + init[k..]
  {
    if k > 0 {
      FloatsBack(fs, init, k - 1);
    }
  }

  lemma IdBack(x: U32)
    ensures ToU32(Int(x)) == Some(x)
  {
    assert x % 0x1_0000_0000 == x;
  }

  lemma {:induction false} IntsBack(xs: seq<U32>, init: seq<U32>, k: nat)
    requires |xs| == |init| && k <= |xs|
    ensures ReadU32s(JInts(xs), init, k) == Some(xs[..k] + init[k..])
  {
    if k == 0 {
      assert xs[..0] + init[0..] == init;
    } else {
      IntsBack(xs, init, k - 1);
      IdBack(xs[k - 1]);
      assert JInts(xs)[k - 1] == Int(xs[k - 1]);
      assert (xs[..k - 1] + init[k - 1..])[k - 1 := xs[k - 1]] == xs[..k] + init[k..];
    }
  }

  lemma HealthBack(h: Health7)
    ensures ReadHealth(Arr(JFloats(h))) ==
      if forall i :: 0 <= i < 7 ==> h[i].Num? then Some(h) else None
  {
    FloatsBack(h, DEFAULT_HEALTH, 7);
    assert h[..7] + DEFAULT_HEALTH[7..] == h;
  }

  lemma EquipmentBack(q: Equipment)
    ensures ReadEquipment(Arr(JInts(q))) == Some(q)
  {
    IntsBack(q, NO_EQUIPMENT, 14);
    assert q[..14] + NO_EQUIPMENT[14..] == q;
  }

  lemma PositionBack(p: Vec3)
    ensures Vec(Arr(JFloats([p.x, p.y, p.z]))) == if FinitePos(p) then Some(p) else None
  {
  }

  lemma RotationBack(q: Quat)
    ensures Rotation(Arr(JFloats([q.w, q.x, q.y, q.z]))) ==
      if q.w.Num? && q.x.Num? && q.y.Num? && q.z.Num? then Some(q) else None
  {
  }

  /** Reading back a written entity: it throws exactly when a float it reads was
      not finite, and otherwise restores it unless its position is out of range. */
  lemma EntityBack(e: ServerEntity)
    ensures ReadEntity(WriteEntity(e)) ==
      if !Readable(e) then Thrown
      else if !InRange(e.position) then Skipped(e.id)
      else Entity(Restored(e))
  {
    hide JFloats, JInts, Vec, Rotation, ReadHealth, ReadEquipment, InRange, ZoneOf, WriteEntity, Field, ToU32, ToInt, BoolOr, StrOr;
    PositionBack(e.position);
    RotationBack(e.rotation);
    HealthBack(e.health);
    EquipmentBack(e.equipment);
    NumbersBack(e);
    FieldsBack(e);
  }

  lemma NumbersBack(e: ServerEntity)
    ensures var j := WriteEntity(e);
      && ToU32(Field(j, "id")) == Some(e.id) && ToInt(Field(j, "type")) == Some(e.kind)
      && ToU32(Field(j, "owner")) == Some(e.owner)
      && ToU32(Field(j, "templateId")) == Some(e.templateId) && ToU32(Field(j, "factionId")) == Some(e.factionId)
  {
    hide JFloats, JInts, ToU32;
    IdBack(e.id);
    IdBack(e.owner);
    IdBack(e.templateId);
    IdBack(e.factionId);
  }

  lemma FieldsBack(e: ServerEntity)
    ensures var j := WriteEntity(e);
      && j.Obj? && BoolOr(j, "alive", true) == Some(e.alive) && StrOr(j, "templateName", "") == Some(e.templateName)
      && Field(j, "position") == Arr(JFloats([e.position.x, e.position.y, e.position.z]))
      && Field(j, "rotation") == Arr(JFloats([e.rotation.w, e.rotation.x, e.rotation.y, e.rotation.z]))
      && Field(j, "health") == Arr(JFloats(e.health)) && Field(j, "equipment") == Arr(JInts(e.equipment))
  {
    hide JFloats, JInts;
  }

  // ---- The whole world -------------------------------------------------------------------

  /** Highest id listed; 0 when there is none. */
  function Highest(order: seq<U32>): U32 {
    if order == [] then 0 else Max(Highest(order[..|order| - 1]), order[|order| - 1])
  }

  function Survivors(world: map<U32, ServerEntity>, order: seq<U32>): map<U32, ServerEntity> {
    map id | id in order && id in world && InRange(world[id].position) :: Restored(world[id])
  }

  predicate AllReadable(world: map<U32, ServerEntity>, order: seq<U32>) {
    forall i :: 0 <= i < |order| ==> order[i] in world && Readable(world[order[i]])
  }

  ghost predicate KeyIsId(world: map<U32, ServerEntity>) {
    forall id :: id in world ==> world[id].id == id
  }

  ghost predicate Distinct(order: seq<U32>) {
    forall i, j :: 0 <= i < j < |order| ==> order[i] != order[j]
  }

  predicate Kept(world: map<U32, ServerEntity>, id: U32) {
    id in world && InRange(world[id].position)
  }

  /** How many of the listed entities are in range. */
  function KeptCount(world: map<U32, ServerEntity>, order: seq<U32>): nat {
    if order == [] then 0
    else KeptCount(world, order[..|order| - 1]) + (if Kept(world, order[|order| - 1]) then 1 else 0)
  }

  /** How many entries of the file are read before the cap stops the loader. */
  function Scanned(world: map<U32, ServerEntity>, order: seq<U32>): (n: nat)
    ensures n <= |order|
  {
    if order == [] then 0
    else
      var front := order[..|order| - 1];
      if Scanned(world, front) < |front| then Scanned(world, front)
      else if KeptCount(world, front) >= MAX_SYNC_ENTITIES then |front|
      else |order|
  }

  /** The loader stops right after the 2048th in-range entry, if there are more entries. */
  lemma {:induction false} ScannedExact(world: map<U32, ServerEntity>, order: seq<U32>)
    ensures var n := Scanned(world, order);
      && KeptCount(world, order[..n]) <= MAX_SYNC_ENTITIES
      && (n < |order| ==> KeptCount(world, order[..n]) == MAX_SYNC_ENTITIES)
      && (forall m :: 0 <= m < n ==> KeptCount(world, order[..m]) < MAX_SYNC_ENTITIES)
      && (|order| <= MAX_SYNC_ENTITIES ==> n == |order|)
  {
    hide Kept;
    if order != [] {
      var front := order[..|order| - 1];
      ScannedExact(world, front);
      KeptAtMost(world, front);
      assert forall m :: 0 <= m <= |front| ==> order[..m] == front[..m];
      assert front[..|front|] == front && order[..|order|] == order;
    }
  }

  lemma {:induction false} KeptAtMost(world: map<U32, ServerEntity>, order: seq<U32>)
    ensures KeptCount(world, order) <= |order|
  {
    if order != [] {
      KeptAtMost(world, order[..|order| - 1]);
    }
  }

  lemma NoneListed(world: map<U32, ServerEntity>)
    ensures LoadAll(WriteAll(world, [])) == Loading(map[], 0, 0, Going) && Survivors(world, []) == map[]
  {
  }

  lemma SurvivorsSnoc(world: map<U32, ServerEntity>, order: seq<U32>)
    requires order != [] && order[|order| - 1] in world
    ensures var rest, id := order[..|order| - 1], order[|order| - 1];
      Survivors(world, order) ==
        if InRange(world[id].position) then Survivors(world, rest)[id := Restored(world[id])] else Survivors(world, rest)
  {
    hide InRange, Restored;
    assert forall x :: x in order <==> x in order[..|order| - 1] || x == order[|order| - 1];
  }

  lemma RestoredId(e: ServerEntity)
    ensures Restored(e).id == e.id
  {
  }

  lemma WriteSnoc(world: map<U32, ServerEntity>, order: seq<U32>)
    requires order != [] && order[|order| - 1] in world
    ensures var rest, id := order[..|order| - 1], order[|order| - 1];
      LoadAll(WriteAll(world, order)) == LoadOne(LoadAll(WriteAll(world, rest)), WriteEntity(world[id]))
  {
    hide LoadOne, WriteEntity;
    var items := WriteAll(world, order);
    assert items[..|items| - 1] == WriteAll(world, order[..|order| - 1]);
  }

  ghost predicate AllListed(world: map<U32, ServerEntity>, order: seq<U32>) {
    forall i :: 0 <= i < |order| ==> order[i] in world
  }

  /** What reading one more written entity does. */
  lemma LoadWritten(l: Loading, e: ServerEntity)
    ensures LoadOne(l, WriteEntity(e)) ==
      if l.status != Going then l
      else if l.loaded >= MAX_SYNC_ENTITIES then l.(status := Capped)
      else if !Readable(e) then l.(status := Failed)
      else if !InRange(e.position) then l.(maxId := Max(l.maxId, e.id))
      else Loading(l.entities[e.id := Restored(e)], Max(l.maxId, e.id), l.loaded + 1, Going)
  {
    hide ReadEntity, WriteEntity, Restored, InRange, Readable;
    EntityBack(e);
    RestoredId(e);
  }

  /** When everything read is readable, the in-range entries among the scanned ones
      are loaded, and every scanned id counts for the next id. */
  lemma {:induction false} LoadsScanned(world: map<U32, ServerEntity>, order: seq<U32>)
    requires KeyIsId(world) && AllListed(world, order) && Distinct(order)
    requires AllReadable(world, order[..Scanned(world, order)])
    ensures var l, read := LoadAll(WriteAll(world, order)), order[..Scanned(world, order)];
      && l.status == (if |read| < |order| then Capped else Going)
      && l.entities == Survivors(world, read) && l.maxId == Highest(read) && l.loaded == KeptCount(world, read)
  {
    hide LoadOne, WriteEntity, Restored, InRange, Readable, LoadAll, WriteAll, Survivors;
    if order == [] {
      NoneListed(world);
    } else {
      var front, id := order[..|order| - 1], order[|order| - 1];
      var n := Scanned(world, front);
      assert order[..n] == front[..n];
      assert order[..|order|] == order && front[..|front|] == front;
      ReadableFront(world, order);
      LoadsScanned(world, front);
      WriteSnoc(world, order);
      LoadWritten(LoadAll(WriteAll(world, front)), world[id]);
      SurvivorsSnoc(world, order);
    }
  }

  lemma ReadableFront(world: map<U32, ServerEntity>, order: seq<U32>)
    requires order != [] && AllReadable(world, order[..Scanned(world, order)])
    ensures var front := order[..|order| - 1];
      AllReadable(world, front[..Scanned(world, front)])
    ensures Scanned(world, order) == |order| ==> AllReadable(world, order)
  {
    hide Readable, KeptCount;
    var front, n := order[..|order| - 1], Scanned(world, order[..|order| - 1]);
    assert forall i :: 0 <= i < n ==> front[..n][i] == order[i] && order[i] == order[..Scanned(world, order)][i];
  }

  /** Entries before the first unreadable one are loaded; then loading fails. */
  lemma {:induction false} FailureIsKept(world: map<U32, ServerEntity>, order: seq<U32>, k: nat)
    requires KeyIsId(world) && AllListed(world, order) && Distinct(order) && k < Scanned(world, order)
    requires AllReadable(world, order[..k]) && !Readable(world[order[k]])
    ensures var l := LoadAll(WriteAll(world, order));
      l.status == Failed && l.entities == Survivors(world, order[..k])
  {
    hide LoadOne, WriteEntity, Restored, InRange, Readable, Survivors, LoadAll, WriteAll, Highest;
    var front, id := order[..|order| - 1], order[|order| - 1];
    WriteSnoc(world, order);
    LoadWritten(LoadAll(WriteAll(world, front)), world[id]);
    assert order[..k] == front[..k];
    if k < Scanned(world, front) {
      FailureIsKept(world, front, k);
    } else {
      assert k == |front| && Scanned(world, front) == |front| && front[..|front|] == front;
      LoadsScanned(world, front);
    }
  }

  /** Save then load, for any world whose keys are its ids: the entries are read in
      walking order up to the cap. It succeeds exactly when every float read was
      finite; it then restores every in-range entity read, with its saved fields
      and its zone recomputed, the time and the weather, and the next id follows
      the highest id read, skipped entries included. */
  lemma RoundTrip(world: map<U32, ServerEntity>, order: seq<U32>, time: Float, weather: I32, before: State)
    requires KeyIsId(world) && Enumerates(order, world.Keys)
    ensures var (ok, after) := Load(before, Document(world, order, time, weather));
      var read := order[..Scanned(world, order)];
      && (ok <==> time.Num? && AllReadable(world, read))
      && (ok ==> after == State(Survivors(world, read), time, weather, Inc32(Highest(read))))
  {
    hide Load, Document, LoadAll, WriteAll, Readable, Restored, InRange, Scanned, Highest, Survivors;
    Listed(world, order);
    LoadDocument(world, order, time, weather, before);
    var n := Scanned(world, order);
    if AllReadable(world, order[..n]) {
      LoadsScanned(world, order);
    } else {
      var k := FirstUnreadable(world, order, n);
      FailureIsKept(world, order, k);
    }
  }

  lemma Listed(world: map<U32, ServerEntity>, order: seq<U32>)
    requires Enumerates(order, world.Keys)
    ensures AllListed(world, order) && Distinct(order) && forall id :: id in world ==> id in order
  {
    assert forall i :: 0 <= i < |order| ==> order[i] in world.Keys;
    assert forall id :: id in world ==> id in world.Keys && id in order;
  }

  /** A world of at most 2048 entities is read completely. */
  lemma WholeWorldRoundTrip(world: map<U32, ServerEntity>, order: seq<U32>, time: Float, weather: I32, before: State)
    requires KeyIsId(world) && Enumerates(order, world.Keys) && |world| <= MAX_SYNC_ENTITIES
    ensures var (ok, after) := Load(before, Document(world, order, time, weather));
      && (ok <==> time.Num? && forall id :: id in world ==> Readable(world[id]))
      && (ok ==> after == State(map id | id in world && InRange(world[id].position) :: Restored(world[id]),
                                time, weather, Inc32(Highest(order))))
  {
    hide Load, Document, Readable, Restored, InRange, Scanned, Highest, Survivors, KeptCount, Enumerates;
    RoundTrip(world, order, time, weather, before);
    WalkLength(order, world.Keys);
    ScannedExact(world, order);
    Listed(world, order);
    assert order[..|order|] == order && |world| == |world.Keys|;
    AllSurvive(world, order);
  }

  lemma AllSurvive(world: map<U32, ServerEntity>, order: seq<U32>)
    requires AllListed(world, order) && forall id :: id in world ==> id in order
    ensures Survivors(world, order) == map id | id in world && InRange(world[id].position) :: Restored(world[id])
    ensures AllReadable(world, order) <==> forall id :: id in world ==> Readable(world[id])
  {
    hide Readable, Restored, InRange;
  }

  lemma {:induction false} WalkLength<T(!new)>(order: seq<T>, keys: set<T>)
    requires Enumerates(order, keys)
    ensures |order| == |keys|
  {
    if order == [] {
      assert keys == {};
    } else {
      var front, last := order[..|order| - 1], order[|order| - 1];
      assert forall k :: k in order <==> k in front || k == last;
      assert last !in front;
      WalkLength(front, keys - {last});
    }
  }

  lemma LoadDocument(world: map<U32, ServerEntity>, order: seq<U32>, time: Float, weather: I32, before: State)
    ensures var l := LoadAll(WriteAll(world, order));
      Load(before, Document(world, order, time, weather)) ==
        if !time.Num? then (false, before)
        else if l.status == Failed then (false, before.(entities := l.entities))
        else (true, State(l.entities, time, weather, Inc32(l.maxId)))
  {
    hide LoadAll, WriteAll;
    WrapsBack(weather);
  }

  lemma WrapsBack(weather: I32)
    ensures Wrap32(weather) == weather
  {
  }

  lemma FirstUnreadable(world: map<U32, ServerEntity>, order: seq<U32>, n: nat) returns (k: nat)
    requires n <= |order| && AllListed(world, order) && !AllReadable(world, order[..n])
    ensures k < n && !Readable(world[order[k]]) && AllReadable(world, order[..k])
  {
    hide Readable;
    k := 0;
    while k < n && Readable(world[order[k]])
      invariant k <= n && forall i :: 0 <= i < k ==> Readable(world[order[i]])
    {
      k := k + 1;
    }
  }

  /** The next id is above every id in the file unless the highest is the last uint32. */
  lemma {:induction false} HighestBounds(order: seq<U32>)
    ensures forall i :: 0 <= i < |order| ==> order[i] <= Highest(order)
    ensures order != [] ==> Highest(order) in order
  {
    if order != [] {
      HighestBounds(order[..|order| - 1]);
      assert forall i :: 0 <= i < |order| - 1 ==> order[i] == order[..|order| - 1][i];
      if Highest(order) != order[|order| - 1] {
        assert Highest(order) == Highest(order[..|order| - 1]);
        assert |order| > 1 ==> Highest(order) in order[..|order| - 1];
      }
    }
  }

  /** Loading is settled after one round: saving what was loaded and loading that
      again changes nothing but, possibly, lowers the next id. */
  lemma SecondRoundTripIsIdentity(world: map<U32, ServerEntity>, order: seq<U32>, time: Float, weather: I32,
                                  before: State, order': seq<U32>)
    requires KeyIsId(world) && Enumerates(order, world.Keys)
    requires Load(before, Document(world, order, time, weather)).0
    requires Enumerates(order', Load(before, Document(world, order, time, weather)).1.entities.Keys)
    ensures var once := Load(before, Document(world, order, time, weather)).1;
      var (ok, twice) := Load(once, Document(once.entities, order', once.timeOfDay, once.weather));
      && ok && twice.(nextEntityId := once.nextEntityId) == once
      && (order' != [] ==> Highest(order') <= Highest(order))
  {
    hide Load, Document, Highest, InRange, Readable, Restored, Scanned, LoadAll, WriteAll, Survivors, Enumerates;
    var read := order[..Scanned(world, order)];
    RoundTrip(world, order, time, weather, before);
    LoadDocument(world, order, time, weather, before);
    LoadIsCapped(WriteAll(world, order));
    SurvivorsSettled(world, read);
    var once := Load(before, Document(world, order, time, weather)).1;
    WholeWorldRoundTrip(once.entities, order', once.timeOfDay, once.weather, once);
    Listed(world, order);
    Listed(once.entities, order');
    NotHigher(once.entities, order', order);
  }

  /** Survivors load as they are. */
  lemma SurvivorsSettled(world: map<U32, ServerEntity>, read: seq<U32>)
    requires AllReadable(world, read)
    ensures var m := Survivors(world, read);
      && (forall id :: id in m ==> id in world && Readable(m[id]))
      && m == map id | id in m && InRange(m[id].position) :: Restored(m[id])
  {
    hide InRange, ZoneOf;
    var m := Survivors(world, read);
    forall id | id in m ensures InRange(m[id].position) && Restored(m[id]) == m[id] && Readable(m[id]) {
      var i :| 0 <= i < |read| && read[i] == id;
    }
  }

  lemma NotHigher(m: map<U32, ServerEntity>, order': seq<U32>, order: seq<U32>)
    requires AllListed(m, order') && forall id :: id in m ==> id in order
    ensures order' != [] ==> Highest(order') <= Highest(order)
  {
    HighestBounds(order);
    HighestBounds(order');
  }

  /** The loader's position check says NaN entries are skipped. They are not: one
      NaN position read makes the whole load fail, after the entities were replaced
      by those before it, with the next id still at its old value. */
  lemma NaNPositionFailsLoad(world: map<U32, ServerEntity>, order: seq<U32>, weather: I32, before: State, k: nat)
    requires KeyIsId(world) && Enumerates(order, world.Keys)
    requires k < Scanned(world, order) && AllReadable(world, order[..k])
    requires order[k] in world && world[order[k]].position.x.NaN?
    ensures Load(before, Document(world, order, Num(0.5), weather)) ==
      (false, before.(entities := Survivors(world, order[..k])))
  {
    hide Load, Document, LoadAll, WriteAll, Restored, InRange, Survivors, Scanned;
    Listed(world, order);
    FailureIsKept(world, order, k);
    LoadDocument(world, order, Num(0.5), weather, before);
  }

  predicate Placed(e: ServerEntity) {
    InRange(e.position) && e.zone == ZoneOf(e.position)
  }

  /** Whatever the file holds, at most 2048 entities are loaded, each under its own id. */
  lemma {:induction false} LoadIsCapped(items: seq<Json>)
    ensures var l := LoadAll(items);
      && |l.entities| <= l.loaded <= MAX_SYNC_ENTITIES && KeyIsId(l.entities)
      && (forall id :: id in l.entities ==> id <= l.maxId && Placed(l.entities[id]))
  {
    hide Placed, ReadEntity;
    if items != [] {
      var l, e := LoadAll(items[..|items| - 1]), items[|items| - 1];
      LoadIsCapped(items[..|items| - 1]);
      ReadIsPlaced(e);
      if ReadEntity(e).Entity? {
        AddsAtMostOne(l.entities, ReadEntity(e).entity);
      }
    }
  }

  lemma AddsAtMostOne(m: map<U32, ServerEntity>, x: ServerEntity)
    ensures |m[x.id := x]| <= |m| + 1
  {
    assert m[x.id := x].Keys == m.Keys + {x.id};
    assert |m[x.id := x]| == |m[x.id := x].Keys| && |m| == |m.Keys|;
  }

  lemma ReadIsPlaced(e: Json)
    ensures ReadEntity(e).Entity? ==> Placed(ReadEntity(e).entity)
  {
    hide InRange, ZoneOf, Vec, Rotation, ReadHealth, ReadEquipment, ToU32, ToInt;
  }

  // ---- The document itself -------------------------------------------------------------

  /** The number that stands for f; NaN and the infinities have none. */
  ghost predicate Written(j: Json, f: Float) {
    j == if f.Num? then Real(f.v) else Null
  }

  ghost predicate WrittenFloats(j: Json, fs: seq<Float>) {
    j.Arr? && |j.items| == |fs| && forall i :: 0 <= i < |fs| ==> Written(j.items[i], fs[i])
  }

  ghost predicate WrittenInts(j: Json, xs: seq<U32>) {
    j.Arr? && |j.items| == |xs| && forall i :: 0 <= i < |xs| ==> j.items[i] == Int(xs[i])
  }

  /** j holds the eleven saved fields of e under their names, the quaternion with its
      real part first. */
  ghost predicate Describes(j: Json, e: ServerEntity) {
    && j.Obj?
    && j.fields.Keys == {"id", "type", "owner", "templateId", "factionId", "position", "rotation", "alive", "health",
                         "templateName", "equipment"}
    && j.fields["id"] == Int(e.id) && j.fields["type"] == Int(e.kind) && j.fields["owner"] == Int(e.owner)
    && j.fields["templateId"] == Int(e.templateId) && j.fields["factionId"] == Int(e.factionId)
    && WrittenFloats(j.fields["position"], [e.position.x, e.position.y, e.position.z])
    && WrittenFloats(j.fields["rotation"], [e.rotation.w, e.rotation.x, e.rotation.y, e.rotation.z])
    && j.fields["alive"] == Bool(e.alive) && WrittenFloats(j.fields["health"], e.health)
    && j.fields["templateName"] == Str(e.templateName) && WrittenInts(j.fields["equipment"], e.equipment)
  }

  lemma EntityDescribed(e: ServerEntity)
    ensures Describes(WriteEntity(e), e)
  {
  }

  /** The document lists every entity once, in walking order. */
  lemma {:induction false} DocumentInOrder(world: map<U32, ServerEntity>, order: seq<U32>)
    requires AllListed(world, order)
    ensures var items := WriteAll(world, order);
      |items| == |order| && forall i :: 0 <= i < |order| ==> Describes(items[i], world[order[i]])
  {
    hide Describes, WriteEntity;
    if order != [] {
      var front, id := order[..|order| - 1], order[|order| - 1];
      DocumentInOrder(world, front);
      EntityDescribed(world[id]);
      assert forall i :: 0 <= i < |front| ==> front[i] == order[i];
    }
  }

  // ---- Incomplete documents --------------------------------------------------------------

  lemma {:induction false} ReadFloatsExact(items: seq<Json>, init: seq<Float>, k: nat)
    requires k <= |items| && k <= |init|
    ensures var r := ReadFloats(items, init, k);
      && (r.Some? <==> forall i :: 0 <= i < k ==> ToFloat(items[i]).Some?)
      && (r.Some? ==> forall i :: 0 <= i < |init| ==>
            r.value[i] == if i < k then ToFloat(items[i]).value else init[i])
  {
    hide ToFloat;
    if k > 0 {
      ReadFloatsExact(items, init, k - 1);
    }
  }

  lemma {:induction false} ReadU32sExact(items: seq<Json>, init: seq<U32>, k: nat)
    requires k <= |items| && k <= |init|
    ensures var r := ReadU32s(items, init, k);
      && (r.Some? <==> forall i :: 0 <= i < k ==> ToU32(items[i]).Some?)
      && (r.Some? ==> forall i :: 0 <= i < |init| ==>
            r.value[i] == if i < k then ToU32(items[i]).value else init[i])
  {
    hide ToU32;
    if k > 0 {
      ReadU32sExact(items, init, k - 1);
    }
  }

  /** Arrays of any length are read: values beyond the seven parts or fourteen slots
      are ignored, parts that are missing are at 100, and slots that are missing empty. */
  lemma ShortArrays(items: seq<Json>)
    ensures var r := ReadHealth(Arr(items));
      && (r.Some? <==> forall i :: 0 <= i < |items| && i < 7 ==> ToFloat(items[i]).Some?)
      && (r.Some? ==> forall i :: 0 <= i < 7 ==>
            r.value[i] == if i < |items| then ToFloat(items[i]).value else Num(100.0))
    ensures var r := ReadEquipment(Arr(items));
      && (r.Some? <==> forall i :: 0 <= i < |items| && i < 14 ==> ToU32(items[i]).Some?)
      && (r.Some? ==> forall i :: 0 <= i < 14 ==>
            r.value[i] == if i < |items| then ToU32(items[i]).value else 0)
  {
    hide ToFloat, ToU32;
    ReadFloatsExact(items, DEFAULT_HEALTH, Min(7, |items|));
    ReadU32sExact(items, NO_EQUIPMENT, Min(14, |items|));
  }

  /** An entity written without life, health, name and equipment is alive, unhurt,
      nameless and bare. The identifying numbers, the position and the rotation have
      no default: without one of them the load fails. */
  lemma AbsentFields(e: Json)
    ensures e.Obj? && ReadEntity(e).Entity? ==>
      var x := ReadEntity(e).entity;
      && ("alive" !in e.fields ==> x.alive) && ("templateName" !in e.fields ==> x.templateName == "")
      && ("health" !in e.fields ==> forall i :: 0 <= i < 7 ==> x.health[i] == Num(100.0))
      && ("equipment" !in e.fields ==> forall i :: 0 <= i < 14 ==> x.equipment[i] == 0)
    ensures (exists k :: k in {"id", "type", "owner", "templateId", "factionId", "position"} && Field(e, k) == Null) ==>
      ReadEntity(e).Thrown?
    ensures Field(e, "rotation") == Null ==> !ReadEntity(e).Entity?
  {
    hide InRange, ZoneOf;
    ShortArrays([]);
    NoItems();
  }

  lemma NoItems()
    ensures ReadHealth(Null) == ReadHealth(Arr([])) && ReadEquipment(Null) == ReadEquipment(Arr([]))
    ensures Vec(Null) == None && Rotation(Null) == None && ToInt(Null) == None && ToU32(Null) == None
  {
  }

  /** Time defaults to noon and the weather to 0; a document without entities clears
      the world, and the next id starts over at 1. */
  lemma AbsentState(before: State, doc: Json)
    requires doc.Obj? && "entities" !in doc.fields
    ensures "timeOfDay" !in doc.fields && "weather" !in doc.fields ==>
      Load(before, doc) == (true, State(map[], Num(0.5), 0, 1))
    ensures Load(before, doc).0 ==> Load(before, doc).1.entities == map[] && Load(before, doc).1.nextEntityId == 1
  {
    NothingLoaded();
  }

  // ---- Names that can be written -----------------------------------------------------------

  /** A Unicode scalar value. */
  predicate Scalar(c: int) {
    0 <= c < 0xD800 || 0xE000 <= c < 0x11_0000
  }

  function Encoded(c: int): string
    requires Scalar(c)
  {
    if c < 0x80 then [c as char]
    else if c < 0x800 then [(0xC0 + c / 64) as char, (0x80 + c % 64) as char]
    else if c < 0x1_0000 then [(0xE0 + c / 64 / 64) as char, (0x80 + c / 64 % 64) as char, (0x80 + c % 64) as char]
    else [(0xF0 + c / 64 / 64 / 64) as char, (0x80 + c / 64 / 64 % 64) as char, (0x80 + c / 64 % 64) as char,
          (0x80 + c % 64) as char]
  }

  function EncodedAll(cs: seq<int>): string
    requires forall i :: 0 <= i < |cs| ==> Scalar(cs[i])
  {
    if cs == [] then "" else Encoded(cs[0]) + EncodedAll(cs[1..])
  }

  lemma TwoBytes(b: int, d: int)
    requires 0xC2 <= b <= 0xDF && 0x80 <= d <= 0xBF
    ensures var c := (b - 0xC0) * 64 + (d - 0x80); Scalar(c) && Encoded(c) == [b as char, d as char]
  {
  }

  lemma ThreeBytes(b: int, d: int, e: int)
    requires 0xE0 <= b <= 0xEF && 0x80 <= d <= 0xBF && 0x80 <= e <= 0xBF
    requires (b == 0xE0 ==> d >= 0xA0) && (b == 0xED ==> d <= 0x9F)
    ensures var c := (b - 0xE0) * 4096 + (d - 0x80) * 64 + (e - 0x80);
      Scalar(c) && Encoded(c) == [b as char, d as char, e as char]
  {
  }

  lemma FourBytes(b: int, d: int, e: int, f: int)
    requires 0xF0 <= b <= 0xF4 && 0x80 <= d <= 0xBF && 0x80 <= e <= 0xBF && 0x80 <= f <= 0xBF
    requires (b == 0xF0 ==> d >= 0x90) && (b == 0xF4 ==> d <= 0x8F)
    ensures var c := (b - 0xF0) * 262144 + (d - 0x80) * 4096 + (e - 0x80) * 64 + (f - 0x80);
      Scalar(c) && Encoded(c) == [b as char, d as char, e as char, f as char]
  {
    var c2 := (b - 0xF0) * 64 + (d - 0x80);
    var c1 := c2 * 64 + (e - 0x80);
    var c := c1 * 64 + (f - 0x80);
    SixBits(c1, f - 0x80);
    SixBits(c2, e - 0x80);
    SixBits(b - 0xF0, d - 0x80);
  }

  lemma SixBits(q: int, r: int)
    requires 0 <= r < 64
    ensures (q * 64 + r) / 64 == q && (q * 64 + r) % 64 == r
  {
  }

  lemma ContinuesAt(s: string, n: nat)
    requires s != [] && Continues(s[1..], n)
    ensures n < |s| && forall i :: 1 <= i <= n ==> 0x80 <= s[i] as int <= 0xBF
  {
    forall i | 1 <= i <= n ensures 0x80 <= s[i] as int <= 0xBF {
      assert s[1..][i - 1] == s[i];
    }
  }

  /** The scalar value that starts s. */
  lemma Decoded(s: string) returns (c: int)
    requires s != [] && Utf8(s)
    ensures Scalar(c) && Encoded(c) <= s && Utf8(s[|Encoded(c)|..])
  {
    hide Encoded, Scalar, Continues;
    var b := s[0] as int;
    if b < 0x80 {
      c := b;
      OneByte(b);
    } else if b <= 0xDF {
      ContinuesAt(s, 1);
      c := (b - 0xC0) * 64 + (s[1] as int - 0x80);
      TwoBytes(b, s[1] as int);
    } else if b <= 0xEF {
      ContinuesAt(s, 2);
      c := (b - 0xE0) * 4096 + (s[1] as int - 0x80) * 64 + (s[2] as int - 0x80);
      ThreeBytes(b, s[1] as int, s[2] as int);
    } else {
      ContinuesAt(s, 3);
      c := (b - 0xF0) * 262144 + (s[1] as int - 0x80) * 4096 + (s[2] as int - 0x80) * 64 + (s[3] as int - 0x80);
      FourBytes(b, s[1] as int, s[2] as int, s[3] as int);
    }
  }

  lemma OneByte(b: int)
    requires 0 <= b < 0x80
    ensures Scalar(b) && Encoded(b) == [b as char]
  {
  }

  lemma EncodingIsUtf8(c: int, rest: string)
    requires Scalar(c) && Utf8(rest)
    ensures Utf8(Encoded(c) + rest)
  {
    var s := Encoded(c) + rest;
    if c >= 0x80 {
      assert s[1..][..|Encoded(c)| - 1] == Encoded(c)[1..];
      assert Continues(s[1..], |Encoded(c)| - 1);
    }
    assert s[|Encoded(c)|..] == rest;
  }

  /** A name is accepted by the serializer exactly when it is the encoding of a
      sequence of Unicode scalar values. */
  lemma {:induction false} Utf8Exact(s: string)
    ensures Utf8(s) <==> exists cs: seq<int> :: (forall i :: 0 <= i < |cs| ==> Scalar(cs[i])) && s == EncodedAll(cs)
  {
    if Utf8(s) {
      var cs := DecodedAll(s);
    }
    if cs: seq<int> :| (forall i :: 0 <= i < |cs| ==> Scalar(cs[i])) && s == EncodedAll(cs) {
      EncodingsAreUtf8(cs);
    }
  }

  lemma {:induction false} DecodedAll(s: string) returns (cs: seq<int>)
    requires Utf8(s)
    ensures (forall i :: 0 <= i < |cs| ==> Scalar(cs[i])) && s == EncodedAll(cs)
    decreases |s|
  {
    cs := [];
    if s != [] {
      var c := Decoded(s);
      var rest := DecodedAll(s[|Encoded(c)|..]);
      cs := [c] + rest;
    }
  }

  lemma {:induction false} EncodingsAreUtf8(cs: seq<int>)
    requires forall i :: 0 <= i < |cs| ==> Scalar(cs[i])
    ensures Utf8(EncodedAll(cs))
  {
    if cs != [] {
      EncodingsAreUtf8(cs[1..]);
      EncodingIsUtf8(cs[0], EncodedAll(cs[1..]));
    }
  }

  // ---- The object ---------------------------------------------------------------------------

  class WorldStore {
    var entities: map<U32, ServerEntity>
    var timeOfDay: Float
    var weather: I32
    var nextEntityId: U32

    ghost function View(): State
      reads this
    {
      State(entities, timeOfDay, weather, nextEntityId)
    }

    constructor (timeOfDay: Float)
      ensures View() == State(map[], timeOfDay, 0, 1)
    {
      entities := map[];
      this.timeOfDay := timeOfDay;
      weather, nextEntityId := 0, 1;
    }

    /** None: the serializer throws, and the previous file stays. */
    method SaveWorld(order: seq<U32>) returns (doc: Option<Json>)
      requires Enumerates(order, entities.Keys)
      ensures doc == if Writable(entities) then Some(Document(entities, order, timeOfDay, weather)) else None
    {
      hide WriteEntity, Utf8;
      var entityArray := [];
      var writable := true;
      for i := 0 to |order|
        invariant entityArray == WriteAll(entities, order[..i])
        invariant writable <==> forall j :: 0 <= j < i ==> order[j] in entities && Utf8(entities[order[j]].templateName)
      {
        assert order[i] in entities.Keys && order[..i + 1][..i] == order[..i];
        var entity := entities[order[i]];
        entityArray := entityArray + [WriteEntity(entity)];
        writable := writable && Utf8(entity.templateName);
      }
      assert order[..|order|] == order;
      assert forall id :: id in entities ==> id in entities.Keys && id in order;
      assert forall j :: 0 <= j < |order| ==> order[j] in entities.Keys;
      if !writable {
        return None;
      }
      return Some(Obj(map["version" := Int(1), "timeOfDay" := JFloat(timeOfDay), "weather" := Int(weather),
                          "entities" := Arr(entityArray)]));
    }

    method LoadWorld(doc: Json) returns (ok: bool)
      modifies this
      ensures (ok, View()) == Load(old(View()), doc)
    {
      hide ReadEntity, LoadAll, InRange;
      if !doc.Obj? {
        return false;
      }
      var time := FloatOr(doc, "timeOfDay", Num(0.5));
      var sky := IntOr(doc, "weather", 0);
      if time.None? || sky.None? {
        return false;
      }
      entities := map[];
      var maxId: U32 := 0;
      var loadedCount := 0;
      var items := Elements(Field(doc, "entities"));
      var i := 0;
      NothingLoaded();
      while i < |items|
        invariant i <= |items| && Loading(entities, maxId, loadedCount, Going) == LoadAll(items[..i])
        invariant timeOfDay == old(timeOfDay) && weather == old(weather) && nextEntityId == old(nextEntityId)
      {
        NextItem(items, i);
        if loadedCount >= MAX_SYNC_ENTITIES {
          StoppedStays(items, i + 1);
          break;
        }
        var read := ReadEntity(items[i]);
        i := i + 1;
        if read.Thrown? {
          StoppedStays(items, i);
          return false;
        }
        if read.Skipped? {
          if read.id > maxId {
            maxId := read.id;
          }
          continue;
        }
        entities := entities[read.entity.id := read.entity];
        if read.entity.id > maxId {
          maxId := read.entity.id;
        }
        loadedCount := loadedCount + 1;
      }
      assert items[..|items|] == items;
      assert LoadAll(items).entities == entities && LoadAll(items).maxId == maxId && LoadAll(items).status != Failed;
      timeOfDay := time.value;
      weather := sky.value;
      nextEntityId := if maxId == 0xFFFF_FFFF then 0 else maxId + 1;
      return true;
    }
  }

  lemma NothingLoaded()
    ensures LoadAll([]) == Loading(map[], 0, 0, Going)
  {
  }

  lemma NextItem(items: seq<Json>, i: nat)
    requires i < |items|
    ensures LoadAll(items[..i + 1]) == LoadOne(LoadAll(items[..i]), items[i])
  {
    assert items[..i + 1][..i] == items[..i];
  }

  lemma {:induction false} StoppedStays(items: seq<Json>, i: nat)
    requires i <= |items| && (LoadAll(items[..i]).status != Going || i == |items|)
    ensures LoadAll(items) == LoadAll(items[..i])
  {
    if i < |items| {
      assert items[..|items| - 1][..i] == items[..i];
      StoppedStays(items[..|items| - 1], i);
    } else {
      assert items[..i] == items;
    }
  }
}
