/** The zone population index and the interest queries, against scans of the
    entity map. Walking orders of hash maps are parameters. */
module ZoneIndex {
  import opened Base

  type U64 = x: int | 0 <= x < 0x1_0000_0000_0000_0000

  /** What the zone code reads of an entity. */
  datatype Placed = Placed(owner: U32, zone: Zone)

  predicate Int32(x: int) {
    -0x8000_0000 <= x < 0x8000_0000
  }

  predicate ZoneOk(z: Zone) {
    Int32(z.x) && Int32(z.y)
  }

  // ---- The 64-bit key ------------------------------------------------------------------

  function Unsigned(x: int): U32
    requires Int32(x)
  {
    if x < 0 then x + 0x1_0000_0000 else x
  }

  function Signed(u: U32): int {
    if u >= 0x8000_0000 then u - 0x1_0000_0000 else u
  }

  /** x in the high word, y in the low word; the two do not overlap. */
  function ZoneKey(z: Zone): U64
    requires ZoneOk(z)
  {
    Unsigned(z.x) * 0x1_0000_0000 + Unsigned(z.y)
  }

  function ZoneFromKey(key: U64): (z: Zone)
    ensures ZoneOk(z)
  {
    Zone(Signed(key / 0x1_0000_0000), Signed(key % 0x1_0000_0000))
  }

  /** Packing and unpacking are inverse both ways, negative coordinates included. */
  lemma KeyInvertible(z: Zone, key: U64)
    requires ZoneOk(z)
    ensures ZoneFromKey(ZoneKey(z)) == z && ZoneKey(ZoneFromKey(key)) == key
  {
    var hi, lo := Unsigned(z.x), Unsigned(z.y);
    var k := ZoneKey(z);
    assert k == 0x1_0000_0000 * (k / 0x1_0000_0000) + k % 0x1_0000_0000;
    assert key == 0x1_0000_0000 * (key / 0x1_0000_0000) + key % 0x1_0000_0000;
    assert k / 0x1_0000_0000 == hi && k % 0x1_0000_0000 == lo;
  }

  // ---- Scans ---------------------------------------------------------------------------

  ghost predicate AllOk(entities: map<U32, Placed>) {
    forall id :: id in entities ==> ZoneOk(entities[id].zone)
  }

  function InZone(entities: map<U32, Placed>, z: Zone): set<U32> {
    set id | id in entities && entities[id].zone == z
  }

  function Near(entities: map<U32, Placed>, center: Zone): set<U32> {
    set id | id in entities && Adjacent(center, entities[id].zone)
  }

  /** How many of the listed entities are in z. */
  function Tally(entities: map<U32, Placed>, order: seq<U32>, z: Zone): nat {
    if order == [] then 0
    else
      var id := order[|order| - 1];
      Tally(entities, order[..|order| - 1], z) + (if id in entities && entities[id].zone == z then 1 else 0)
  }

  function Listed(entities: map<U32, Placed>, order: seq<U32>, z: Zone): set<U32> {
    set id | id in order && id in entities && entities[id].zone == z
  }

  lemma {:induction false} TallyIsScan(entities: map<U32, Placed>, order: seq<U32>, z: Zone)
    requires forall i, j :: 0 <= i < j < |order| ==> order[i] != order[j]
    ensures Tally(entities, order, z) == |Listed(entities, order, z)|
  {
    hide Listed;
    if order == [] {
      ListedNone(entities, z);
    } else {
      TallyIsScan(entities, order[..|order| - 1], z);
      ListedSnoc(entities, order, z);
    }
  }

  lemma ListedNone(entities: map<U32, Placed>, z: Zone)
    ensures Listed(entities, [], z) == {}
  {
  }

  lemma ListedSnoc(entities: map<U32, Placed>, order: seq<U32>, z: Zone)
    requires order != [] && order[|order| - 1] !in order[..|order| - 1]
    ensures var rest, id := order[..|order| - 1], order[|order| - 1];
      |Listed(entities, order, z)| == |Listed(entities, rest, z)| + (if id in entities && entities[id].zone == z then 1 else 0)
  {
    var rest, id := order[..|order| - 1], order[|order| - 1];
    assert forall x :: x in order <==> x in rest || x == id;
    assert id !in Listed(entities, rest, z);
    assert Listed(entities, order, z) ==
      if id in entities && entities[id].zone == z then Listed(entities, rest, z) + {id} else Listed(entities, rest, z);
  }

  lemma TallyIsPopulation(entities: map<U32, Placed>, order: seq<U32>, z: Zone)
    requires Enumerates(order, entities.Keys)
    ensures Tally(entities, order, z) == |InZone(entities, z)|
  {
    TallyIsScan(entities, order, z);
    assert forall id :: id in entities ==> id in entities.Keys && id in order;
    assert InZone(entities, z) == Listed(entities, order, z);
  }

  /** The index as RebuildIndex leaves it after walking `order`. */
  ghost predicate Indexes(population: map<U64, nat>, entities: map<U32, Placed>, order: seq<U32>) {
    && (forall key :: key in population ==> population[key] == Tally(entities, order, ZoneFromKey(key)) > 0)
    && (forall z :: ZoneOk(z) && Tally(entities, order, z) > 0 ==> ZoneKey(z) in population)
  }

  lemma IndexStep(population: map<U64, nat>, entities: map<U32, Placed>, order: seq<U32>, id: U32)
    requires Indexes(population, entities, order) && id in entities && ZoneOk(entities[id].zone)
    ensures var key := ZoneKey(entities[id].zone);
      Indexes(population[key := (if key in population then population[key] else 0) + 1], entities, order + [id])
  {
    hide ZoneKey, ZoneFromKey, ZoneOk, Tally;
    var zone := entities[id].zone;
    var key := ZoneKey(zone);
    var after := population[key := (if key in population then population[key] else 0) + 1];
    KeyInvertible(zone, 0);
    forall z: Zone
      ensures Tally(entities, order + [id], z) == Tally(entities, order, z) + (if zone == z then 1 else 0)
    {
      TallySnoc(entities, order, id, z);
    }
    forall k | k in after && k != key ensures ZoneFromKey(k) != zone {
      KeyInvertible(zone, k);
    }
  }

  lemma NothingIndexed(entities: map<U32, Placed>)
    ensures Indexes(map[], entities, [])
  {
    forall z: Zone ensures Tally(entities, [], z) == 0 {
      NothingTallied(entities, z);
    }
  }

  lemma IndexIsCurrent(population: map<U64, nat>, entities: map<U32, Placed>, order: seq<U32>)
    requires Indexes(population, entities, order) && Enumerates(order, entities.Keys)
    ensures Current(population, entities)
  {
    hide Tally, ZoneKey, ZoneFromKey, InZone;
    forall z: Zone ensures Tally(entities, order, z) == |InZone(entities, z)| {
      TallyIsPopulation(entities, order, z);
    }
  }

  lemma TallySnoc(entities: map<U32, Placed>, order: seq<U32>, id: U32, z: Zone)
    ensures Tally(entities, order + [id], z) ==
      Tally(entities, order, z) + (if id in entities && entities[id].zone == z then 1 else 0)
  {
    assert (order + [id])[..|order|] == order;
  }

  // ---- Nine zones ------------------------------------------------------------------------

  function Nine(c: Zone): (zs: seq<Zone>)
    ensures |zs| == 9
  {
    [Zone(c.x - 1, c.y - 1), Zone(c.x - 1, c.y), Zone(c.x - 1, c.y + 1),
     Zone(c.x, c.y - 1), Zone(c.x, c.y), Zone(c.x, c.y + 1),
     Zone(c.x + 1, c.y - 1), Zone(c.x + 1, c.y), Zone(c.x + 1, c.y + 1)]
  }

  lemma NineAreAdjacent(c: Zone)
    ensures forall z :: z in Nine(c) <==> Adjacent(c, z)
    ensures forall i, j :: 0 <= i < j < 9 ==> Nine(c)[i] != Nine(c)[j]
  {
    forall z ensures z in Nine(c) <==> Adjacent(c, z) {
      if Adjacent(c, z) {
        assert z == Nine(c)[3 * (z.x - c.x + 1) + (z.y - c.y + 1)];
      }
    }
  }

  function Populations(entities: map<U32, Placed>, zs: seq<Zone>): nat {
    if zs == [] then 0 else Populations(entities, zs[..|zs| - 1]) + |InZone(entities, zs[|zs| - 1])|
  }

  function InZones(entities: map<U32, Placed>, zs: seq<Zone>): set<U32> {
    set id | id in entities && entities[id].zone in zs
  }

  lemma {:induction false} DisjointZones(entities: map<U32, Placed>, zs: seq<Zone>)
    requires forall i, j :: 0 <= i < j < |zs| ==> zs[i] != zs[j]
    ensures Populations(entities, zs) == |InZones(entities, zs)|
  {
    hide InZones, InZone;
    if zs == [] {
      NoZones(entities);
    } else {
      DisjointZones(entities, zs[..|zs| - 1]);
      OneMoreZone(entities, zs);
    }
  }

  lemma NoZones(entities: map<U32, Placed>)
    ensures InZones(entities, []) == {}
  {
  }

  lemma OneMoreZone(entities: map<U32, Placed>, zs: seq<Zone>)
    requires zs != [] && zs[|zs| - 1] !in zs[..|zs| - 1]
    ensures |InZones(entities, zs)| == |InZones(entities, zs[..|zs| - 1])| + |InZone(entities, zs[|zs| - 1])|
  {
    var rest, z := zs[..|zs| - 1], zs[|zs| - 1];
    assert forall y :: y in zs <==> y in rest || y == z;
    assert InZones(entities, zs) == InZones(entities, rest) + InZone(entities, z);
    assert InZones(entities, rest) !! InZone(entities, z);
  }

  /** An entity is near a zone exactly when it is in one of the nine around it, and
      is then in no other: the nine populations add up to the number nearby. */
  lemma NearIsDisjointUnion(entities: map<U32, Placed>, center: Zone)
    ensures forall id :: id in Near(entities, center) <==> exists i :: 0 <= i < 9 && id in InZone(entities, Nine(center)[i])
    ensures forall i, j :: 0 <= i < j < 9 ==>
      InZone(entities, Nine(center)[i]) !! InZone(entities, Nine(center)[j])
    ensures |Near(entities, center)| == Populations(entities, Nine(center))
  {
    hide Nine, Adjacent;
    NineAreAdjacent(center);
    DisjointZones(entities, Nine(center));
    assert Near(entities, center) == InZones(entities, Nine(center));
    forall id | id in Near(entities, center)
      ensures exists i :: 0 <= i < 9 && id in InZone(entities, Nine(center)[i])
    {
      var i :| 0 <= i < 9 && Nine(center)[i] == entities[id].zone;
      assert id in InZone(entities, Nine(center)[i]);
    }
  }

  /** The index holds what a scan of the entities finds, for every int32 zone. */
  ghost predicate Current(population: map<U64, nat>, entities: map<U32, Placed>) {
    && (forall key :: key in population ==> population[key] == |InZone(entities, ZoneFromKey(key))| > 0)
    && (forall z :: ZoneOk(z) && InZone(entities, z) != {} ==> ZoneKey(z) in population)
  }

  lemma CountsPositive(population: map<U64, nat>, entities: map<U32, Placed>, key: U64)
    requires Current(population, entities) && key in population
    ensures population[key] > 0
  {
  }

  // ---- The object --------------------------------------------------------------------------

  class ZoneManager {
    var population: map<U64, nat>

    constructor ()
      ensures population == map[]
    {
      population := map[];
    }

    method RebuildIndex(entities: map<U32, Placed>, order: seq<U32>)
      requires Enumerates(order, entities.Keys) && AllOk(entities)
      modifies this
      ensures Current(population, entities)
    {
      hide Tally, ZoneKey, ZoneFromKey, InZone, Indexes, Current;
      population := map[];
      NothingIndexed(entities);
      for i := 0 to |order|
        invariant Indexes(population, entities, order[..i])
      {
        assert order[i] in entities.Keys && order[..i + 1] == order[..i] + [order[i]];
        IndexStep(population, entities, order[..i], order[i]);
        var key := ZoneKey(entities[order[i]].zone);
        population := population[key := (if key in population then population[key] else 0) + 1];
      }
      assert order[..|order|] == order;
      IndexIsCurrent(population, entities, order);
    }

    method GetZonePopulation(zone: Zone, ghost entities: map<U32, Placed>) returns (n: nat)
      requires ZoneOk(zone) && Current(population, entities)
      ensures n == |InZone(entities, zone)|
    {
      hide InZone, ZoneKey, ZoneFromKey;
      var key := ZoneKey(zone);
      KeyInvertible(zone, key);
      if key in population {
        return population[key];
      }
      return 0;
    }

    /** Every populated zone, each listed once. */
    method GetPopulatedZones(order: seq<U64>, ghost entities: map<U32, Placed>) returns (zones: seq<Zone>)
      requires Enumerates(order, population.Keys) && Current(population, entities) && AllOk(entities)
      ensures forall z :: z in zones <==> InZone(entities, z) != {}
      ensures forall i, j :: 0 <= i < j < |zones| ==> zones[i] != zones[j]
    {
      hide ZoneKey, ZoneFromKey, InZone, ZoneOk, Current, AllOk;
      zones := [];
      for i := 0 to |order|
        invariant |zones| == i && forall j :: 0 <= j < i ==> zones[j] == ZoneFromKey(order[j])
      {
        assert order[i] in population.Keys;
        CountsPositive(population, entities, order[i]);
        if population[order[i]] > 0 {
          zones := zones + [ZoneFromKey(order[i])];
        }
      }
      ListedOnce(order, zones);
      forall z ensures z in zones <==> InZone(entities, z) != {} {
        ListedIff(population, order, zones, entities, z);
      }
    }
  }

  lemma NothingTallied(entities: map<U32, Placed>, z: Zone)
    ensures Tally(entities, [], z) == 0
  {
  }

  lemma ListedOnce(order: seq<U64>, zones: seq<Zone>)
    requires |zones| == |order| && forall j :: 0 <= j < |order| ==> zones[j] == ZoneFromKey(order[j])
    requires forall i, j :: 0 <= i < j < |order| ==> order[i] != order[j]
    ensures forall i, j :: 0 <= i < j < |zones| ==> zones[i] != zones[j]
  {
    hide ZoneKey, ZoneFromKey;
    forall i, j | 0 <= i < j < |zones| ensures zones[i] != zones[j] {
      KeyInvertible(zones[i], order[i]);
      KeyInvertible(zones[j], order[j]);
    }
  }

  lemma ListedIff(population: map<U64, nat>, order: seq<U64>, zones: seq<Zone>, entities: map<U32, Placed>, z: Zone)
    requires Enumerates(order, population.Keys) && AllOk(entities)
    requires Current(population, entities)
    requires |zones| == |order| && forall j :: 0 <= j < |order| ==> zones[j] == ZoneFromKey(order[j])
    ensures z in zones <==> InZone(entities, z) != {}
  {
    hide ZoneKey, ZoneFromKey, ZoneOk;
    if z in zones {
      var j :| 0 <= j < |zones| && zones[j] == z;
      assert order[j] in population.Keys;
    }
    if InZone(entities, z) != {} {
      var id :| id in InZone(entities, z);
      assert ZoneOk(z);
      KeyInvertible(z, 0);
      assert ZoneKey(z) in population.Keys && ZoneKey(z) in order;
      var j :| 0 <= j < |order| && order[j] == ZoneKey(z);
      assert zones[j] == z;
    }
  }

  /** The 3x3 block, row by row. */
  method GetAdjacentZones(center: Zone) returns (zones: seq<Zone>)
    ensures zones == Nine(center)
  {
    zones := [];
    var dx := -1;
    while dx <= 1
      invariant -1 <= dx <= 2 && zones == Nine(center)[..3 * (dx + 1)]
    {
      var dy := -1;
      while dy <= 1
        invariant -1 <= dy <= 2 && zones == Nine(center)[..3 * (dx + 1) + (dy + 1)]
      {
        zones := zones + [Zone(center.x + dx, center.y + dy)];
        dy := dy + 1;
      }
      dx := dx + 1;
    }
  }

  /** Each nearby entity of another owner, listed once, and nothing else. */
  method GetRelevantEntities(entities: map<U32, Placed>, order: seq<U32>, player: U32, zone: Zone)
    returns (result: seq<U32>)
    requires Enumerates(order, entities.Keys)
    ensures forall id :: id in result <==> id in Near(entities, zone) && entities[id].owner != player
    ensures forall i, j :: 0 <= i < j < |result| ==> result[i] != result[j]
  {
    hide Adjacent;
    result := [];
    for i := 0 to |order|
      invariant forall id :: id in result <==> id in order[..i] && id in Near(entities, zone) && entities[id].owner != player
      invariant forall j, k :: 0 <= j < k < |result| ==> result[j] != result[k]
    {
      var id := order[i];
      assert id in entities.Keys && id !in order[..i] && order[..i + 1] == order[..i] + [id];
      var entity := entities[id];
      if entity.owner == player { continue; }
      if Adjacent(zone, entity.zone) {
        result := result + [id];
      }
    }
    assert forall id :: id in entities ==> id in entities.Keys && id in order[..|order|];
  }
}
