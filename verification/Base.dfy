/** Values shared by every part of the model: fixed-width identifiers, floating
    point coordinates with their special values, and world zones. */
module Base {

  datatype Option<+T> = None | Some(value: T)

  /** PlayerID, EntityID and the other uint32_t fields. */
  type U32 = x: int | 0 <= x < 0x1_0000_0000

  /** Post-increment of a uint32_t counter wraps to zero. */
  function Inc32(x: U32): U32 {
    if x == 0xFFFF_FFFF then 0 else x + 1
  }

  /** A float: reals stand for the finite values, rounding is not modelled. */
  datatype Float = Num(v: real) | PosInf | NegInf | NaN

  datatype Vec3 = Vec3(x: Float, y: Float, z: Float)

  predicate CoordInRange(f: Float) {
    f.Num? && -1000000.0 <= f.v <= 1000000.0
  }

  /** The coordinate check shared by position updates, the join snapshot and
      the world loader: not NaN, not infinite, magnitude at most one million. */
  predicate InRange(p: Vec3) {
    CoordInRange(p.x) && CoordInRange(p.y) && CoordInRange(p.z)
  }

  function SubF(a: Float, b: Float): Float {
    match (a, b)
    case (Num(x), Num(y)) => Num(x - y)
    case (NaN, _) => NaN
    case (_, NaN) => NaN
    case (PosInf, PosInf) => NaN
    case (NegInf, NegInf) => NaN
    case (PosInf, _) => PosInf
    case (NegInf, _) => NegInf
    case (_, PosInf) => NegInf
    case (_, NegInf) => PosInf
  }

  /** Squared distance; NaN absorbs everything, infinity absorbs numbers. */
  function DistSq(a: Vec3, b: Vec3): Float {
    var dx, dy, dz := SubF(a.x, b.x), SubF(a.y, b.y), SubF(a.z, b.z);
    if dx.NaN? || dy.NaN? || dz.NaN? then NaN
    else if dx.Num? && dy.Num? && dz.Num? then Num(dx.v * dx.v + dy.v * dy.v + dz.v * dz.v)
    else PosInf
  }

  /** The test `distSq > limit`: false for NaN. */
  predicate Exceeds(f: Float, limit: real) {
    f.PosInf? || (f.Num? && f.v > limit)
  }

  /** KMP_MAX_SYNC_ENTITIES. */
  const MAX_SYNC_ENTITIES: nat := 2048

  datatype Zone = Zone(x: int, y: int)

  const ZONE_SIZE: real := 750.0

  /** ZoneCoord::FromWorldPos: horizontal plane x/z, zone (0,0) for non-finite input. */
  function ZoneOf(p: Vec3): Zone {
    if p.x.Num? && p.z.Num? then Zone((p.x.v / ZONE_SIZE).Floor, (p.z.v / ZONE_SIZE).Floor)
    else Zone(0, 0)
  }

  function Min(a: nat, b: nat): nat {
    if a < b then a else b
  }

  /** The first n elements, or all of them. */
  function Clip<T>(s: seq<T>, n: nat): seq<T> {
    if |s| <= n then s else s[..n]
  }

  function Abs(x: int): nat {
    if x < 0 then -x else x
  }

  /** ZoneCoord::IsAdjacent: Chebyshev distance at most one (a zone is adjacent to itself). */
  predicate Adjacent(a: Zone, b: Zone) {
    Abs(a.x - b.x) <= 1 && Abs(a.y - b.y) <= 1
  }

  type Health = h: seq<real> | |h| == 7 witness [100.0, 100.0, 100.0, 100.0, 100.0, 100.0, 100.0]

  const FULL_HEALTH: Health := [100.0, 100.0, 100.0, 100.0, 100.0, 100.0, 100.0]

  type Equipment = e: seq<U32> | |e| == 14 witness [0, 0, 0, 0, 0, 0, 0, 0, 0, 0, 0, 0, 0, 0]

  const NO_EQUIPMENT: Equipment := [0, 0, 0, 0, 0, 0, 0, 0, 0, 0, 0, 0, 0, 0]

  /** s lists every element of keys exactly once: one traversal of a hash map. */
  ghost predicate Enumerates<T(!new)>(s: seq<T>, keys: set<T>) {
    && (forall i :: 0 <= i < |s| ==> s[i] in keys)
    && (forall k :: k in keys ==> k in s)
    && (forall i, j :: 0 <= i < j < |s| ==> s[i] != s[j])
  }
}
