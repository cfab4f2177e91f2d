/** Combat resolution on the dedicated server (combat_resolver.cpp). The random
    draws are a Dice value supplied by the environment. */
module Combat {
  import opened Base

  datatype BodyPart = Head | Chest | Stomach | LeftArm | RightArm | LeftLeg | RightLeg

  /** Value of the BodyPart enumerator. */
  function Index(p: BodyPart): nat {
    match p
    case Head => 0
    case Chest => 1
    case Stomach => 2
    case LeftArm => 3
    case RightArm => 4
    case LeftLeg => 5
    case RightLeg => 6
  }

  /** One draw: the body part roll, the damage factor and the block roll. */
  datatype Dice = Dice(roll: Roll, factor: real, block: real)

  type Roll = r: int | 1 <= r <= 100 witness 1

  predicate DiceOk(d: Dice) {
    0.8 <= d.factor <= 1.2 && 0.0 <= d.block <= 1.0
  }

  const WEIGHTS: seq<(BodyPart, int)> :=
    [(Chest, 30), (Stomach, 20), (Head, 10), (LeftArm, 10), (RightArm, 10), (LeftLeg, 10), (RightLeg, 10)]

  function Weight(p: BodyPart): int {
    match p
    case Chest => 30
    case Stomach => 20
    case _ => 10
  }

  /** The half-open interval (lo, lo + Weight(p)] of rolls that select p. */
  function Low(p: BodyPart): int {
    match p
    case Chest => 0
    case Stomach => 30
    case Head => 50
    case LeftArm => 60
    case RightArm => 70
    case LeftLeg => 80
    case RightLeg => 90
  }

  function PartFor(roll: Roll): (p: BodyPart)
    ensures Low(p) < roll <= Low(p) + Weight(p)
  {
    if roll <= 30 then Chest
    else if roll <= 50 then Stomach
    else if roll <= 60 then Head
    else if roll <= 70 then LeftArm
    else if roll <= 80 then RightArm
    else if roll <= 90 then LeftLeg
    else RightLeg
  }

  /** The cumulative scan over the weight table. */
  method SelectBodyPart(roll: Roll) returns (p: BodyPart)
    ensures p == PartFor(roll)
  {
    var cumulative := 0;
    for i := 0 to |WEIGHTS|
      invariant cumulative == if i < |WEIGHTS| then Low(WEIGHTS[i].0) else 100
      invariant cumulative < roll
    {
      cumulative := cumulative + WEIGHTS[i].1;
      if roll <= cumulative {
        return WEIGHTS[i].0;
      }
    }
    return Chest;
  }

  /** The n integers after lo. */
  function Interval(lo: int, n: nat): (s: set<int>)
    ensures forall r :: r in s <==> lo < r <= lo + n
    ensures |s| == n
  {
    if n == 0 then {} else Interval(lo, n - 1) + {lo + n}
  }

  /** A uniform roll picks each part with probability Weight(p) in a hundred. */
  lemma RollsPerPart(p: BodyPart)
    ensures |set r: Roll | 1 <= r <= 100 && PartFor(r) == p| == Weight(p)
  {
    assert (set r: Roll | 1 <= r <= 100 && PartFor(r) == p) == Interval(Low(p), Weight(p));
  }

  /** Base attack 20, defence 10, even cut/blunt split, blocked hits at 30%. */
  function CutDamage(d: Dice): real {
    var total := 20.0 * d.factor * 0.9;
    var half := total * 0.5;
    if d.block < 0.2 then half * 0.3 else half
  }

  function Damage(d: Dice): real {
    CutDamage(d) + CutDamage(d)
  }

  datatype Outcome = Outcome(part: BodyPart, health: Health, wasKO: bool, wasDeath: bool)

  predicate KnockedOut(h: Health) {
    exists i :: 0 <= i < 7 && h[i] <= -50.0
  }

  predicate Fatal(h: Health) {
    h[1] <= -100.0 || h[0] <= -100.0
  }

  function Resolve(h: Health, d: Dice): (o: Outcome)
    ensures o.wasDeath ==> o.wasKO
    ensures forall i :: 0 <= i < 7 && i != Index(o.part) ==> o.health[i] == h[i]
  {
    var part := PartFor(d.roll);
    var h' := h[Index(part) := h[Index(part)] - Damage(d)];
    Outcome(part, h', KnockedOut(h'), Fatal(h'))
  }

  /** One blow in plain numbers: the part by the roll, 18 times the factor lost
      there (30% of it when the block roll is below 0.2), a knock-out at -50
      anywhere, death at -100 on head or chest. */
  lemma BlowExact(h: Health, d: Dice)
    ensures var o := Resolve(h, d);
      var k := if d.roll <= 30 then 1 else if d.roll <= 50 then 2 else if d.roll <= 60 then 0
               else if d.roll <= 70 then 3 else if d.roll <= 80 then 4 else if d.roll <= 90 then 5 else 6;
      && o.health[k] == h[k] - (if d.block < 0.2 then 5.4 * d.factor else 18.0 * d.factor)
      && (forall i :: 0 <= i < 7 && i != k ==> o.health[i] == h[i])
      && (o.wasKO <==> exists i :: 0 <= i < 7 && o.health[i] <= -50.0)
      && (o.wasDeath <==> o.health[0] <= -100.0 || o.health[1] <= -100.0)
      && (DiceOk(d) ==> o.health[k] < h[k])
  {
  }

  /** The fields of the target that ResolveCombat updates in place. */
  class Target {
    var health: array<real>
    var alive: bool

    constructor (h: Health)
      ensures fresh(health) && health.Length == 7 && health[..] == h && alive
    {
      var a := new real[7];
      for i := 0 to 7
        invariant a[..i] == h[..i]
      {
        a[i] := h[i];
      }
      health := a;
      alive := true;
      new;
      assert health[..] == h;
    }

    /** A fatal result clears the alive flag; nothing sets it again. */
    method ResolveCombat(d: Dice) returns (part: BodyPart, wasKO: bool, wasDeath: bool)
      requires health.Length == 7
      modifies this`alive, health
      ensures health.Length == 7
      ensures Outcome(part, health[..], wasKO, wasDeath) == Resolve(old(health[..]), d)
      ensures alive == (old(alive) && !wasDeath)
    {
      part := SelectBodyPart(d.roll);
      var total := 20.0 * d.factor * 0.9;
      var cut, blunt := total * 0.5, total * 0.5;
      if d.block < 0.2 {
        cut, blunt := cut * 0.3, blunt * 0.3;
      }
      health[Index(part)] := health[Index(part)] - (cut + blunt + 0.0);
      assert health[..] == Resolve(old(health[..]), d).health;
      wasKO := false;
      for i := 0 to 7
        invariant !wasKO
        invariant forall j :: 0 <= j < i ==> !(health[j] <= -50.0)
      {
        if health[i] <= -50.0 {
          wasKO := true;
          assert health[..][i] <= -50.0;
          break;
        }
      }
      assert wasKO <==> KnockedOut(health[..]) by {
        if !wasKO {
          forall j | 0 <= j < 7 ensures !(health[..][j] <= -50.0) { assert !(health[j] <= -50.0); }
        }
      }
      wasDeath := false;
      if health[1] <= -100.0 || health[0] <= -100.0 {
        wasDeath := true;
        alive := false;
      }
    }
  }

  // ---- Whole fights --------------------------------------------------------

  /** A target under attack: hits[i] counts the blows that landed on part i. */
  datatype Fight = Fight(health: Health, alive: bool, hits: Hits, dealt: real)

  type Hits = h: seq<nat> | |h| == 7 witness [0, 0, 0, 0, 0, 0, 0]

  const FRESH: Fight := Fight(FULL_HEALTH, true, [0, 0, 0, 0, 0, 0, 0], 0.0)

  /** The server ignores attacks on a target that is not alive. */
  function Strike(f: Fight, d: Dice): Fight {
    if !f.alive then f
    else
      var o := Resolve(f.health, d);
      Fight(o.health, !o.wasDeath,
            f.hits[Index(o.part) := f.hits[Index(o.part)] + 1], f.dealt + Damage(d))
  }

  predicate AllOk(ds: seq<Dice>) {
    forall d :: d in ds ==> DiceOk(d)
  }

  /** The fight after the blows ds, from full health. */
  function After(ds: seq<Dice>): Fight {
    if ds == [] then FRESH else Strike(After(ds[..|ds| - 1]), ds[|ds| - 1])
  }

  function Sum(h: Health): real {
    h[0] + h[1] + h[2] + h[3] + h[4] + h[5] + h[6]
  }

  function Blows(hits: Hits): nat {
    hits[0] + hits[1] + hits[2] + hits[3] + hits[4] + hits[5] + hits[6]
  }

  lemma DamageBounds(d: Dice)
    requires DiceOk(d)
    ensures 4.32 <= Damage(d) <= 21.6
  {
  }

  /** Bookkeeping that every fight keeps: each part lost between 4.32 and 21.6
      per blow, the total lost is the total dealt, and the target is alive
      exactly while neither head nor chest has reached -100. */
  predicate Ledger(f: Fight) {
    && (forall i :: 0 <= i < 7 ==>
      4.32 * (f.hits[i] as real) <= 100.0 - f.health[i] <= 21.6 * (f.hits[i] as real))
    && 700.0 - Sum(f.health) == f.dealt
    && (f.alive <==> !Fatal(f.health))
    && f.hits[0] <= 47 && f.hits[1] <= 47
  }

  lemma StrikeKeepsLedger(f: Fight, d: Dice)
    requires Ledger(f) && DiceOk(d)
    ensures Ledger(Strike(f, d))
  {
    if f.alive {
      DamageBounds(d);
      var g := Strike(f, d);
      var k := Index(PartFor(d.roll));
      assert g.health[k] == f.health[k] - Damage(d);
      assert g.hits[k] as real == f.hits[k] as real + 1.0;
    }
  }

  lemma {:induction false} FightLedger(ds: seq<Dice>)
    requires AllOk(ds)
    ensures Ledger(After(ds))
  {
    if ds != [] {
      FightLedger(ds[..|ds| - 1]);
      StrikeKeepsLedger(After(ds[..|ds| - 1]), ds[|ds| - 1]);
    }
  }

  /** From full health, with attacks only: damage is conserved, no fight kills
      in fewer than ten blows, at most 47 blows land on the head or on the
      chest, death means a knock-out, and a dead target takes no more damage. */
  lemma FightBounds(ds: seq<Dice>, more: Dice)
    requires AllOk(ds) && DiceOk(more)
    ensures var f := After(ds);
      && 700.0 - Sum(f.health) == f.dealt
      && (!f.alive ==> 10 <= Blows(f.hits) <= |ds| && KnockedOut(f.health) && Strike(f, more) == f)
      && f.hits[0] <= 47 && f.hits[1] <= 47
  {
    FightLedger(ds);
    BlowsAtMost(ds);
    var f := After(ds);
    if !f.alive {
      var k := if f.health[1] <= -100.0 then 1 else 0;
      assert 200.0 <= 21.6 * (f.hits[k] as real);
      assert f.hits[k] >= 10;
      assert f.health[k] <= -50.0;
    }
  }

  lemma {:induction false} BlowsAtMost(ds: seq<Dice>)
    ensures Blows(After(ds).hits) <= |ds|
  {
    if ds != [] {
      BlowsAtMost(ds[..|ds| - 1]);
    }
  }

  /** Ten is the least number of blows that kills: ten full-strength chest hits do. */
  lemma TenBlowsSuffice()
    ensures exists ds: seq<Dice> ::
      && |ds| == 10 && AllOk(ds) && !After(ds).alive
  {
    var d := Dice(1, 1.2, 1.0);
    var ds := seq(10, i => d);
    assert Damage(d) == 21.6;
    Totals(9);
    Totals(10);
    SameBlow(ds, d);
  }

  /** Forty-seven blows can land on the head, and on the chest: the weakest ones,
      all blocked, kill with the last. */
  lemma FortySevenBlowsLand(part: BodyPart) returns (ds: seq<Dice>)
    requires part == Head || part == Chest
    ensures |ds| == 47 && AllOk(ds) && After(ds).hits[Index(part)] == 47 && !After(ds).alive
  {
    var d := Dice(if part == Head then 51 else 1, 0.8, 0.0);
    ds := seq(47, i => d);
    assert Damage(d) == 4.32;
    Totals(46);
    Totals(47);
    SameBlow(ds, d);
  }

  /** The damage of n blows of strength x. */
  function Total(x: real, n: nat): real {
    if n == 0 then 0.0 else Total(x, n - 1) + x
  }

  /** For the strongest and the weakest blow. */
  lemma {:induction false} Totals(n: nat)
    ensures Total(21.6, n) == 21.6 * (n as real) && Total(4.32, n) == 4.32 * (n as real)
  {
    if n > 0 {
      Totals(n - 1);
    }
  }

  /** The same blow again and again, to the head or to the chest, until it kills. */
  lemma {:induction false} SameBlow(ds: seq<Dice>, d: Dice)
    requires PartFor(d.roll) == Head || PartFor(d.roll) == Chest
    requires forall i :: 0 <= i < |ds| ==> ds[i] == d
    requires Damage(d) > 0.0 && (ds != [] ==> Total(Damage(d), |ds| - 1) < 200.0)
    ensures var f, k := After(ds), Index(PartFor(d.roll));
      && f.health == FULL_HEALTH[k := 100.0 - Total(Damage(d), |ds|)] && f.hits[k] == |ds|
      && (f.alive <==> Total(Damage(d), |ds|) < 200.0)
  {
    hide Damage, PartFor;
    if ds == [] {
      assert FULL_HEALTH[Index(PartFor(d.roll)) := 100.0] == FULL_HEALTH;
    } else {
      var front := ds[..|ds| - 1];
      SameBlow(front, d);
      assert After(ds) == Strike(After(front), d);
      var f, k := After(front), Index(PartFor(d.roll));
      assert After(ds).health == f.health[k := f.health[k] - Damage(d)];
    }
  }
}
