/** The sixteen mod templates ("Player 1" to "Player 16") found by the heap scan,
    and the slot a player's characters are spawned from. */
module ModTemplates {
  import opened Base
  import opened Decimal
  import opened Modular

  /** A pointer value; 0 is null. */
  type Ptr = nat

  const MAX_MOD_TEMPLATES: nat := 16

  datatype Candidate = Candidate(name: string, ptr: Ptr, numId: U32)

  function PlayerName(slot: nat): string {
    "Player " + Numeral(slot + 1)
  }

  lemma PlayerNameInjective(j: nat, k: nat)
    requires PlayerName(j) == PlayerName(k)
    ensures j == k
  {
    assert PlayerName(j)[7..] == Numeral(j + 1) && PlayerName(k)[7..] == Numeral(k + 1);
    NumeralInjective(j + 1, k + 1);
  }

  function NonNull(s: seq<Ptr>): (n: nat)
    ensures n <= |s|
  {
    if s == [] then 0 else NonNull(s[..|s| - 1]) + (if s[|s| - 1] != 0 then 1 else 0)
  }

  // ---- From player to slot ------------------------------------------------------------

  /** static_cast<int> of a uint32_t. */
  function AsInt(x: U32): int {
    if x < 0x8000_0000 then x else x - 0x1_0000_0000
  }

  /** The remainder of the source truncates toward zero. */
  function TruncMod(a: int, b: int): int
    requires b > 0
  {
    if a >= 0 then a % b else -(-a % b)
  }

  function ModSlot(owner: U32, count: nat): (slot: nat)
    ensures count > 0 ==> slot < count
    ensures count == 0 ==> slot == 0
  {
    var raw := if count > 0 && owner > 0 then TruncMod(AsInt(owner) - 1, count) else 0;
    if raw < 0 || raw >= count then 0 else raw
  }

  /** Players are dealt to the slots in turn, from player 1 to slot 0; ids that are
      negative as an int, and id 0, get slot 0. */
  lemma ModSlotExact(owner: U32, count: nat)
    requires count > 0
    ensures var slot := ModSlot(owner, count);
      if 0 < owner < 0x8000_0000 then exists round: nat :: owner == Dealt(round, count, slot) else slot == 0
  {
    if 0 < owner < 0x8000_0000 {
      assert owner == Dealt((owner - 1) / count, count, ModSlot(owner, count));
    }
  }

  /** The player that slot is given to in a round of the deal. */
  function Dealt(round: nat, count: nat, slot: nat): nat {
    round * count + slot + 1
  }

  /** Among `count` consecutive players no two share a slot. */
  lemma SlotsSpread(a: U32, b: U32, count: nat)
    requires 0 < count && 0 < a <= b < a + count && b < 0x8000_0000
    ensures ModSlot(a, count) == ModSlot(b, count) <==> a == b
  {
    SameIndex(a - 1, b - 1, count);
  }

  lemma {:induction false} AllOrFewer(s: seq<Ptr>, k: nat)
    requires k <= |s| && forall i :: 0 <= i < k ==> s[i] != 0
    ensures NonNull(s) >= k
    ensures NonNull(s) == k <==> forall i :: k <= i < |s| ==> s[i] == 0
  {
    if k < |s| {
      AllOrFewer(s[..|s| - 1], k);
    } else if k > 0 {
      AllOrFewer(s[..|s| - 1], k - 1);
    }
  }

  /** The slot is taken modulo the NUMBER of templates found, so every player is
      given one exactly when the found slots are the first `count`. */
  lemma EveryPlayerServedIff(s: seq<Ptr>)
    requires |s| == MAX_MOD_TEMPLATES && NonNull(s) > 0
    ensures (forall owner: U32 :: 0 < owner ==> s[ModSlot(owner, NonNull(s))] != 0)
       <==> (forall k :: 0 <= k < |s| ==> (s[k] != 0 <==> k < NonNull(s)))
  {
    var n := NonNull(s);
    if forall owner: U32 :: 0 < owner ==> s[ModSlot(owner, n)] != 0 {
      forall k | 0 <= k < n ensures s[k] != 0 {
        SmallSlot(k, n);
        var owner: U32 := k + 1;
        assert s[ModSlot(owner, n)] != 0;
      }
      AllOrFewer(s, n);
    }
  }

  lemma SmallSlot(k: nat, n: nat)
    requires k < n <= MAX_MOD_TEMPLATES
    ensures ModSlot(k + 1, n) == k
  {
    Quotient(k, n, 0, k);
  }

  /** "Player 2" found without "Player 1": one template, and nobody is given it. */
  lemma SparseSlotUnused(s: seq<Ptr>)
    requires |s| == MAX_MOD_TEMPLATES && s[1] != 0 && forall k :: 0 <= k < |s| && k != 1 ==> s[k] == 0
    ensures forall owner: U32 :: s[ModSlot(owner, NonNull(s))] == 0
  {
    CountOne(s, 1);
  }

  lemma {:induction false} CountOne(s: seq<Ptr>, j: nat)
    requires j < |s| && s[j] != 0 && forall k :: 0 <= k < |s| && k != j ==> s[k] == 0
    ensures NonNull(s) == 1
  {
    if j < |s| - 1 {
      CountOne(s[..|s| - 1], j);
    } else {
      AllOrFewer(s[..|s| - 1], 0);
    }
  }

  // ---- The search ---------------------------------------------------------------------

  /** s[i] is the first entry with the highest id. */
  predicate FirstHighest(s: seq<Candidate>, i: nat)
    requires i < |s|
  {
    && (forall j :: 0 <= j < |s| ==> s[j].numId <= s[i].numId)
    && (forall j :: 0 <= j < i ==> s[j].numId < s[i].numId)
  }

  function Named(cs: seq<Candidate>, name: string): (r: seq<Candidate>)
    ensures forall i :: 0 <= i < |r| ==> r[i] in cs && r[i].name == name
    ensures forall c :: c in cs && c.name == name ==> c in r
  {
    if cs == [] then []
    else
      var rest, c := Named(cs[..|cs| - 1], name), cs[|cs| - 1];
      assert forall d :: d in cs ==> d in cs[..|cs| - 1] || d == c;
      if c.name == name then rest + [c] else rest
  }

  class ModTemplateTable {
    const slots: array<Ptr>
    var count: nat

    ghost predicate Valid()
      reads this, slots
    {
      slots.Length == MAX_MOD_TEMPLATES && count == NonNull(slots[..])
    }

    constructor ()
      ensures Valid() && count == 0 && fresh(slots)
    {
      slots := new Ptr[MAX_MOD_TEMPLATES](_ => 0);
      count := 0;
      new;
      AllOrFewer(slots[..], 0);
    }

    /** Pick the candidate with the highest id, or the first if no id was read. */
    method PickBest(cs: seq<Candidate>) returns (best: Ptr)
      requires cs != [] && forall i :: 0 <= i < |cs| ==> cs[i].ptr != 0
      ensures exists i :: 0 <= i < |cs| && best == cs[i].ptr && FirstHighest(cs, i)
    {
      best := 0;
      var bestId: U32 := 0;
      ghost var at := 0;
      for i := 0 to |cs|
        invariant best != 0 ==> at < i && best == cs[at].ptr && bestId == cs[at].numId
        invariant best == 0 ==> bestId == 0
        invariant forall j :: 0 <= j < i ==> cs[j].numId <= bestId
        invariant best != 0 ==> forall j :: 0 <= j < at ==> cs[j].numId < bestId
      {
        if cs[i].numId > bestId {
          bestId := cs[i].numId;
          best := cs[i].ptr;
          at := i;
        }
      }
      if best == 0 {
        best := cs[0].ptr;
        at := 0;
      }
      assert FirstHighest(cs, at);
    }

    method CandidatesFor(cs: seq<Candidate>, slot: nat) returns (mine: seq<Candidate>)
      ensures mine == Named(cs, PlayerName(slot))
    {
      var name := PlayerName(slot);
      mine := [];
      for i := 0 to |cs|
        invariant mine == Named(cs[..i], name)
      {
        assert cs[..i + 1][..i] == cs[..i];
        if cs[i].name == name {
          mine := mine + [cs[i]];
        }
      }
      assert cs[..|cs|] == cs;
    }

    /** One search settles all sixteen slots; later calls change nothing once it
        has found something. */
    method FindModTemplates(cs: seq<Candidate>)
      requires Valid() && forall i :: 0 <= i < |cs| ==> cs[i].ptr != 0
      modifies this`count, slots
      ensures Valid()
      ensures old(count) > 0 ==> slots[..] == old(slots[..])
      ensures old(count) == 0 ==> forall k :: 0 <= k < MAX_MOD_TEMPLATES ==> SlotSettled(cs, k, slots[k])
    {
      hide SlotSettled, Named, PlayerName;
      if count > 0 {
        return;
      }
      AllOrFewer(slots[..], 0);
      var found := 0;
      for slot := 0 to MAX_MOD_TEMPLATES
        invariant slots.Length == MAX_MOD_TEMPLATES && found == NonNull(slots[..slot])
        invariant forall k :: slot <= k < MAX_MOD_TEMPLATES ==> slots[k] == 0
        invariant forall k :: 0 <= k < slot ==> SlotSettled(cs, k, slots[k])
      {
        ghost var settled := slots[..slot];
        var candidates := CandidatesFor(cs, slot);
        if candidates != [] {
          CandidatesNonNull(cs, slot);
          var best := PickBest(candidates);
          SettleFound(cs, slot, best);
          slots[slot] := best;
          found := found + 1;
        } else {
          SettleEmpty(cs, slot);
        }
        assert slots[..slot] == settled;
        assert slots[..slot + 1] == settled + [slots[slot]];
        NonNullSnoc(settled, slots[slot]);
      }
      count := found;
      assert slots[..MAX_MOD_TEMPLATES] == slots[..];
    }
  }

  /** Slot k holds the best candidate called "Player k+1", or nothing. */
  ghost predicate SlotSettled(cs: seq<Candidate>, k: nat, p: Ptr) {
    var mine := Named(cs, PlayerName(k));
    if mine == [] then p == 0 else exists i :: 0 <= i < |mine| && p == mine[i].ptr && FirstHighest(mine, i)
  }

  lemma SettleFound(cs: seq<Candidate>, k: nat, p: Ptr)
    requires Named(cs, PlayerName(k)) != []
    requires var mine := Named(cs, PlayerName(k));
      exists i :: 0 <= i < |mine| && p == mine[i].ptr && FirstHighest(mine, i)
    requires forall i :: 0 <= i < |Named(cs, PlayerName(k))| ==> Named(cs, PlayerName(k))[i].ptr != 0
    ensures SlotSettled(cs, k, p) && p != 0
  {
  }

  lemma SettleEmpty(cs: seq<Candidate>, k: nat)
    requires Named(cs, PlayerName(k)) == []
    ensures SlotSettled(cs, k, 0)
  {
  }

  lemma CandidatesNonNull(cs: seq<Candidate>, k: nat)
    requires forall i :: 0 <= i < |cs| ==> cs[i].ptr != 0
    ensures forall i :: 0 <= i < |Named(cs, PlayerName(k))| ==> Named(cs, PlayerName(k))[i].ptr != 0
  {
  }

  lemma NonNullSnoc(s: seq<Ptr>, p: Ptr)
    ensures NonNull(s + [p]) == NonNull(s) + (if p != 0 then 1 else 0)
  {
    assert (s + [p])[..|s|] == s;
  }
}
