/** Finding players by name and making names unique, ignoring ASCII case. */
module PlayerNames {
  import opened Base
  import opened Decimal

  const LAST_SUFFIX: nat := 99

  function LowerChar(c: char): char {
    if 'A' <= c <= 'Z' then ((c as int) + 32) as char else c
  }

  function ToLower(s: string): (r: string)
    ensures |r| == |s| && forall i :: 0 <= i < |s| ==> r[i] == LowerChar(s[i])
  {
    seq(|s|, i requires 0 <= i < |s| => LowerChar(s[i]))
  }

  /** c and d are the same character, or one ASCII letter in its two cases. */
  ghost predicate SameLetter(c: char, d: char) {
    c == d || ('A' <= c <= 'Z' && d as int == c as int + 32) || ('A' <= d <= 'Z' && c as int == d as int + 32)
  }

  /** Names compare equal when they differ at most in the case of ASCII letters. */
  lemma SameIgnoringCase(a: string, b: string)
    ensures ToLower(a) == ToLower(b) <==> |a| == |b| && forall i :: 0 <= i < |a| ==> SameLetter(a[i], b[i])
  {
    if |a| == |b| {
      forall i | 0 <= i < |a| ensures ToLower(a)[i] == ToLower(b)[i] <==> SameLetter(a[i], b[i]) {
      }
    }
  }

  /** needle occurs in s at position i. */
  predicate OccursAt(s: string, needle: string, i: nat) {
    i + |needle| <= |s| && s[i..i + |needle|] == needle
  }

  ghost predicate Contains(s: string, needle: string) {
    exists i :: 0 <= i <= |s| && OccursAt(s, needle, i)
  }

  ghost predicate Taken(players: map<U32, string>, name: string) {
    exists id :: id in players && ToLower(players[id]) == ToLower(name)
  }

  /** How well a player's name answers a search: 3 exact, 2 prefix, 1 substring. */
  ghost function Rank(name: string, needle: string): nat {
    if ToLower(name) == needle then 3
    else if OccursAt(ToLower(name), needle, 0) then 2
    else if Contains(ToLower(name), needle) then 1
    else 0
  }

  method Find(s: string, needle: string) returns (found: bool)
    ensures found <==> Contains(s, needle)
  {
    var i := 0;
    while i + |needle| <= |s|
      invariant forall j :: 0 <= j < i ==> !OccursAt(s, needle, j)
    {
      if s[i..i + |needle|] == needle {
        assert OccursAt(s, needle, i);
        return true;
      }
      i := i + 1;
    }
    return false;
  }

  method FindByExactName(players: map<U32, string>, order: seq<U32>, name: string) returns (id: U32)
    requires Enumerates(order, players.Keys) && 0 !in players
    ensures id != 0 <==> Taken(players, name)
    ensures id != 0 ==> id in players && ToLower(players[id]) == ToLower(name)
  {
    var needle := ToLower(name);
    for i := 0 to |order|
      invariant forall j :: 0 <= j < i ==> order[j] in players && ToLower(players[order[j]]) != needle
    {
      assert order[i] in players.Keys;
      if ToLower(players[order[i]]) == needle {
        return order[i];
      }
    }
    assert forall k :: k in players ==> k in players.Keys && k in order;
    return 0;
  }

  /** The player whose name answers best, the first walked among equals; 0 when
      no name contains the needle. */
  method FindByName(players: map<U32, string>, order: seq<U32>, name: string) returns (id: U32)
    requires Enumerates(order, players.Keys) && 0 !in players
    ensures id == 0 <==> forall k :: k in players ==> !Contains(ToLower(players[k]), ToLower(name))
    ensures id != 0 ==> exists i :: 0 <= i < |order| && order[i] == id && BestOf(players, order, ToLower(name), i)
  {
    hide ToLower, OccursAt, Contains;
    var needle := ToLower(name);
    Walkable(players, order);
    for i := 0 to |order|
      invariant forall j :: 0 <= j < i ==> Rank(players[order[j]], needle) < 3
    {
      if ToLower(players[order[i]]) == needle {
        RankMeans(players[order[i]], needle);
        return order[i];
      }
    }
    for i := 0 to |order|
      invariant forall j :: 0 <= j < i ==> Rank(players[order[j]], needle) < 2
    {
      var starts := StartsWith(ToLower(players[order[i]]), needle);
      if starts {
        RankMeans(players[order[i]], needle);
        return order[i];
      }
    }
    for i := 0 to |order|
      invariant forall j :: 0 <= j < i ==> Rank(players[order[j]], needle) < 1
    {
      var found := Find(ToLower(players[order[i]]), needle);
      if found {
        RankMeans(players[order[i]], needle);
        return order[i];
      }
    }
    forall k | k in players ensures !Contains(ToLower(players[k]), needle) {
      assert k in order;
      RankMeans(players[k], needle);
    }
    return 0;
  }

  method StartsWith(s: string, needle: string) returns (r: bool)
    ensures r <==> OccursAt(s, needle, 0)
  {
    r := |needle| <= |s| && s[..|needle|] == needle;
  }

  ghost predicate BestOf(players: map<U32, string>, order: seq<U32>, needle: string, i: nat)
    requires i < |order|
  {
    && order[i] in players && Rank(players[order[i]], needle) >= 1
    && (forall j :: 0 <= j < |order| && order[j] in players ==>
          Rank(players[order[j]], needle) <= Rank(players[order[i]], needle))
    && (forall j :: 0 <= j < i && order[j] in players ==>
          Rank(players[order[j]], needle) < Rank(players[order[i]], needle))
  }

  lemma RankMeans(name: string, needle: string)
    ensures Rank(name, needle) >= 1 <==> Contains(ToLower(name), needle)
    ensures Rank(name, needle) <= 3
  {
    var s := ToLower(name);
    if s == needle || OccursAt(s, needle, 0) {
      assert s == needle ==> s[0..|s|] == needle;
      assert OccursAt(s, needle, 0);
    }
  }

  lemma Walkable(players: map<U32, string>, order: seq<U32>)
    requires Enumerates(order, players.Keys)
    ensures forall i :: 0 <= i < |order| ==> order[i] in players
    ensures forall k :: k in players ==> k in order
  {
    assert forall i :: 0 <= i < |order| ==> order[i] in players.Keys;
    assert forall k :: k in players ==> k in players.Keys;
  }

  // ---- Unique names -----------------------------------------------------------------------

  /** The names tried, in order: the base name, then base_2 to base_99. */
  function Candidate(base: string, k: nat): string {
    if k <= 1 then base else base + "_" + Numeral(k)
  }

  lemma CandidateIs(base: string, k: nat)
    ensures Candidate(base, k) == if k <= 1 then base else base + "_" + Numeral(k)
  {
  }

  /** `random` stands for rand() % 9999. */
  method MakeUniqueName(players: map<U32, string>, order: seq<U32>, base: string, random: nat) returns (name: string)
    requires Enumerates(order, players.Keys) && 0 !in players
    ensures |players| < 99 ==> !Taken(players, name)
    ensures (exists k :: 1 <= k <= 99 && !Taken(players, Candidate(base, k))) ==>
      !Taken(players, name)
      && exists k :: 1 <= k <= 99 && name == Candidate(base, k) == (if k == 1 then base else base + "_" + Numeral(k))
                     && forall j :: 1 <= j < k ==> Taken(players, Candidate(base, j))
    ensures (forall k :: 1 <= k <= 99 ==> Taken(players, Candidate(base, k))) ==>
      name == base + "_" + Numeral(random)
  {
    hide Taken, Candidate, Numeral;
    if |players| < LAST_SUFFIX {
      UniqueWhenFewer(players, base);
    }
    CandidateIs(base, 1);
    var holder := FindByExactName(players, order, base);
    if holder == 0 {
      return base;
    }
    var suffix := 2;
    while suffix < 100
      invariant 2 <= suffix <= 100 && forall j :: 1 <= j < suffix ==> Taken(players, Candidate(base, j))
    {
      var candidate := base + "_" + Numeral(suffix);
      CandidateIs(base, suffix);
      holder := FindByExactName(players, order, candidate);
      if holder == 0 {
        return candidate;
      }
      suffix := suffix + 1;
    }
    return base + "_" + Numeral(random);
  }

  lemma CandidatesDiffer(base: string, j: nat, k: nat)
    requires 1 <= j < k
    ensures ToLower(Candidate(base, j)) != ToLower(Candidate(base, k))
  {
    hide Numeral;
    var a, b := Candidate(base, j), Candidate(base, k);
    if ToLower(a) == ToLower(b) {
      if j > 1 {
        var n := |base| + 1;
        assert a[n..] == Numeral(j) && b[n..] == Numeral(k);
        DigitsLower(a, n);
        DigitsLower(b, n);
        assert forall i :: n <= i < |a| ==> a[i] == ToLower(a)[i] && b[i] == ToLower(b)[i];
        assert a[n..] == b[n..];
        NumeralInjective(j, k);
      }
      assert false;
    }
  }

  lemma DigitsLower(s: string, n: nat)
    requires n <= |s| && forall i :: 0 <= i < |s| - n ==> '0' <= s[n..][i] <= '9'
    ensures forall i :: n <= i < |s| ==> ToLower(s)[i] == s[i]
  {
    forall i | n <= i < |s| ensures ToLower(s)[i] == s[i] {
      assert s[i] == s[n..][i - n];
    }
  }

  /** Names 1 to k taken need k different players. */
  lemma {:induction false} Holders(players: map<U32, string>, base: string, k: nat) returns (h: set<U32>)
    requires forall j :: 1 <= j <= k ==> Taken(players, Candidate(base, j))
    ensures |h| == k && h <= players.Keys
    ensures forall id :: id in h ==> exists j :: 1 <= j <= k && ToLower(players[id]) == ToLower(Candidate(base, j))
  {
    hide Candidate, ToLower;
    if k == 0 {
      h := {};
    } else {
      h := Holders(players, base, k - 1);
      assert Taken(players, Candidate(base, k));
      var id :| id in players && ToLower(players[id]) == ToLower(Candidate(base, k));
      if id in h {
        var j :| 1 <= j <= k - 1 && ToLower(players[id]) == ToLower(Candidate(base, j));
        CandidatesDiffer(base, j, k);
      }
      h := h + {id};
    }
  }

  /** With fewer than 99 players one of the 99 names is free, so the name made is
      not taken by anybody. */
  lemma UniqueWhenFewer(players: map<U32, string>, base: string)
    requires |players| < 99
    ensures exists k :: 1 <= k <= 99 && !Taken(players, Candidate(base, k))
  {
    hide Taken, Candidate;
    assert |players.Keys| == |players|;
    if forall k :: 1 <= k <= LAST_SUFFIX ==> Taken(players, Candidate(base, k)) {
      var h := Holders(players, base, LAST_SUFFIX);
      SubsetCount(h, players.Keys);
      assert false;
    }
  }

  lemma {:induction false} SubsetCount(a: set<U32>, b: set<U32>)
    requires a <= b
    ensures |a| <= |b|
    decreases a
  {
    if a != {} {
      var x :| x in a;
      SubsetCount(a - {x}, b - {x});
    }
  }
}
