/** tools/rebase_mod.py: renaming "multiplayr" to "kenshi-online" inside a binary
    file of length-prefixed strings, growing the strings and their prefixes. */
module Rebase {
  import opened Bytes

  /** "multiplayr" */
  const OLD: seq<Byte> := [109, 117, 108, 116, 105, 112, 108, 97, 121, 114]

  /** "kenshi-online" */
  const NEW: seq<Byte> := [107, 101, 110, 115, 104, 105, 45, 111, 110, 108, 105, 110, 101]

  const DELTA: nat := 3

  predicate Printable(b: Byte) {
    0x20 <= b < 0x7F
  }

  predicate AllPrintable(s: seq<Byte>) {
    forall i :: 0 <= i < |s| ==> Printable(s[i])
  }

  /** struct.pack("<I", n). */
  function Le32(n: nat): (r: seq<Byte>)
    ensures |r| == 4
  {
    Digits(n, 4)
  }

  /** struct.unpack_from("<I", data, i). */
  function ReadLe32(data: seq<Byte>, i: nat): nat
    requires i + 4 <= |data|
  {
    FromDigits(data[i..i + 4])
  }

  lemma ReadBack(n: nat, data: seq<Byte>, i: nat)
    requires n < 0x1_0000_0000 && i + 4 <= |data| && data[i..i + 4] == Le32(n)
    ensures ReadLe32(data, i) == n
  {
    Pow256Four();
    DigitsBack(n, 4);
  }

  // ---- The program, one function per step ------------------------------------

  predicate At(data: seq<Byte>, p: nat) {
    p + 10 <= |data| && data[p..p + 10] == OLD
  }

  /** data.find(OLD, i). */
  function NextOcc(data: seq<Byte>, i: nat): (r: int)
    ensures r == -1 || (i <= r && At(data, r))
    ensures forall k: nat :: i <= k && (r == -1 || k < r) ==> !At(data, k)
    decreases |data| - i
  {
    if i + 10 > |data| then -1 else if At(data, i) then i else NextOcc(data, i + 1)
  }

  /** All occurrences before i, in order. */
  function Positions(data: seq<Byte>, i: nat): seq<nat> {
    if i == 0 then [] else if At(data, i - 1) then Positions(data, i - 1) + [i - 1] else Positions(data, i - 1)
  }

  function RunStart(data: seq<Byte>, p: nat): (s: nat)
    requires p <= |data|
    ensures s <= p && (s > 0 ==> !Printable(data[s - 1]))
    ensures forall k :: s <= k < p ==> Printable(data[k])
  {
    if p > 0 && Printable(data[p - 1]) then RunStart(data, p - 1) else p
  }

  function RunEnd(data: seq<Byte>, e: nat): (r: nat)
    requires e <= |data|
    ensures e <= r <= |data| && (r < |data| ==> !Printable(data[r]))
    ensures forall k :: e <= k < r ==> Printable(data[k])
    decreases |data| - e
  {
    if e < |data| && Printable(data[e]) then RunEnd(data, e + 1) else e
  }

  predicate WithinOne(a: int, b: int) {
    -1 <= a - b <= 1
  }

  /** find_length_prefix: offset of the prefix, or -1. */
  function FindPrefix(data: seq<Byte>, p: nat): (r: int)
    requires p + 10 <= |data|
    ensures r >= 0 ==> r + 4 == RunStart(data, p)
  {
    var s := RunStart(data, p);
    if s < 4 then -1
    else
      var prefix := ReadLe32(data, s - 4);
      if WithinOne(prefix, RunEnd(data, p + 10) - s) && prefix > 0 then s - 4 else -1
  }

  /** Python slicing clamps both bounds. */
  function Slice(data: seq<Byte>, i: nat, j: nat): seq<Byte> {
    var j' := if j > |data| then |data| else j;
    if i >= j' then [] else data[i..j']
  }

  /** s.replace(OLD, NEW, 1). */
  function ReplaceFirst(s: seq<Byte>): seq<Byte> {
    var q := NextOcc(s, 0);
    if q == -1 then s else s[..q] + NEW + s[q + 10..]
  }

  datatype Region = Region(start: nat, end: nat, bytes: seq<Byte>)

  function RegionOf(data: seq<Byte>, p: nat): Region
    requires p + 10 <= |data|
  {
    var off := FindPrefix(data, p);
    if off >= 0 then
      var oldLen := ReadLe32(data, off);
      Region(off, off + 4 + oldLen, Le32(oldLen + DELTA) + ReplaceFirst(Slice(data, off + 4, off + 4 + oldLen)))
    else Region(p, p + 10, NEW)
  }

  predicate Fit(data: seq<Byte>, ps: seq<nat>) {
    forall k :: 0 <= k < |ps| ==> ps[k] + 10 <= |data|
  }

  function Regions(data: seq<Byte>, ps: seq<nat>): seq<Region>
    requires Fit(data, ps)
  {
    if ps == [] then []
    else
      Regions(data, ps[..|ps| - 1]) + [RegionOf(data, ps[|ps| - 1])]
  }

  /** Stable insertion, after every region that starts no later. */
  function Insert(r: Region, rs: seq<Region>): seq<Region> {
    if rs == [] || rs[|rs| - 1].start <= r.start then rs + [r]
    else Insert(r, rs[..|rs| - 1]) + [rs[|rs| - 1]]
  }

  /** replacements.sort(key=lambda x: x[0]). */
  function StableSort(rs: seq<Region>): seq<Region> {
    if rs == [] then [] else Insert(rs[|rs| - 1], StableSort(rs[..|rs| - 1]))
  }

  /** A region that starts before the end of the last one kept is skipped. */
  function Merge(rs: seq<Region>): seq<Region> {
    if rs == [] then []
    else
      var m, r := Merge(rs[..|rs| - 1]), rs[|rs| - 1];
      if m != [] && r.start < m[|m| - 1].end then m else m + [r]
  }

  function Cursor(ms: seq<Region>): nat {
    if ms == [] then 0 else ms[|ms| - 1].end
  }

  function Spliced(data: seq<Byte>, ms: seq<Region>): seq<Byte> {
    if ms == [] then []
    else
      var front, r := ms[..|ms| - 1], ms[|ms| - 1];
      Spliced(data, front) + Slice(data, Cursor(front), r.start) + r.bytes
  }

  lemma {:induction false} PositionsAt(data: seq<Byte>, i: nat)
    ensures forall k :: 0 <= k < |Positions(data, i)| ==> Positions(data, i)[k] < i && At(data, Positions(data, i)[k])
    ensures forall j, k :: 0 <= j < k < |Positions(data, i)| ==> Positions(data, i)[j] < Positions(data, i)[k]
  {
    if i > 0 {
      PositionsAt(data, i - 1);
    }
  }

  function Rebased(data: seq<Byte>): seq<Byte> {
    PositionsAt(data, |data|);
    var ms := Merge(StableSort(Regions(data, Positions(data, |data|))));
    Spliced(data, ms) + Slice(data, Cursor(ms), |data|)
  }

  // ---- The program -----------------------------------------------------------

  method Find(data: seq<Byte>, start: nat) returns (pos: int)
    ensures pos == NextOcc(data, start)
  {
    var i := start;
    while i + 10 <= |data|
      invariant NextOcc(data, start) == NextOcc(data, i)
    {
      if data[i..i + 10] == OLD {
        return i;
      }
      i := i + 1;
    }
    return -1;
  }

  method FindLengthPrefix(data: seq<Byte>, p: nat) returns (r: int)
    requires p + 10 <= |data|
    ensures r == FindPrefix(data, p)
  {
    var s := p;
    while s > 0 && Printable(data[s - 1])
      invariant 0 <= s <= p && RunStart(data, p) == RunStart(data, s)
    {
      s := s - 1;
    }
    if s < 4 {
      return -1;
    }
    var prefix := ReadLe32(data, s - 4);
    var e := p + 10;
    while e < |data| && Printable(data[e])
      invariant e <= |data| && RunEnd(data, p + 10) == RunEnd(data, e)
    {
      e := e + 1;
    }
    if WithinOne(prefix, e - s) && prefix > 0 {
      return s - 4;
    }
    return -1;
  }

  lemma {:induction false} NoneBetween(data: seq<Byte>, i: nat, j: nat)
    requires i <= j && forall k :: i <= k < j ==> !At(data, k)
    ensures Positions(data, j) == Positions(data, i)
    decreases j
  {
    if i < j {
      NoneBetween(data, i, j - 1);
    }
  }

  method FindAll(data: seq<Byte>) returns (positions: seq<nat>)
    ensures positions == Positions(data, |data|)
  {
    positions := [];
    var start := 0;
    while true
      invariant start <= |data| && positions == Positions(data, start)
      decreases |data| - start
    {
      var pos := Find(data, start);
      if pos == -1 {
        NoneBetween(data, start, |data|);
        break;
      }
      NoneBetween(data, start, pos);
      positions := positions + [pos];
      start := pos + 1;
    }
  }

  method PlanOne(data: seq<Byte>, p: nat) returns (r: Region)
    requires p + 10 <= |data|
    ensures r == RegionOf(data, p)
  {
    hide FindPrefix, ReplaceFirst, Slice, Le32, ReadLe32;
    var off := FindLengthPrefix(data, p);
    if off >= 0 {
      var oldLen := ReadLe32(data, off);
      var oldString := Slice(data, off + 4, off + 4 + oldLen);
      r := Region(off, off + 4 + oldLen, Le32(oldLen + DELTA) + ReplaceFirst(oldString));
    } else {
      r := Region(p, p + 10, NEW);
    }
  }

  method Plan(data: seq<Byte>, positions: seq<nat>) returns (replacements: seq<Region>)
    requires Fit(data, positions)
    ensures replacements == Regions(data, positions)
  {
    hide Le32, ReadLe32;
    replacements := [];
    for i := 0 to |positions|
      invariant replacements == Regions(data, positions[..i])
    {
      assert positions[..i + 1][..i] == positions[..i];
      var r := PlanOne(data, positions[i]);
      replacements := replacements + [r];
    }
    assert positions[..|positions|] == positions;
  }

  method SkipOverlaps(rs: seq<Region>) returns (merged: seq<Region>)
    ensures merged == Merge(rs)
  {
    merged := [];
    for i := 0 to |rs|
      invariant merged == Merge(rs[..i])
    {
      assert rs[..i + 1][..i] == rs[..i];
      if merged == [] || rs[i].start >= merged[|merged| - 1].end {
        merged := merged + [rs[i]];
      }
    }
    assert rs[..|rs|] == rs;
  }

  method Splice(data: seq<Byte>, merged: seq<Region>) returns (out: seq<Byte>)
    ensures out == Spliced(data, merged) + Slice(data, Cursor(merged), |data|)
  {
    hide Slice;
    out := [];
    var cursor := 0;
    for i := 0 to |merged|
      invariant out == Spliced(data, merged[..i]) && cursor == Cursor(merged[..i])
    {
      assert merged[..i + 1][..i] == merged[..i];
      out := out + Slice(data, cursor, merged[i].start);
      out := out + merged[i].bytes;
      cursor := merged[i].end;
    }
    assert merged[..|merged|] == merged;
    out := out + Slice(data, cursor, |data|);
  }

  method RebaseFile(data: seq<Byte>) returns (out: seq<Byte>)
    ensures out == Rebased(data)
  {
    hide Positions, Regions, StableSort, Merge, Spliced, Slice, Cursor;
    var positions := FindAll(data);
    PositionsAt(data, |data|);
    var replacements := Plan(data, positions);
    AlreadySorted(data);
    var merged := SkipOverlaps(replacements);
    out := Splice(data, merged);
  }

  // ---- For every file: the plan is sorted as built ----------------------------

  predicate Ascending(rs: seq<Region>) {
    forall i, j :: 0 <= i < j < |rs| ==> rs[i].start <= rs[j].start
  }

  lemma {:induction false} SortedIsFixed(rs: seq<Region>)
    requires Ascending(rs)
    ensures StableSort(rs) == rs
  {
    if rs != [] {
      SortedIsFixed(rs[..|rs| - 1]);
    }
  }

  lemma OldIsPrintable()
    ensures AllPrintable(OLD)
  {
  }

  lemma WindowPrintable(data: seq<Byte>, p: nat)
    requires At(data, p)
    ensures forall k :: p <= k < p + 10 ==> Printable(data[k]) && data[k] == OLD[k - p]
  {
    OldIsPrintable();
    forall k | p <= k < p + 10 ensures Printable(data[k]) && data[k] == OLD[k - p] {
      assert data[k] == data[p..p + 10][k - p];
    }
  }

  lemma {:induction false} RunStartIs(data: seq<Byte>, p: nat, s: nat)
    requires s <= p <= |data| && (s > 0 ==> !Printable(data[s - 1]))
    requires forall k :: s <= k < p ==> Printable(data[k])
    ensures RunStart(data, p) == s
    decreases p
  {
    if s < p {
      RunStartIs(data, p - 1, s);
    }
  }

  lemma {:induction false} RunEndIs(data: seq<Byte>, e: nat, r: nat)
    requires e <= r <= |data| && (r < |data| ==> !Printable(data[r]))
    requires forall k :: e <= k < r ==> Printable(data[k])
    ensures RunEnd(data, e) == r
    decreases r - e
  {
    if e < r {
      RunEndIs(data, e + 1, r);
    }
  }

  /** Later occurrences never get an earlier region. */
  lemma RegionsAscend(data: seq<Byte>, p: nat, q: nat)
    requires p < q && At(data, p) && At(data, q)
    ensures RegionOf(data, p).start <= RegionOf(data, q).start
  {
    hide Le32, ReadLe32;
    WindowPrintable(data, p);
    WindowPrintable(data, q);
    var s, t := RunStart(data, p), RunStart(data, q);
    if t <= p {
      RunStartIs(data, p, t);
      var e := RunEnd(data, q + 10);
      assert forall k :: p + 10 <= k < q + 10 ==> Printable(data[k]);
      RunEndIs(data, p + 10, e);
    } else {
      assert t - 1 >= p + 10;
    }
  }

  lemma {:induction false} RegionsPointwise(data: seq<Byte>, ps: seq<nat>)
    requires Fit(data, ps)
    ensures |Regions(data, ps)| == |ps|
    ensures forall k :: 0 <= k < |ps| ==> Regions(data, ps)[k] == RegionOf(data, ps[k])
  {
    hide RegionOf, At;
    if ps != [] {
      RegionsPointwise(data, ps[..|ps| - 1]);
    }
  }

  /** The sort never moves anything, whatever the file holds. */
  lemma AlreadySorted(data: seq<Byte>)
    ensures Fit(data, Positions(data, |data|))
    ensures StableSort(Regions(data, Positions(data, |data|))) == Regions(data, Positions(data, |data|))
  {
    hide Le32, ReadLe32;
    PositionsAt(data, |data|);
    var ps := Positions(data, |data|);
    RegionsPointwise(data, ps);
    forall i, j | 0 <= i < j < |ps| ensures RegionOf(data, ps[i]).start <= RegionOf(data, ps[j]).start {
      RegionsAscend(data, ps[i], ps[j]);
    }
    SortedIsFixed(Regions(data, ps));
  }
}
