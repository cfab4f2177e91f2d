/** Rebasing commutes with the length-prefixed encoding: exactly when it does. */
module RebaseEncoding {
  import opened Bytes
  import opened Rebase

  // ---- The encoding ----------------------------------------------------------

  /** A string the theorem speaks of: printable, and short enough that the second
      byte of its length prefix is not printable. */
  predicate Plain(s: seq<Byte>) {
    AllPrintable(s) && |s| < 0x2000
  }

  predicate AllPlain(ss: seq<seq<Byte>>) {
    forall k :: 0 <= k < |ss| ==> Plain(ss[k])
  }

  function Encode1(s: seq<Byte>): seq<Byte> {
    Le32(|s|) + s
  }

  function Encode(ss: seq<seq<Byte>>): seq<Byte> {
    if ss == [] then [] else Encode(ss[..|ss| - 1]) + Encode1(ss[|ss| - 1])
  }

  // ---- What the renaming should do -------------------------------------------

  /** s.replace(OLD, NEW): every occurrence, left to right. */
  function ReplaceAll(s: seq<Byte>): seq<Byte>
    decreases |s|
  {
    var q := NextOcc(s, 0);
    if q == -1 then s else s[..q] + NEW + ReplaceAll(s[q + 10..])
  }

  function Occurrences(s: seq<Byte>): nat
    decreases |s|
  {
    var q := NextOcc(s, 0);
    if q == -1 then 0 else 1 + Occurrences(s[q + 10..])
  }

  function Renamed(ss: seq<seq<Byte>>): seq<seq<Byte>> {
    seq(|ss|, k requires 0 <= k < |ss| => ReplaceAll(ss[k]))
  }

  /** String k comes out right: one occurrence; or none, and it does not end with
      the needle's first nine letters before a prefix whose low byte is the tenth. */
  predicate Renames(ss: seq<seq<Byte>>, k: nat)
    requires k < |ss|
  {
    Occurrences(ss[k]) == 1 || (Occurrences(ss[k]) == 0 && !StraddlesInto(ss[k], NextLen(ss, k)))
  }

  // ---- A single left-to-right scan -------------------------------------------

  datatype Progress = Progress(out: seq<Byte>, cursor: nat)

  /** One region: skipped when it starts before the cursor. */
  function Feed(data: seq<Byte>, st: Progress, r: Region): Progress {
    if r.start < st.cursor then st else Progress(st.out + Slice(data, st.cursor, r.start) + r.bytes, r.end)
  }

  /** Output and cursor after the occurrences before i. */
  function Scan(data: seq<Byte>, i: nat): Progress {
    if i == 0 then Progress([], 0)
    else if At(data, i - 1) then Feed(data, Scan(data, i - 1), RegionOf(data, i - 1))
    else Scan(data, i - 1)
  }

  function SoFar(data: seq<Byte>, rs: seq<Region>): Progress {
    Progress(Spliced(data, Merge(rs)), Cursor(Merge(rs)))
  }

  lemma SoFarSnoc(data: seq<Byte>, rs: seq<Region>, r: Region)
    ensures SoFar(data, rs + [r]) == Feed(data, SoFar(data, rs), r)
  {
    assert (rs + [r])[..|rs|] == rs;
    var m := Merge(rs);
    assert (m + [r])[..|m|] == m;
  }

  lemma {:induction false} ScanIsPipeline(data: seq<Byte>, i: nat)
    requires Fit(data, Positions(data, i))
    ensures Scan(data, i) == SoFar(data, Regions(data, Positions(data, i)))
  {
    hide RegionOf, Merge, Spliced, SoFar, Feed;
    if i == 0 {
      SoFarNone(data);
    } else {
      var ps := Positions(data, i - 1);
      assert Fit(data, ps) by {
        forall k | 0 <= k < |ps| ensures ps[k] + 10 <= |data| { assert ps[k] == Positions(data, i)[k]; }
      }
      ScanIsPipeline(data, i - 1);
      if At(data, i - 1) {
        assert Positions(data, i)[..|ps|] == ps;
        SoFarSnoc(data, Regions(data, ps), RegionOf(data, i - 1));
      }
    }
  }

  lemma SoFarNone(data: seq<Byte>)
    ensures SoFar(data, []) == Progress([], 0)
  {
  }

  lemma RebasedIsScan(data: seq<Byte>)
    ensures Rebased(data) == Scan(data, |data|).out + Slice(data, Scan(data, |data|).cursor, |data|)
  {
    AlreadySorted(data);
    ScanIsPipeline(data, |data|);
  }

  /** Nothing happens between i and j when every occurrence there is overlapped. */
  lemma {:induction false} ScanQuiet(data: seq<Byte>, i: nat, j: nat)
    requires i <= j
    requires forall p :: i <= p < j && At(data, p) ==> RegionOf(data, p).start < Scan(data, i).cursor
    ensures Scan(data, j) == Scan(data, i)
    decreases j
  {
    hide RegionOf, At, Slice;
    if i < j {
      ScanQuiet(data, i, j - 1);
    }
  }

  // ---- One encoded string inside a file ----------------------------------------

  /** The prefix and bytes of s lie at o. */
  ghost predicate Holds(data: seq<Byte>, o: nat, s: seq<Byte>) {
    && o + 4 + |s| <= |data|
    && data[o..o + 4] == Le32(|s|)
    && data[o + 4..o + 4 + |s|] == s
  }

  /** At n the file ends, or the prefix of a string of the given length follows. */
  ghost predicate Follows(data: seq<Byte>, n: nat, next: int) {
    if next < 0 then n == |data|
    else next < 0x2000 && n + 4 <= |data| && data[n..n + 4] == Le32(next)
  }

  predicate StraddlesInto(s: seq<Byte>, next: int) {
    |s| >= 9 && s[|s| - 9..] == OLD[..9] && next >= 0 && next % 256 == 114
  }

  lemma SmallPrefix(len: nat)
    requires len < 0x2000
    ensures Le32(len) == [len % 256, len / 256, 0, 0]
  {
    assert Digits(0, 2) == [0] + Digits(0, 1) && Digits(0, 1) == [0] + Digits(0, 0);
    assert Digits(len / 256, 3) == [len / 256] + Digits(0, 2);
    assert Digits(len, 4) == [len % 256] + Digits(len / 256, 3);
  }

  /** The bytes of a prefix below 0x2000: only the first may be printable. */
  lemma PrefixBytes(data: seq<Byte>, o: nat, len: nat)
    requires o + 4 <= |data| && data[o..o + 4] == Le32(len) && len < 0x2000
    ensures data[o] == len % 256 && !Printable(data[o + 1]) && !Printable(data[o + 3]) && ReadLe32(data, o) == len
  {
    ReadBack(len, data, o);
    SmallPrefix(len);
    var b := data[o..o + 4];
    assert data[o] == b[0] && data[o + 1] == b[1] && data[o + 3] == b[3];
  }

  lemma StringBytes(data: seq<Byte>, o: nat, s: seq<Byte>)
    requires Holds(data, o, s) && AllPrintable(s)
    ensures forall i :: o + 4 <= i < o + 4 + |s| ==> data[i] == s[i - o - 4] && Printable(data[i])
  {
    forall i | o + 4 <= i < o + 4 + |s| ensures data[i] == s[i - o - 4] && Printable(data[i]) {
      assert data[o + 4..o + 4 + |s|][i - o - 4] == data[i];
      assert Printable(s[i - o - 4]);
    }
  }

  /** An occurrence starting in the segment lies in the string, up to the low
      byte of the next prefix. */
  lemma OccurrencePlace(data: seq<Byte>, o: nat, s: seq<Byte>, next: int, p: nat)
    requires Holds(data, o, s) && Plain(s) && Follows(data, o + 4 + |s|, next)
    requires o <= p < o + 4 + |s| && At(data, p)
    ensures o + 4 <= p && p + 10 <= o + 4 + |s| + 1
    ensures p + 10 == o + 4 + |s| + 1 ==> next >= 0 && next % 256 == 114
  {
    var n := o + 4 + |s|;
    WindowPrintable(data, p);
    PrefixBytes(data, o, |s|);
    assert !(p <= o + 3 < p + 10);
    if next >= 0 {
      PrefixBytes(data, n, next);
      assert !(p <= n + 1 < p + 10);
      if p + 10 == n + 1 {
        assert data[n] == OLD[n - p];
      }
    }
  }

  lemma FindsPrefix(data: seq<Byte>, o: nat, s: seq<Byte>, next: int, p: nat)
    requires Holds(data, o, s) && Plain(s) && Follows(data, o + 4 + |s|, next)
    requires o <= p < o + 4 + |s| && At(data, p)
    ensures FindPrefix(data, p) == o
  {
    var n := o + 4 + |s|;
    OccurrencePlace(data, o, s, next, p);
    PrefixBytes(data, o, |s|);
    StringBytes(data, o, s);
    WindowPrintable(data, p);
    hide At, ReadLe32, Le32, Holds, RunStart, RunEnd;
    RunStartIs(data, p, o + 4);
    if next >= 0 {
      PrefixBytes(data, n, next);
    }
    var e := if next >= 0 && Printable(data[n]) then n + 1 else n;
    RunEndIs(data, p + 10, e);
  }

  /** Every occurrence in the segment asks for the same region: the whole string
      with its prefix grown by three. */
  lemma RegionOfSegment(data: seq<Byte>, o: nat, s: seq<Byte>, next: int, p: nat)
    requires Holds(data, o, s) && Plain(s) && Follows(data, o + 4 + |s|, next)
    requires o <= p < o + 4 + |s| && At(data, p)
    ensures RegionOf(data, p) == Region(o, o + 4 + |s|, Le32(|s| + DELTA) + ReplaceFirst(s))
  {
    hide FindPrefix, ReplaceFirst, Le32, Slice, ReadLe32, Holds, Follows;
    FindsPrefix(data, o, s, next, p);
    HeldParts(data, o, s);
  }

  lemma HeldParts(data: seq<Byte>, o: nat, s: seq<Byte>)
    requires Holds(data, o, s) && |s| < 0x2000
    ensures o + 4 <= |data| && ReadLe32(data, o) == |s| && Slice(data, o + 4, o + 4 + |s|) == s
  {
    PrefixBytes(data, o, |s|);
  }

  /** The segment holds an occurrence exactly when its string does or straddles. */
  lemma HasOccurrence(data: seq<Byte>, o: nat, s: seq<Byte>, next: int)
    requires Holds(data, o, s) && Plain(s) && Follows(data, o + 4 + |s|, next)
    ensures (exists p :: o <= p < o + 4 + |s| && At(data, p)) <==> NextOcc(s, 0) != -1 || StraddlesInto(s, next)
  {
    var n, q := o + 4 + |s|, NextOcc(s, 0);
    if q != -1 {
      OccurrenceShifts(data, o, s, q);
    }
    if StraddlesInto(s, next) {
      StraddleShifts(data, o, s, next);
    }
    hide Holds, Follows, Plain, At, StraddlesInto, NextOcc;
    forall p | o <= p < n && At(data, p) ensures q != -1 || StraddlesInto(s, next) {
      OccurrenceKind(data, o, s, next, p);
    }
  }

  lemma OccurrenceKind(data: seq<Byte>, o: nat, s: seq<Byte>, next: int, p: nat)
    requires Holds(data, o, s) && Plain(s) && Follows(data, o + 4 + |s|, next)
    requires o <= p < o + 4 + |s| && At(data, p)
    ensures NextOcc(s, 0) != -1 || StraddlesInto(s, next)
  {
    hide Le32, ReadLe32;
    OccurrencePlace(data, o, s, next, p);
    if p + 10 <= o + 4 + |s| {
      InsideString(data, o, s, p);
    } else {
      OverEnd(data, o, s, p);
    }
  }

  lemma InsideString(data: seq<Byte>, o: nat, s: seq<Byte>, p: nat)
    requires Holds(data, o, s) && o + 4 <= p && p + 10 <= o + 4 + |s| && At(data, p)
    ensures At(s, p - o - 4)
  {
    hide Le32, ReadLe32;
    SubSlice(data, o + 4, o + 4 + |s|, p - o - 4, p - o + 6);
  }

  lemma OverEnd(data: seq<Byte>, o: nat, s: seq<Byte>, p: nat)
    requires Holds(data, o, s) && o + 4 <= p && p + 10 == o + 4 + |s| + 1 && At(data, p)
    ensures s[|s| - 9..] == OLD[..9]
  {
    hide Le32, ReadLe32;
    var n := o + 4 + |s|;
    SubSlice(data, o + 4, n, |s| - 9, |s|);
    SubSlice(data, p, p + 10, 0, 9);
  }

  lemma SubSlice(d: seq<Byte>, a: nat, b: nat, i: nat, j: nat)
    requires a <= b <= |d| && i <= j <= b - a
    ensures d[a..b][i..j] == d[a + i..a + j]
  {
    var x, y := d[a..b][i..j], d[a + i..a + j];
    assert |x| == |y|;
    forall k | 0 <= k < |x| ensures x[k] == y[k] {
      assert x[k] == d[a..b][i + k] == d[a + (i + k)];
    }
  }

  lemma OccurrenceShifts(data: seq<Byte>, o: nat, s: seq<Byte>, q: nat)
    requires Holds(data, o, s) && At(s, q)
    ensures At(data, o + 4 + q)
  {
    hide Le32, ReadLe32;
    SubSlice(data, o + 4, o + 4 + |s|, q, q + 10);
  }

  lemma StraddleShifts(data: seq<Byte>, o: nat, s: seq<Byte>, next: int)
    requires Holds(data, o, s) && Follows(data, o + 4 + |s|, next) && StraddlesInto(s, next)
    ensures At(data, o + 4 + |s| - 9)
  {
    var n := o + 4 + |s|;
    PrefixBytes(data, n, next);
    SubSlice(data, o + 4, n, |s| - 9, |s|);
    assert data[n - 9..n + 1] == data[n - 9..n] + [data[n]];
    assert OLD[..9] + [114] == OLD;
  }

  // ---- The output, segment by segment -----------------------------------------

  /** What the program writes for s before a string of length next. */
  function Piece(s: seq<Byte>, next: int): seq<Byte> {
    if NextOcc(s, 0) != -1 || StraddlesInto(s, next) then Le32(|s| + DELTA) + ReplaceFirst(s) else Encode1(s)
  }

  /** The output up to i, with the unchanged bytes after the cursor. */
  function Flushed(data: seq<Byte>, i: nat): seq<Byte> {
    Scan(data, i).out + Slice(data, Scan(data, i).cursor, i)
  }

  /** Scanning a segment appends its piece. */
  lemma ScanSegment(data: seq<Byte>, o: nat, s: seq<Byte>, next: int)
    requires Holds(data, o, s) && Plain(s) && Follows(data, o + 4 + |s|, next)
    requires Scan(data, o).cursor <= o
    ensures var n := o + 4 + |s|; Scan(data, n).cursor <= n && Flushed(data, n) == Flushed(data, o) + Piece(s, next)
  {
    var n := o + 4 + |s|;
    HasOccurrence(data, o, s, next);
    if p0 :| o <= p0 < n && At(data, p0) {
      ScanHit(data, o, s, next, NextOcc(data, o));
    } else {
      ScanMiss(data, o, s);
    }
  }

  lemma ScanMiss(data: seq<Byte>, o: nat, s: seq<Byte>)
    requires Holds(data, o, s) && Scan(data, o).cursor <= o
    requires forall p :: o <= p < o + 4 + |s| ==> !At(data, p)
    ensures var n := o + 4 + |s|; Scan(data, n).cursor <= n && Flushed(data, n) == Flushed(data, o) + Encode1(s)
  {
    hide Le32, ReadLe32;
    hide RegionOf;
    var n := o + 4 + |s|;
    ScanQuiet(data, o, n);
    hide At, Scan;
    var c := Scan(data, o).cursor;
    assert data[o..n] == data[o..o + 4] + data[o + 4..n];
    assert Slice(data, c, n) == Slice(data, c, o) + data[o..n];
  }

  /** p is the first occurrence in the segment. */
  lemma ScanHit(data: seq<Byte>, o: nat, s: seq<Byte>, next: int, p: nat)
    requires Holds(data, o, s) && Plain(s) && Follows(data, o + 4 + |s|, next)
    requires Scan(data, o).cursor <= o && o <= p < o + 4 + |s| && At(data, p)
    requires forall k :: o <= k < p ==> !At(data, k)
    ensures var n := o + 4 + |s|;
      && Scan(data, n).cursor <= n
      && Flushed(data, n) == Flushed(data, o) + (Le32(|s| + DELTA) + ReplaceFirst(s))
  {
    hide *;
    FirstHit(data, o, s, next, p);
    OthersOverlap(data, o, s, next, p);
    ScanQuiet(data, p + 1, o + 4 + |s|);
    FlushedAtCursor(data, o + 4 + |s|);
  }

  lemma OthersOverlap(data: seq<Byte>, o: nat, s: seq<Byte>, next: int, p: nat)
    requires Holds(data, o, s) && Plain(s) && Follows(data, o + 4 + |s|, next) && o <= p
    ensures forall q :: p + 1 <= q < o + 4 + |s| && At(data, q) ==> RegionOf(data, q).start < o + 4 + |s|
  {
    hide RegionOf, Holds, Plain, Follows, ReplaceFirst, Le32;
    forall q | p + 1 <= q < o + 4 + |s| && At(data, q) ensures RegionOf(data, q).start < o + 4 + |s| {
      RegionOfSegment(data, o, s, next, q);
    }
  }

  lemma FirstHit(data: seq<Byte>, o: nat, s: seq<Byte>, next: int, p: nat)
    requires Holds(data, o, s) && Plain(s) && Follows(data, o + 4 + |s|, next)
    requires Scan(data, o).cursor <= o && o <= p < o + 4 + |s| && At(data, p)
    requires forall k :: o <= k < p ==> !At(data, k)
    ensures Scan(data, p + 1) == Progress(Flushed(data, o) + (Le32(|s| + DELTA) + ReplaceFirst(s)), o + 4 + |s|)
  {
    hide ReplaceFirst, RegionOf, Le32, Holds, Plain, Follows, Slice;
    ScanQuiet(data, o, p);
    RegionOfSegment(data, o, s, next, p);
    FeedFresh(data, Scan(data, o), RegionOf(data, p));
    assert Scan(data, p + 1) == Feed(data, Scan(data, o), RegionOf(data, p));
    var bytes := Le32(|s| + DELTA) + ReplaceFirst(s);
    assert Scan(data, o).out + Slice(data, Scan(data, o).cursor, o) + bytes == Flushed(data, o) + bytes;
  }

  lemma FeedFresh(data: seq<Byte>, st: Progress, r: Region)
    requires st.cursor <= r.start
    ensures Feed(data, st, r) == Progress(st.out + Slice(data, st.cursor, r.start) + r.bytes, r.end)
  {
  }

  lemma FlushedAtCursor(data: seq<Byte>, n: nat)
    requires Scan(data, n).cursor == n
    ensures Flushed(data, n) == Scan(data, n).out
  {
    hide Scan;
    assert Slice(data, n, n) == [];
  }

  // ---- A whole encoding ---------------------------------------------------------

  /** Offset of string k's prefix. */
  function Offset(ss: seq<seq<Byte>>, k: nat): nat
    requires k <= |ss|
  {
    |Encode(ss[..k])|
  }

  /** Length of the string after string k, or -1. */
  function NextLen(ss: seq<seq<Byte>>, k: nat): int
    requires k < |ss|
  {
    if k + 1 < |ss| then |ss[k + 1]| else -1
  }

  lemma {:induction false} HoldsAt(ss: seq<seq<Byte>>, k: nat)
    requires k < |ss|
    ensures Holds(Encode(ss), Offset(ss, k), ss[k]) && Offset(ss, k + 1) == Offset(ss, k) + 4 + |ss[k]|
  {
    hide Le32, ReadLe32;
    var last := |ss| - 1;
    var front := ss[..last];
    if k == last {
      assert ss[..k + 1] == ss && ss[..k] == front;
    } else {
      HoldsAt(front, k);
      assert front[..k] == ss[..k] && front[..k + 1] == ss[..k + 1];
      HoldsAfter(Encode(front), Encode1(ss[last]), Offset(ss, k), ss[k]);
    }
  }

  lemma HoldsAfter(d: seq<Byte>, more: seq<Byte>, o: nat, s: seq<Byte>)
    requires Holds(d, o, s)
    ensures Holds(d + more, o, s)
  {
    var e := d + more;
    assert e[o..o + 4] == d[o..o + 4] && e[o + 4..o + 4 + |s|] == d[o + 4..o + 4 + |s|];
  }

  lemma FollowsAt(ss: seq<seq<Byte>>, k: nat)
    requires AllPlain(ss) && k < |ss|
    ensures Follows(Encode(ss), Offset(ss, k + 1), NextLen(ss, k))
  {
    if k + 1 < |ss| {
      HoldsAt(ss, k + 1);
    } else {
      assert ss[..k + 1] == ss;
    }
  }

  function Pieces(ss: seq<seq<Byte>>, k: nat): seq<Byte>
    requires k <= |ss|
  {
    if k == 0 then [] else Pieces(ss, k - 1) + Piece(ss[k - 1], NextLen(ss, k - 1))
  }

  lemma {:induction false} ScanPieces(ss: seq<seq<Byte>>, k: nat)
    requires AllPlain(ss) && k <= |ss|
    ensures Scan(Encode(ss), Offset(ss, k)).cursor <= Offset(ss, k)
    ensures Flushed(Encode(ss), Offset(ss, k)) == Pieces(ss, k)
  {
    hide Scan, Flushed, Piece;
    if k == 0 {
      assert ss[..0] == [];
      FlushedNone(Encode(ss));
    } else {
      ScanPieces(ss, k - 1);
      HoldsAt(ss, k - 1);
      FollowsAt(ss, k - 1);
      ScanSegment(Encode(ss), Offset(ss, k - 1), ss[k - 1], NextLen(ss, k - 1));
    }
  }

  lemma FlushedNone(data: seq<Byte>)
    ensures Flushed(data, 0) == [] && Scan(data, 0).cursor == 0
  {
  }

  lemma RebasedIsPieces(ss: seq<seq<Byte>>)
    requires AllPlain(ss)
    ensures Rebased(Encode(ss)) == Pieces(ss, |ss|)
  {
    hide Le32, ReadLe32;
    RebasedIsScan(Encode(ss));
    ScanPieces(ss, |ss|);
    assert ss[..|ss|] == ss;
  }

  // ---- Right or wrong, string by string ----------------------------------------

  lemma {:induction false} ReplaceAllSize(s: seq<Byte>)
    ensures |ReplaceAll(s)| == |s| + DELTA * Occurrences(s)
    ensures Occurrences(s) * 10 <= |s|
    decreases |s|
  {
    var q := NextOcc(s, 0);
    if q != -1 {
      ReplaceAllSize(s[q + 10..]);
    }
  }

  lemma OneOccurrence(s: seq<Byte>)
    requires Occurrences(s) <= 1
    ensures ReplaceAll(s) == ReplaceFirst(s)
  {
    var q := NextOcc(s, 0);
    if q != -1 {
      assert Occurrences(s[q + 10..]) == 0;
      assert ReplaceAll(s[q + 10..]) == s[q + 10..];
    }
  }

  lemma Le32Injective(a: nat, b: nat)
    requires a < 0x1_0000_0000 && b < 0x1_0000_0000 && Le32(a) == Le32(b)
    ensures a == b
  {
    ReadBack(a, Le32(a), 0);
    ReadBack(b, Le32(b), 0);
    assert Le32(a)[0..4] == Le32(a);
  }

  lemma NoOccurrence(s: seq<Byte>)
    ensures Occurrences(s) == 0 <==> NextOcc(s, 0) == -1
    ensures Occurrences(s) == 0 ==> ReplaceFirst(s) == s
  {
  }

  /** A piece is right, or already its first four bytes are wrong. */
  lemma PieceExact(s: seq<Byte>, next: int)
    requires |s| < 0x2000
    ensures var piece, right := Piece(s, next), Encode1(ReplaceAll(s));
      && |piece| >= 4
      && (if Occurrences(s) == 1 || (Occurrences(s) == 0 && !StraddlesInto(s, next))
          then piece == right else piece[..4] != right[..4])
  {
    hide Le32, ReplaceAll, ReplaceFirst, NextOcc, StraddlesInto, Occurrences;
    ReplaceAllSize(s);
    NoOccurrence(s);
    if Occurrences(s) <= 1 {
      OneOccurrence(s);
    }
    if Occurrences(s) != 1 {
      Le32Differ(|s| + DELTA, |s| + DELTA * Occurrences(s));
      Head(|s| + DELTA, ReplaceFirst(s));
      Head(|s| + DELTA * Occurrences(s), ReplaceAll(s));
    }
  }

  lemma Head(n: nat, b: seq<Byte>)
    ensures (Le32(n) + b)[..4] == Le32(n)
  {
    hide Le32;
  }

  lemma Le32Differ(a: nat, b: nat)
    requires a < 0x1_0000_0000 && b < 0x1_0000_0000 && a != b
    ensures Le32(a) != Le32(b)
  {
    if Le32(a) == Le32(b) {
      Le32Injective(a, b);
    }
  }

  lemma {:induction false} GoodPrefix(ss: seq<seq<Byte>>, k: nat)
    requires AllPlain(ss) && k <= |ss|
    requires forall i :: 0 <= i < k ==> Renames(ss, i)
    ensures Pieces(ss, k) == Encode(Renamed(ss)[..k])
  {
    hide Piece, ReplaceAll, Encode1, Occurrences, StraddlesInto, NextLen;
    if k == 0 {
      assert Renamed(ss)[..0] == [];
    } else {
      GoodPrefix(ss, k - 1);
      assert Renames(ss, k - 1);
      PieceExact(ss[k - 1], NextLen(ss, k - 1));
      var rs := Renamed(ss)[..k];
      assert rs[..k - 1] == Renamed(ss)[..k - 1] && rs[k - 1] == ReplaceAll(ss[k - 1]);
      assert Encode(rs) == Encode(rs[..|rs| - 1]) + Encode1(rs[|rs| - 1]);
    }
  }

  lemma {:induction false} PiecesExtend(ss: seq<seq<Byte>>, j: nat, k: nat)
    requires j <= k <= |ss|
    ensures |Pieces(ss, j)| <= |Pieces(ss, k)| && Pieces(ss, k)[..|Pieces(ss, j)|] == Pieces(ss, j)
    decreases k
  {
    hide Piece, NextLen;
    if j < k {
      PiecesExtend(ss, j, k - 1);
      SubPrefix(Pieces(ss, k - 1), Piece(ss[k - 1], NextLen(ss, k - 1)), |Pieces(ss, j)|);
    }
  }

  lemma SubPrefix(a: seq<Byte>, b: seq<Byte>, n: nat)
    requires n <= |a|
    ensures (a + b)[..n] == a[..n]
  {
  }

  /** The first string that comes out wrong makes the files differ. */
  lemma FirstBad(ss: seq<seq<Byte>>, k: nat)
    requires AllPlain(ss) && k < |ss| && !Renames(ss, k)
    requires forall i :: 0 <= i < k ==> Renames(ss, i)
    ensures Pieces(ss, |ss|) != Encode(Renamed(ss))
  {
    hide Encode, Piece, Le32, ReplaceAll, Encode1, Holds, Occurrences, StraddlesInto, NextLen;
    var rs := Renamed(ss);
    GoodPrefix(ss, k);
    PieceExact(ss[k], NextLen(ss, k));
    PiecesExtend(ss, k + 1, |ss|);
    HoldsAt(rs, k);
    DifferAt(Pieces(ss, |ss|), Encode(rs), Pieces(ss, k), Piece(ss[k], NextLen(ss, k)), Offset(rs, k), rs[k]);
  }

  lemma DifferAt(a: seq<Byte>, b: seq<Byte>, front: seq<Byte>, piece: seq<Byte>, o: nat, r: seq<Byte>)
    requires |front| == o && |piece| >= 4 && |a| >= |front + piece| && a[..|front + piece|] == front + piece
    requires Holds(b, o, r) && piece[..4] != Encode1(r)[..4]
    ensures a != b
  {
    assert a[..|front + piece|][o..o + 4] == a[o..o + 4];
    assert (front + piece)[o..o + 4] == piece[..4];
    assert Encode1(r)[..4] == Le32(|r|);
  }

  ghost function LeastBad(ss: seq<seq<Byte>>, k: nat): (r: nat)
    requires k < |ss| && !Renames(ss, k)
    ensures r <= k && !Renames(ss, r) && forall i :: 0 <= i < r ==> Renames(ss, i)
  {
    if i :| 0 <= i < k && !Renames(ss, i) then LeastBad(ss, i) else k
  }

  /** Rebasing the encoding of printable strings yields the encoding of the
      renamed strings, every prefix equal to its new length, if and only if each
      string holds the needle once, or not at all and does not straddle into a
      next prefix whose low byte is 'r'. */
  lemma RebaseCommutes(ss: seq<seq<Byte>>)
    requires AllPlain(ss)
    ensures Rebased(Encode(ss)) == Encode(Renamed(ss)) <==> forall k :: 0 <= k < |ss| ==> Renames(ss, k)
  {
    hide Le32, ReadLe32;
    RebasedIsPieces(ss);
    if k :| 0 <= k < |ss| && !Renames(ss, k) {
      FirstBad(ss, LeastBad(ss, k));
    } else {
      GoodPrefix(ss, |ss|);
      assert Renamed(ss)[..|ss|] == Renamed(ss);
    }
  }

  /** A needle-free string that ends with "multiplay" before one of 114 letters
      is written with a prefix three too large. */
  lemma StraddleFails(s: seq<Byte>, t: seq<Byte>)
    requires Plain(s) && Plain(t) && Occurrences(s) == 0 && StraddlesInto(s, |t|)
    ensures Rebased(Encode([s, t])) != Encode(Renamed([s, t]))
  {
    hide Rebased, Encode, Renamed, Plain, StraddlesInto, Occurrences;
    var ss := [s, t];
    assert NextLen(ss, 0) == |t|;
    assert !Renames(ss, 0);
    RebaseCommutes(ss);
  }

  /** Such strings exist. */
  lemma StraddleExample()
    ensures var s, t := OLD[..9], seq(114, i => 0x61 as Byte);
      Plain(s) && Plain(t) && Occurrences(s) == 0 && StraddlesInto(s, |t|)
  {
    OldIsPrintable();
    assert NextOcc(OLD[..9], 0) == -1;
    assert OLD[..9][0..] == OLD[..9];
  }

  // ---- Files without usable prefixes -----------------------------------------------

  /** [s, e) is the maximal run of printable bytes around [p, p + 10). */
  ghost predicate RunAround(data: seq<Byte>, p: nat, s: nat, e: nat) {
    && s <= p && p + 10 <= e <= |data|
    && (forall k :: s <= k < e ==> 0x20 <= data[k] < 0x7F)
    && (s > 0 ==> !(0x20 <= data[s - 1] < 0x7F)) && (e < |data| ==> !(0x20 <= data[e] < 0x7F))
  }

  /** The four bytes before a run are its prefix when they hold, least significant byte
      first, a positive number within one of the run's length. */
  lemma PrefixExact(data: seq<Byte>, p: nat, s: nat, e: nat)
    requires RunAround(data, p, s, e)
    ensures FindPrefix(data, p) ==
      if s < 4 then -1
      else
        var len := Word(data, s - 4);
        if len >= 1 && e - s - 1 <= len <= e - s + 1 then s - 4 else -1
  {
    RunStartIs(data, p, s);
    RunEndIs(data, p + 10, e);
    if s >= 4 {
      LittleEndian(data, s - 4);
    }
  }

  /** The names, letter by letter. */
  lemma Names()
    ensures |OLD| == 10 && forall i :: 0 <= i < 10 ==> OLD[i] == "multiplayr"[i] as int
    ensures |NEW| == 13 && forall i :: 0 <= i < 13 ==> NEW[i] == "kenshi-online"[i] as int
  {
  }

  /** Two occurrences never overlap. */
  lemma Apart(data: seq<Byte>, p: nat, q: nat)
    requires At(data, p) && At(data, q) && p < q
    ensures p + 10 <= q
  {
    if q < p + 10 {
      WindowPrintable(data, p);
      WindowPrintable(data, q);
      assert data[q] == OLD[q - p];
      assert data[q] == OLD[0];
      NoSecondM(q - p);
    }
  }

  lemma NoSecondM(d: nat)
    requires 0 < d < 10
    ensures OLD[d] != OLD[0]
  {
  }

  ghost predicate NoPrefixes(data: seq<Byte>) {
    forall p: nat :: At(data, p) ==> FindPrefix(data, p) == -1
  }

  lemma SuffixAt(data: seq<Byte>, c: nat, k: nat)
    requires c <= |data|
    ensures At(data[c..], k) <==> At(data, c + k)
  {
    if c + k + 10 <= |data| {
      assert data[c..][k..k + 10] == data[c + k..c + k + 10];
    }
  }

  /** Replacing from c on: up to the first occurrence p, and on from its end. */
  lemma ReplaceFrom(data: seq<Byte>, c: nat, p: nat)
    requires c <= p && At(data, p) && forall k: nat :: c <= k < p ==> !At(data, k)
    ensures ReplaceAll(data[c..]) == data[c..p] + NEW + ReplaceAll(data[p + 10..])
  {
    AtFits(data, p);
    hide At, ReplaceAll;
    var d := data[c..];
    forall k: nat ensures At(d, k) <==> At(data, c + k) {
      SuffixAt(data, c, k);
    }
    assert At(d, p - c);
    assert NextOcc(d, 0) == p - c;
    ReplaceStep(d);
    assert d[p - c + 10..] == data[p + 10..] && d[..p - c] == data[c..p];
  }

  lemma AtFits(data: seq<Byte>, p: nat)
    ensures At(data, p) ==> p + 10 <= |data|
  {
  }

  lemma ReplaceStep(s: seq<Byte>)
    ensures var q := NextOcc(s, 0); ReplaceAll(s) == if q == -1 then s else s[..q] + NEW + ReplaceAll(s[q + 10..])
  {
  }

  lemma {:induction false} ScanReplaces(data: seq<Byte>, i: nat)
    requires i <= |data| && NoPrefixes(data)
    ensures var st := Scan(data, i);
      && st.cursor <= |data| && ReplaceAll(data) == st.out + ReplaceAll(data[st.cursor..])
      && (forall p: nat :: st.cursor <= p < i ==> !At(data, p))
      && (st.cursor == 0 || (10 <= st.cursor < i + 10 && At(data, st.cursor - 10)))
  {
    hide At, FindPrefix, ReplaceAll, Slice;
    if i == 0 {
      assert data[0..] == data;
    } else {
      var st, p := Scan(data, i - 1), i - 1;
      ScanReplaces(data, i - 1);
      if At(data, p) {
        if st.cursor > p {
          Apart(data, st.cursor - 10, p);
        }
        AtFits(data, p);
        ReplaceFrom(data, st.cursor, p);
        PlainRegion(data, p);
        SliceIs(data, st.cursor, p);
      }
    }
  }

  lemma PlainRegion(data: seq<Byte>, p: nat)
    requires At(data, p) && FindPrefix(data, p) == -1
    ensures RegionOf(data, p) == Region(p, p + 10, NEW)
  {
    hide FindPrefix;
  }

  lemma SliceIs(data: seq<Byte>, i: nat, j: nat)
    requires i <= j <= |data|
    ensures Slice(data, i, j) == data[i..j]
  {
  }

  /** In a file where no occurrence sits in a length-prefixed string, every occurrence
      is replaced and every other byte stays. */
  lemma RebaseWithoutPrefixes(data: seq<Byte>)
    requires NoPrefixes(data)
    ensures Rebased(data) == ReplaceAll(data)
  {
    hide At, FindPrefix, ReplaceAll, Slice, Scan, Rebased;
    RebasedIsScan(data);
    ScanReplaces(data, |data|);
    var c := Scan(data, |data|).cursor;
    forall k: nat ensures !At(data[c..], k) {
      SuffixAt(data, c, k);
      AtFits(data, c + k);
    }
    ReplaceStep(data[c..]);
    SliceIs(data, c, |data|);
  }
}
