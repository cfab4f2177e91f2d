/** The spawn packet byte by byte: the two client writers, the server's parser
    and the packet it relays. Floats travel as their 32-bit patterns; the packet
    header has already been read. */
module SpawnWire {
  import opened Base
  import opened Bytes

  /** 100.0f */
  const FULL: U32 := 0x42C8_0000
  const FULL_BITS: seq<U32> := [FULL, FULL, FULL, FULL, FULL, FULL, FULL]

  type Bits7 = h: seq<U32> | |h| == 7 witness FULL_BITS

  datatype Extended = Extended(health: Bits7, alive: bool)

  /** id is the client's entity id, or the server's in the relayed packet. */
  datatype Spawn = Spawn(
    id: U32, kind: Byte, owner: U32, templateId: U32, x: U32, y: U32, z: U32, rotation: U32, factionId: U32,
    name: seq<Byte>, extended: Option<Extended>)

  // ---- Words ----------------------------------------------------------------------------

  function Words(ws: seq<U32>): (r: seq<Byte>)
    ensures |r| == 4 * |ws|
  {
    if ws == [] then [] else Words(ws[..|ws| - 1]) + Digits(ws[|ws| - 1], 4)
  }

  function WordAt(d: seq<Byte>, i: nat): U32
    requires i + 4 <= |d|
  {
    FromDigitsBound(d[i..i + 4]);
    Pow256Four();
    FromDigits(d[i..i + 4])
  }

  function HalfAt(d: seq<Byte>, i: nat): (r: nat)
    requires i + 2 <= |d|
    ensures r < 0x1_0000
  {
    FromDigitsBound(d[i..i + 2]);
    Pow256Four();
    FromDigits(d[i..i + 2])
  }

  function WordsAt(d: seq<Byte>, i: nat, k: nat): (r: seq<U32>)
    requires i + 4 * k <= |d|
    ensures |r| == k
  {
    if k == 0 then [] else WordsAt(d, i, k - 1) + [WordAt(d, i + 4 * (k - 1))]
  }

  lemma WordBack(w: U32, d: seq<Byte>, i: nat)
    requires i + 4 <= |d| && d[i..i + 4] == Digits(w, 4)
    ensures WordAt(d, i) == w
  {
    Pow256Four();
    DigitsBack(w, 4);
  }

  lemma HalfBack(n: nat, d: seq<Byte>, i: nat)
    requires n < 0x1_0000 && i + 2 <= |d| && d[i..i + 2] == Digits(n, 2)
    ensures HalfAt(d, i) == n
  {
    Pow256Four();
    DigitsBack(n, 2);
  }

  /** s lies in d at position i. */
  ghost predicate Lies(d: seq<Byte>, i: nat, s: seq<Byte>) {
    i + |s| <= |d| && forall k :: 0 <= k < |s| ==> d[i + k] == s[k]
  }

  lemma LiesWithin(d: seq<Byte>, i: nat, s: seq<Byte>)
    requires Lies(d, i, s)
    ensures i + |s| <= |d|
  {
  }

  lemma SplitLies(d: seq<Byte>, i: nat, a: seq<Byte>, b: seq<Byte>)
    requires Lies(d, i, a + b)
    ensures Lies(d, i, a) && Lies(d, i + |a|, b)
  {
    forall k | 0 <= k < |a| ensures d[i + k] == a[k] {
      assert (a + b)[k] == a[k];
    }
    forall k | 0 <= k < |b| ensures d[i + |a| + k] == b[k] {
      assert d[i + (|a| + k)] == (a + b)[|a| + k];
    }
  }

  lemma LiesSlice(d: seq<Byte>, i: nat, s: seq<Byte>)
    requires i + |s| <= |d|
    ensures Lies(d, i, s) <==> d[i..i + |s|] == s
  {
    var t := d[i..i + |s|];
    forall k | 0 <= k < |s| ensures t[k] == d[i + k] {}
    assert t == s <==> forall k :: 0 <= k < |s| ==> t[k] == s[k];
    if t == s {
      forall k | 0 <= k < |s| ensures d[i + k] == s[k] {
        assert t[k] == s[k];
      }
    }
  }

  /** Words written somewhere in a packet are read back from there. */
  lemma {:induction false} WordsLie(ws: seq<U32>, d: seq<Byte>, i: nat)
    requires Lies(d, i, Words(ws))
    ensures WordsAt(d, i, |ws|) == ws
  {
    hide WordAt, Digits, Lies;
    LiesWithin(d, i, Words(ws));
    if ws != [] {
      var front, w := ws[..|ws| - 1], ws[|ws| - 1];
      SplitLies(d, i, Words(front), Digits(w, 4));
      LiesWithin(d, i + |Words(front)|, Digits(w, 4));
      LiesSlice(d, i + |Words(front)|, Digits(w, 4));
      WordsLie(front, d, i);
      WordBack(w, d, i + |Words(front)|);
    }
  }

  lemma WordsBack(ws: seq<U32>, d: seq<Byte>, i: nat)
    requires i + 4 * |ws| <= |d| && d[i..i + 4 * |ws|] == Words(ws)
    ensures WordsAt(d, i, |ws|) == ws
  {
    hide WordsAt, Words, Lies;
    LiesSlice(d, i, Words(ws));
    WordsLie(ws, d, i);
  }

  // ---- Writers --------------------------------------------------------------------------

  function Truth(b: bool): Byte {
    if b then 1 else 0
  }

  function Middle(e: Spawn): (r: seq<U32>)
    ensures |r| == 7
  {
    [e.owner, e.templateId, e.x, e.y, e.z, e.rotation, e.factionId]
  }

  function Front(e: Spawn): (r: seq<Byte>)
    ensures |r| == 33
  {
    Words([e.id]) + [e.kind] + Words(Middle(e))
  }

  function Tail(x: Extended): (r: seq<Byte>)
    ensures |r| == 30
  {
    [1] + Words(x.health) + [Truth(x.alive)]
  }

  /** The client clips the name to 255 bytes and appends the extended state. */
  function ClientBytes(e: Spawn, x: Extended): seq<Byte> {
    Front(e) + Digits(|Clip(e.name, 255)|, 2) + Clip(e.name, 255) + Tail(x)
  }

  /** The test client writes the whole name after a 16-bit length, and stops. */
  function TestBytes(e: Spawn): seq<Byte> {
    Front(e) + Digits(|e.name| % 0x1_0000, 2) + e.name
  }

  // ---- The server's parser ------------------------------------------------------------------

  /** The name and the position after it. A length over 255, or longer than the
      packet, is read but its bytes are not. */
  function NameAt(d: seq<Byte>, i: nat): (r: (seq<Byte>, nat))
    requires i <= |d|
    ensures i <= r.1 <= |d|
  {
    if |d| - i < 2 then ([], i)
    else
      var n := HalfAt(d, i);
      if 0 < n <= 255 && n <= |d| - (i + 2) then (d[i + 2..i + 2 + n], i + 2 + n) else ([], i + 2)
  }

  function ExtendedAt(d: seq<Byte>, p: nat): Option<Extended>
    requires p <= |d|
  {
    if |d| - p >= 1 && d[p] == 1 && |d| - (p + 1) >= 29
    then Some(Extended(WordsAt(d, p + 1, 7), d[p + 29] != 0))
    else None
  }

  function Parse(d: seq<Byte>): Option<Spawn> {
    if |d| < 33 then None
    else
      var id, kind, m := WordsAt(d, 0, 1), d[4], WordsAt(d, 5, 7);
      var (name, p) := NameAt(d, 33);
      Some(Spawn(id[0], kind, m[0], m[1], m[2], m[3], m[4], m[5], m[6], name, ExtendedAt(d, p)))
  }

  /** What the server stores for a parsed packet: full health unless told otherwise. */
  function Stored(e: Spawn): Extended {
    match e.extended
    case Some(x) => x
    case None => Extended(FULL_BITS, true)
  }

  /** The S2C_EntitySpawn the server broadcasts for it. */
  function RelayBytes(e: Spawn, serverId: U32, player: U32): seq<Byte> {
    Front(e.(id := serverId, owner := player)) + Digits(|e.name| % 0x1_0000, 2) + e.name + Tail(Stored(e))
  }

  // ---- Round trips ------------------------------------------------------------------------

  lemma FrontBack(e: Spawn, d: seq<Byte>)
    requires |d| >= 33 && d[..33] == Front(e)
    ensures WordsAt(d, 0, 1) == [e.id] && d[4] == e.kind && WordsAt(d, 5, 7) == Middle(e)
  {
    hide Words, WordsAt, Middle;
    var f := d[..33];
    assert d[0..4] == f[0..4] && f[0..4] == Words([e.id]);
    assert d[5..33] == f[5..33] && f[5..33] == Words(Middle(e));
    WordsBack([e.id], d, 0);
    WordsBack(Middle(e), d, 5);
    assert d[4] == f[4];
  }

  lemma ParseFront(e: Spawn, d: seq<Byte>)
    requires |d| >= 33 && d[..33] == Front(e)
    ensures Parse(d) == Some(e.(name := NameAt(d, 33).0, extended := ExtendedAt(d, NameAt(d, 33).1)))
  {
    hide WordsAt, Front, NameAt, ExtendedAt;
    FrontBack(e, d);
  }

  lemma FourParts(d: seq<Byte>, a: seq<Byte>, b: seq<Byte>, c: seq<Byte>, t: seq<Byte>)
    requires d == a + b + c + t
    ensures |d| == |a| + |b| + |c| + |t|
    ensures d[..|a|] == a && d[|a|..|a| + |b|] == b
    ensures d[|a| + |b|..|a| + |b| + |c|] == c && d[|a| + |b| + |c|..] == t
  {
  }

  lemma NameBack(d: seq<Byte>, i: nat, name: seq<Byte>)
    requires i + 2 + |name| <= |d| && |name| <= 255
    requires d[i..i + 2] == Digits(|name|, 2) && d[i + 2..i + 2 + |name|] == name
    ensures NameAt(d, i) == (name, i + 2 + |name|)
  {
    hide *;
    HalfBack(|name|, d, i);
    NameFrom(d, i, name);
  }

  lemma NameFrom(d: seq<Byte>, i: nat, name: seq<Byte>)
    requires i + 2 + |name| <= |d| && |name| <= 255
    requires HalfAt(d, i) == |name| && d[i + 2..i + 2 + |name|] == name
    ensures NameAt(d, i) == (name, i + 2 + |name|)
  {
    hide HalfAt;
    assert |name| == 0 ==> name == [];
  }

  lemma TailBack(d: seq<Byte>, p: nat, x: Extended)
    requires p <= |d| && d[p..] == Tail(x)
    ensures ExtendedAt(d, p) == Some(x)
  {
    hide Words, WordsAt;
    var t := d[p..];
    assert d[p] == t[0] && d[p + 29] == t[29];
    assert d[p + 1..p + 29] == t[1..29] && t[1..29] == Words(x.health);
    WordsBack(x.health, d, p + 1);
  }

  /** A packet laid out as front, length, name, tail parses to its parts. */
  lemma LayoutBack(e: Spawn, name: seq<Byte>, x: Extended)
    requires |name| <= 255
    ensures Parse(Front(e) + Digits(|name|, 2) + name + Tail(x)) == Some(e.(name := name, extended := Some(x)))
  {
    hide *;
    var d := Front(e) + Digits(|name|, 2) + name + Tail(x);
    FourParts(d, Front(e), Digits(|name|, 2), name, Tail(x));
    ParseFront(e, d);
    NameBack(d, 33, name);
    TailBack(d, 35 + |name|, x);
  }

  /** The server recovers every field the client wrote, the name cut at 255 bytes. */
  lemma ClientRoundTrip(e: Spawn, x: Extended)
    ensures Parse(ClientBytes(e, x)) == Some(e.(name := Clip(e.name, 255), extended := Some(x)))
  {
    LayoutBack(e, Clip(e.name, 255), x);
  }

  /** What the server relays parses to the same character with the server's id and
      owner, and with the health and life the server stored. */
  lemma RelayRoundTrip(d: seq<Byte>, serverId: U32, player: U32)
    requires Parse(d).Some?
    ensures var e := Parse(d).value;
      Parse(RelayBytes(e, serverId, player)) == Some(e.(id := serverId, owner := player, extended := Some(Stored(e))))
  {
    hide Front, Tail, Words, WordsAt, ExtendedAt;
    var e := Parse(d).value;
    NameIsShort(d);
    LayoutBack(e.(id := serverId, owner := player), e.name, Stored(e));
  }

  lemma NameIsShort(d: seq<Byte>)
    requires |d| >= 33
    ensures |NameAt(d, 33).0| <= 255
  {
  }

  /** A packet that ends with the name: for names of at most 255 bytes the parser
      finds the name, full health and a living character. A longer name is not
      consumed, and its first bytes are taken for the extended state. */
  lemma TestClientParsed(e: Spawn)
    requires |e.name| < 0x1_0000
    ensures var r := Parse(TestBytes(e));
      && (|e.name| <= 255 ==> r == Some(e.(name := e.name, extended := None)) && Stored(r.value) == Extended(FULL_BITS, true))
      && (|e.name| > 255 ==> r.Some? && r.value.name == [] && (r.value.extended.Some? <==> e.name[0] == 1))
  {
    hide Parse, Front, NameAt, ExtendedAt, Digits;
    var d := TestBytes(e);
    assert d == Front(e) + Digits(|e.name|, 2) + e.name + [];
    FourParts(d, Front(e), Digits(|e.name|, 2), e.name, []);
    ParseFront(e, d);
    if |e.name| <= 255 {
      NameBack(d, 33, e.name);
      NothingLeft(d);
    } else {
      LongNameLeft(d, e.name);
    }
  }

  lemma NothingLeft(d: seq<Byte>)
    ensures ExtendedAt(d, |d|) == None
  {
  }

  lemma LongNameLeft(d: seq<Byte>, name: seq<Byte>)
    requires 255 < |name| < 0x1_0000 && |d| == 35 + |name|
    requires d[33..35] == Digits(|name|, 2) && d[35..35 + |name|] == name
    ensures NameAt(d, 33) == ([], 35) && (ExtendedAt(d, 35).Some? <==> name[0] == 1)
  {
    hide Digits, HalfAt, WordsAt;
    HalfBack(|name|, d, 33);
    assert d[35..35 + |name|][0] == name[0];
  }

  /** What of a character a client's packet carries. */
  function Carried(e: Spawn): Spawn {
    e.(name := Clip(e.name, 255), extended := None)
  }

  /** Two client packets are the same bytes if and only if they carry the same
      character, names compared up to 255 bytes, with the same state. */
  lemma ClientBytesExact(e: Spawn, x: Extended, e': Spawn, x': Extended)
    ensures ClientBytes(e, x) == ClientBytes(e', x') <==> Carried(e) == Carried(e') && x == x'
  {
    hide ClientBytes, Parse, Clip;
    ClientRoundTrip(e, x);
    ClientRoundTrip(e', x');
    CarriedBytes(e, x);
    CarriedBytes(e', x');
    assert e.(name := Clip(e.name, 255), extended := Some(x)).(extended := None) == Carried(e);
    assert e'.(name := Clip(e'.name, 255), extended := Some(x')).(extended := None) == Carried(e');
  }

  lemma CarriedBytes(e: Spawn, x: Extended)
    ensures ClientBytes(Carried(e), x) == ClientBytes(e, x)
  {
    hide Words, Digits, Tail;
    assert Front(Carried(e)) == Front(e) && Clip(Clip(e.name, 255), 255) == Clip(e.name, 255);
  }

  // ---- The layout, by offsets ----------------------------------------------------------------

  lemma WordIs(d: seq<Byte>, i: nat)
    requires i + 4 <= |d|
    ensures WordAt(d, i) == Word(d, i)
  {
    LittleEndian(d, i);
  }

  lemma HalfIs(d: seq<Byte>, i: nat)
    requires i + 2 <= |d|
    ensures HalfAt(d, i) == Half(d, i)
  {
    LittleEndian(d, i);
  }

  lemma {:induction false} WordsAre(d: seq<Byte>, i: nat, k: nat)
    requires i + 4 * k <= |d|
    ensures forall j :: 0 <= j < k ==> WordsAt(d, i, k)[j] == Word(d, i + 4 * j)
  {
    hide WordAt, Word;
    if k > 0 {
      WordsAre(d, i, k - 1);
      WordIs(d, i + 4 * (k - 1));
    }
  }

  /** Where the name ends: after a 16-bit length of 1 to 255 at byte 33 whose bytes
      are there, after the length alone otherwise. */
  function NameLength(d: seq<Byte>): int
    requires |d| >= 33
  {
    if |d| < 35 then 0
    else
      var n := Half(d, 33);
      if 1 <= n <= 255 && 35 + n <= |d| then n else 0
  }

  lemma NameExact(d: seq<Byte>)
    requires |d| >= 33
    ensures var n := NameLength(d);
      NameAt(d, 33) == if |d| < 35 then ([], 33) else (d[35..35 + n], 35 + n)
  {
    hide HalfAt;
    if |d| >= 35 {
      HalfIs(d, 33);
      assert d[35..35] == [];
    }
  }

  lemma ExtendedExact(d: seq<Byte>, p: nat)
    requires p <= |d|
    ensures ExtendedAt(d, p).Some? <==> p + 30 <= |d| && d[p] == 1
    ensures ExtendedAt(d, p).Some? ==>
      && (forall j :: 0 <= j < 7 ==> ExtendedAt(d, p).value.health[j] == Word(d, p + 1 + 4 * j))
      && ExtendedAt(d, p).value.alive == (d[p + 29] != 0)
  {
    hide WordsAt, Word;
    if p + 30 <= |d| {
      WordsAre(d, p + 1, 7);
    }
  }

  /** What the server reads from a packet, byte by byte: nothing below 33 bytes, else
      the nine fixed fields, the name, and a full extended state after the flag 1. */
  lemma ParseExact(d: seq<Byte>)
    ensures Parse(d).Some? <==> |d| >= 33
    ensures Parse(d).Some? ==>
      var e, n := Parse(d).value, NameLength(d);
      && e.id == Word(d, 0) && e.kind == d[4] && e.owner == Word(d, 5) && e.templateId == Word(d, 9)
      && e.x == Word(d, 13) && e.y == Word(d, 17) && e.z == Word(d, 21)
      && e.rotation == Word(d, 25) && e.factionId == Word(d, 29)
      && e.name == (if n == 0 then [] else d[35..35 + n])
      && (e.extended.Some? <==> 65 + n <= |d| && d[35 + n] == 1)
      && (e.extended.Some? ==>
            && e.extended.value.alive == (d[64 + n] != 0)
            && forall j :: 0 <= j < 7 ==> e.extended.value.health[j] == Word(d, 36 + n + 4 * j))
  {
    hide WordsAt, Word, NameAt, ExtendedAt;
    if |d| >= 33 {
      WordsAre(d, 0, 1);
      WordsAre(d, 5, 7);
      NameExact(d);
      ExtendedExact(d, NameAt(d, 33).1);
    }
  }

  /** A client packet is 65 bytes and the name; one without state is 30 shorter. With
      ParseExact and the round trips this fixes every byte of both. */
  lemma PacketSizes(e: Spawn, x: Extended)
    ensures |ClientBytes(e, x)| == 65 + (if |e.name| < 255 then |e.name| else 255)
    ensures |TestBytes(e)| == 35 + |e.name|
  {
  }

  /** 0x42C80000 is the float 100: exponent 133 - 127 = 6, significand 1 + 0x480000/2^23. */
  lemma FullIsHundred()
    ensures FULL / 0x80_0000 == 133 && FULL % 0x80_0000 == 0x48_0000
    ensures 64.0 * (1.0 + 0x48_0000 as real / 0x80_0000 as real) == 100.0
  {
  }

  // ---- The objects ------------------------------------------------------------------------

  class PacketWriter {
    var buffer: seq<Byte>

    constructor ()
      ensures buffer == []
    {
      buffer := [];
    }

    method WriteRaw(s: seq<Byte>)
      modifies this
      ensures buffer == old(buffer) + s
    {
      buffer := buffer + s;
    }

    method WriteU32(w: U32)
      modifies this
      ensures buffer == old(buffer) + Digits(w, 4)
    {
      WriteRaw(Digits(w, 4));
    }

    method WriteWords(ws: seq<U32>)
      modifies this
      ensures buffer == old(buffer) + Words(ws)
    {
      hide Digits;
      for i := 0 to |ws|
        invariant buffer == old(buffer) + Words(ws[..i])
      {
        assert ws[..i + 1][..i] == ws[..i];
        WriteU32(ws[i]);
      }
      assert ws[..|ws|] == ws;
    }

    method WriteFront(e: Spawn)
      modifies this
      ensures buffer == old(buffer) + Front(e)
    {
      hide Words;
      WriteWords([e.id]);
      WriteRaw([e.kind]);
      WriteWords([e.owner, e.templateId, e.x, e.y, e.z, e.rotation, e.factionId]);
      assert buffer == old(buffer) + (Words([e.id]) + [e.kind] + Words(Middle(e)));
    }

    /** One character of SendExistingEntitiesToServer. */
    method WriteSpawn(e: Spawn, x: Extended)
      modifies this
      ensures buffer == old(buffer) + ClientBytes(e, x)
    {
      hide Words, Digits, Front;
      WriteFront(e);
      var nameLen := if |e.name| < 255 then |e.name| else 255;
      WriteRaw(Digits(nameLen, 2));
      if nameLen > 0 {
        WriteRaw(e.name[..nameLen]);
      }
      assert e.name[..nameLen] == Clip(e.name, 255);
      WriteRaw([1]);
      WriteWords(x.health);
      WriteRaw([if x.alive then 1 else 0]);
      assert buffer == old(buffer) + (Front(e) + Digits(nameLen, 2) + Clip(e.name, 255) + Tail(x));
    }
  }

  class PacketReader {
    const data: seq<Byte>
    var pos: nat

    ghost predicate Valid()
      reads this
    {
      pos <= |data|
    }

    constructor (data: seq<Byte>)
      ensures Valid() && this.data == data && pos == 0
    {
      this.data := data;
      pos := 0;
    }

    function Remaining(): nat
      requires Valid()
      reads this
    {
      |data| - pos
    }

    method ReadRaw(len: nat) returns (ok: bool, s: seq<Byte>)
      requires Valid()
      modifies this`pos
      ensures Valid() && ok == (old(pos) + len <= |data|)
      ensures if ok then pos == old(pos) + len && s == data[old(pos)..pos] else s == [] && pos == old(pos)
    {
      if pos + len > |data| {
        return false, [];
      }
      s := data[pos..pos + len];
      pos := pos + len;
      return true, s;
    }

    method ReadU32() returns (ok: bool, w: U32)
      requires Valid()
      modifies this`pos
      ensures Valid() && ok == (old(pos) + 4 <= |data|)
      ensures if ok then pos == old(pos) + 4 && w == WordAt(data, old(pos)) else pos == old(pos)
    {
      hide FromDigits;
      var start := pos;
      var s;
      ok, s := ReadRaw(4);
      w := if ok then WordAt(data, start) else 0;
    }

    /** All k words, or none: the fixed fields of a truncated packet are dropped. */
    method ReadWords(k: nat) returns (ok: bool, ws: seq<U32>)
      requires Valid()
      modifies this`pos
      ensures Valid() && old(pos) <= pos && ok == (old(pos) + 4 * k <= |data|)
      ensures ok ==> pos == old(pos) + 4 * k && ws == WordsAt(data, old(pos), k)
    {
      hide WordAt;
      ws := [];
      for i := 0 to k
        invariant Valid() && pos == old(pos) + 4 * i && ws == WordsAt(data, old(pos), i)
      {
        var got, w := ReadU32();
        if !got {
          return false, ws;
        }
        ws := ws + [w];
      }
      return true, ws;
    }

    method ReadName() returns (name: seq<Byte>)
      requires Valid()
      modifies this`pos
      ensures Valid() && (name, pos) == NameAt(data, old(pos))
    {
      hide HalfAt;
      name := [];
      if Remaining() >= 2 {
        var nameLen := HalfAt(data, pos);
        pos := pos + 2;
        if nameLen > 0 && nameLen <= 255 && Remaining() >= nameLen {
          var _, s := ReadRaw(nameLen);
          name := s;
        }
      }
    }

    method ReadExtended() returns (extended: Option<Extended>)
      requires Valid()
      modifies this`pos
      ensures Valid() && extended == ExtendedAt(data, old(pos))
    {
      hide WordsAt;
      extended := None;
      if Remaining() >= 1 {
        var _, flag := ReadRaw(1);
        if flag[0] == 1 && Remaining() >= 7 * 4 + 1 {
          var _, health := ReadWords(7);
          var _, alive := ReadRaw(1);
          extended := Some(Extended(health, alive[0] != 0));
        }
      }
    }

    /** The reading part of HandleEntitySpawnReq. */
    method ParseSpawn() returns (r: Option<Spawn>)
      requires Valid() && pos == 0
      modifies this`pos
      ensures Valid() && r == Parse(data)
    {
      hide WordsAt, NameAt, ExtendedAt;
      var ok, id := ReadWords(1);
      if !ok { return None; }
      var kind;
      ok, kind := ReadRaw(1);
      if !ok { return None; }
      var m;
      ok, m := ReadWords(7);
      if !ok { return None; }
      var name := ReadName();
      var extended := ReadExtended();
      return Some(Spawn(id[0], kind[0], m[0], m[1], m[2], m[3], m[4], m[5], m[6], name, extended));
    }
  }
}
