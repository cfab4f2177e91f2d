/** Bytes and little-endian integers. */
module Bytes {

  type Byte = b: int | 0 <= b < 256

  /** The k low-order bytes of n, least significant first. */
  function Digits(n: nat, k: nat): (r: seq<Byte>)
    ensures |r| == k
  {
    if k == 0 then [] else [n % 256] + Digits(n / 256, k - 1)
  }

  function FromDigits(d: seq<Byte>): nat {
    if d == [] then 0 else (d[0] as int) + 256 * FromDigits(d[1..])
  }

  function Pow256(k: nat): nat {
    if k == 0 then 1 else 256 * Pow256(k - 1)
  }

  lemma {:induction false} DigitsBack(n: nat, k: nat)
    requires n < Pow256(k)
    ensures FromDigits(Digits(n, k)) == n
  {
    if k > 0 {
      DigitsBack(n / 256, k - 1);
      assert Digits(n, k)[1..] == Digits(n / 256, k - 1);
    }
  }

  lemma {:induction false} FromDigitsBound(d: seq<Byte>)
    ensures FromDigits(d) < Pow256(|d|)
  {
    if d != [] {
      FromDigitsBound(d[1..]);
    }
  }

  lemma Pow256Four()
    ensures Pow256(2) == 0x1_0000 && Pow256(4) == 0x1_0000_0000
  {
    assert Pow256(1) == 256 && Pow256(3) == 0x100_0000;
  }

  /** The little-endian number in bytes i and i + 1. */
  function Half(d: seq<Byte>, i: nat): int
    requires i + 2 <= |d|
  {
    (d[i] as int) + 0x100 * (d[i + 1] as int)
  }

  /** The little-endian number in bytes i to i + 3. */
  function Word(d: seq<Byte>, i: nat): int
    requires i + 4 <= |d|
  {
    (d[i] as int) + 0x100 * (d[i + 1] as int) + 0x1_0000 * (d[i + 2] as int) + 0x100_0000 * (d[i + 3] as int)
  }

  /** The first byte counts ones, the next 256s and so on. */
  lemma LittleEndian(d: seq<Byte>, i: nat)
    ensures i + 2 <= |d| ==> FromDigits(d[i..i + 2]) == Half(d, i)
    ensures i + 4 <= |d| ==> FromDigits(d[i..i + 4]) == Word(d, i)
  {
    if i + 2 <= |d| {
      TwoDigits(d[i..i + 2]);
    }
    if i + 4 <= |d| {
      var w := d[i..i + 4];
      assert w[1..][1..] == w[2..];
      assert FromDigits(w[1..]) == (w[1] as int) + 256 * FromDigits(w[2..]);
      TwoDigits(w[2..]);
    }
  }

  lemma TwoDigits(h: seq<Byte>)
    requires |h| == 2
    ensures FromDigits(h) == (h[0] as int) + 0x100 * (h[1] as int)
  {
    assert h[1..][1..] == [];
    assert FromDigits(h[1..]) == h[1] as int;
  }
}
