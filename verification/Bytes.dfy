/** Bytes and big-endian numbers. */
module Bytes {
  newtype Byte = x: int | 0 <= x < 256

  function Zeros(n: nat): (s: seq<Byte>)
    ensures |s| == n && forall i | 0 <= i < n :: s[i] == 0
  {
    seq(n, i => 0)
  }

  /** The number whose big-endian digits are the given bytes. */
  function BigEndian(s: seq<Byte>): nat {
    if s == [] then 0 else BigEndian(s[..|s| - 1]) * 256 + s[|s| - 1] as nat
  }

  function Pow256(n: nat): nat {
    if n == 0 then 1 else 256 * Pow256(n - 1)
  }

  lemma {:induction false} BigEndianBound(s: seq<Byte>)
    ensures BigEndian(s) < Pow256(|s|)
  {
    if s != [] {
      BigEndianBound(s[..|s| - 1]);
    }
  }

  /** The low bytes of a number, most significant first. */
  function Digits(n: nat, count: nat): (s: seq<Byte>)
    ensures |s| == count
    decreases count, n
  {
    if count == 0 then [] else Digits(n / 256, count - 1) + [(n % 256) as Byte]
  }

  lemma {:induction false} BigEndianOfDigits(n: nat, count: nat)
    requires n < Pow256(count)
    ensures BigEndian(Digits(n, count)) == n
    decreases count
  {
    if count > 0 {
      BigEndianOfDigits(n / 256, count - 1);
      var s := Digits(n, count);
      assert s[..|s| - 1] == Digits(n / 256, count - 1);
    }
  }
}
