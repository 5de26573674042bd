/** Integers as decimal text. */
module Decimal {
  predicate IsDigits(s: string) {
    forall i | 0 <= i < |s| :: '0' <= s[i] <= '9'
  }

  function FromNat(n: nat): (s: string)
    ensures s != "" && IsDigits(s)
  {
    if n < 10 then [('0' as int + n) as char]
    else FromNat(n / 10) + [('0' as int + n % 10) as char]
  }

  function FromInt(n: int): string {
    if n < 0 then "-" + FromNat(-n) else FromNat(n)
  }

  function Value(s: string): int {
    if s == "" then 0 else 10 * Value(s[..|s| - 1]) + (s[|s| - 1] as int - '0' as int)
  }

  lemma {:induction false} ValueOfNat(n: nat)
    ensures Value(FromNat(n)) == n
  {
    if n < 10 {
      assert FromNat(n)[..0] == "";
      assert Value(FromNat(n)[..0]) == 0;
    } else {
      ValueOfNat(n / 10);
      assert FromNat(n)[..|FromNat(n)| - 1] == FromNat(n / 10);
    }
  }

  lemma NatIsInjective(m: nat, n: nat)
    requires FromNat(m) == FromNat(n)
    ensures m == n
  {
    ValueOfNat(m);
    ValueOfNat(n);
  }

  lemma IntIsInjective(m: int, n: int)
    requires FromInt(m) == FromInt(n)
    ensures m == n
  {
    SignShows(m);
    SignShows(n);
    ValueOfNat(if m < 0 then -m else m);
    ValueOfNat(if n < 0 then -n else n);
  }

  lemma SignShows(n: int)
    ensures FromInt(n) != "" && (FromInt(n)[0] == '-' <==> n < 0)
    ensures n < 0 ==> FromInt(n)[1..] == FromNat(-n)
  {
  }
}
