/**
 * The pieces an account number is built from: an upper-cased username
 * prefix, a dash and the decimal rendering of a per-user counter.
 */
module AccountNumbers {

  /** ASCII upper-casing of one character. */
  function UpperChar(c: char): char
  {
    if 'a' <= c <= 'z' then (c as int - 'a' as int + 'A' as int) as char else c
  }

  /** Character-wise upper-casing. */
  function Upper(s: string): (r: string)
    ensures |r| == |s|
    ensures forall i :: 0 <= i < |s| ==> r[i] == UpperChar(s[i])
  {
    seq(|s|, i requires 0 <= i < |s| => UpperChar(s[i]))
  }

  function Min(a: int, b: int): int
  {
    if a <= b then a else b
  }

  function DigitChar(d: nat): (c: char)
    requires d < 10
    ensures '0' <= c <= '9'
  {
    (d + '0' as int) as char
  }

  /** The decimal rendering of a natural number, without leading zeros, as
      Java's string concatenation of a non-negative int produces it. */
  function DecimalString(n: nat): (s: string)
    ensures |s| >= 1
    ensures forall i :: 0 <= i < |s| ==> '0' <= s[i] <= '9'
    ensures n >= 10 <==> |s| >= 2
    ensures s[|s| - 1] == DigitChar(n % 10)
  {
    if n < 10 then [DigitChar(n)] else DecimalString(n / 10) + [DigitChar(n % 10)]
  }

  /** Distinct numbers have distinct renderings. */
  lemma {:induction false} DecimalStringInjective(a: nat, b: nat)
    requires DecimalString(a) == DecimalString(b)
    ensures a == b
  {
    var sa, sb := DecimalString(a), DecimalString(b);
    assert DigitChar(a % 10) == DigitChar(b % 10);
    if a >= 10 && b >= 10 {
      assert DecimalString(a / 10) == sa[..|sa| - 1] == sb[..|sb| - 1] == DecimalString(b / 10);
      DecimalStringInjective(a / 10, b / 10);
    }
  }

  /** An account number: prefix, dash, counter. */
  function Compose(prefix: string, counter: nat): (no: string)
    ensures |no| == |prefix| + 1 + |DecimalString(counter)|
    ensures no[..|prefix|] == prefix && no[|prefix|] == '-'
  {
    prefix + "-" + DecimalString(counter)
  }

  /** Under one prefix, distinct counters give distinct account numbers. */
  lemma ComposeInjective(prefix: string, a: nat, b: nat)
    requires a != b
    ensures Compose(prefix, a) != Compose(prefix, b)
  {
    if Compose(prefix, a) == Compose(prefix, b) {
      assert DecimalString(a) == Compose(prefix, a)[|prefix| + 1..];
      assert DecimalString(b) == Compose(prefix, b)[|prefix| + 1..];
      DecimalStringInjective(a, b);
    }
  }

  /** A user's account counter: seeded at 1000 and only ever incremented,
      so it never falls below its seed. */
  type Counter = c: nat | 1000 <= c witness 1000

  /** The account numbers a user whose prefix is `prefix` has been issued
      once its counter, seeded at `seed`, has reached `counter`. */
  ghost function Issued(prefix: string, seed: nat, counter: nat): set<string>
  {
    set c: nat | seed < c <= counter :: Compose(prefix, c)
  }

  /** Issuing the next counter value yields a number not issued before, and
      the issued set grows by exactly that number. */
  lemma IssuedNext(prefix: string, seed: nat, counter: nat)
    requires seed <= counter
    ensures Compose(prefix, counter + 1) !in Issued(prefix, seed, counter)
    ensures Issued(prefix, seed, counter + 1) == Issued(prefix, seed, counter) + {Compose(prefix, counter + 1)}
  {
    if Compose(prefix, counter + 1) in Issued(prefix, seed, counter) {
      var c: nat :| seed < c <= counter && Compose(prefix, c) == Compose(prefix, counter + 1);
      ComposeInjective(prefix, c, counter + 1);
    }
  }
}
