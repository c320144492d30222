/**
 * The string operations the inventory display relies on: Python's `str(n)`
 * for a count and `sep.join(lines)`.
 */
module Text {

  /** The decimal digit for `d`. */
  function Digit(d: nat): (c: char)
    requires d < 10
    ensures '0' <= c <= '9'
  {
    "0123456789"[d]
  }

  /** `str(n)` for a non-negative integer: its decimal digits, no leading zeros. */
  function NatToString(n: nat): (r: string)
    ensures |r| > 0
    ensures forall i :: 0 <= i < |r| ==> '0' <= r[i] <= '9'
    decreases n
  {
    if n < 10 then [Digit(n)] else NatToString(n / 10) + [Digit(n % 10)]
  }

  /** The value of a string of decimal digits (the inverse of NatToString). */
  function ParseNat(s: string): nat
    requires forall i :: 0 <= i < |s| ==> '0' <= s[i] <= '9'
    decreases |s|
  {
    if |s| == 0 then 0
    else 10 * ParseNat(s[..|s| - 1]) + (s[|s| - 1] as int - '0' as int)
  }

  /** Reading back a rendered count gives the count. */
  lemma {:induction false} ParseNatToString(n: nat)
    ensures ParseNat(NatToString(n)) == n
    decreases n
  {
    var r := NatToString(n);
    if n >= 10 {
      ParseNatToString(n / 10);
      assert r[..|r| - 1] == NatToString(n / 10);
    }
  }

  /** `sep.join(xs)`. */
  function Join(sep: string, xs: seq<string>): string
    decreases |xs|
  {
    if |xs| == 0 then ""
    else if |xs| == 1 then xs[0]
    else xs[0] + sep + Join(sep, xs[1..])
  }

  /** Number of occurrences of character `c` in `s`. */
  function Occurrences(s: string, c: char): nat {
    multiset(s)[c]
  }

  /**
   * Joining with a one-character separator that no piece contains puts
   * exactly one separator between consecutive pieces and none at the end.
   */
  lemma {:induction false} JoinSeparators(c: char, xs: seq<string>)
    requires |xs| > 0
    requires forall i :: 0 <= i < |xs| ==> c !in xs[i]
    ensures Occurrences(Join([c], xs), c) == |xs| - 1
    decreases |xs|
  {
    if |xs| > 1 {
      JoinSeparators(c, xs[1..]);
      assert multiset(xs[0] + [c] + Join([c], xs[1..]))
          == multiset(xs[0]) + multiset{c} + multiset(Join([c], xs[1..]));
      assert multiset(xs[0])[c] == 0;
    } else {
      assert multiset(xs[0])[c] == 0;
    }
  }

  /** A join of pieces that are all non-empty is empty exactly when there are no pieces. */
  lemma JoinEmpty(sep: string, xs: seq<string>)
    requires forall i :: 0 <= i < |xs| ==> |xs[i]| > 0
    ensures Join(sep, xs) == "" <==> |xs| == 0
  {
    if |xs| > 0 {
      assert |Join(sep, xs)| >= |xs[0]|;
    }
  }
}
