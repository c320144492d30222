/**
 * The Python list operations the on-enter actions use on the inventory
 * and the modifiers: `extend` with repeated copies, `list.remove` and the
 * filtering comprehension of 'remove-all'.
 */
module Lists {
  import opened Counting

  /** `[x for _ in range(n)]`: `n` copies of `x`, none when `n` is negative. */
  function Repeat<T>(x: T, n: int): (r: seq<T>)
    ensures |r| == if n < 0 then 0 else n
    ensures forall i :: 0 <= i < |r| ==> r[i] == x
    decreases n
  {
    if n <= 0 then [] else Repeat(x, n - 1) + [x]
  }

  /** `list.remove(x)`: deletes the first occurrence of `x`. */
  function RemoveFirst<T(==)>(s: seq<T>, x: T): seq<T>
    requires x in s
  {
    var k := FirstIndex(s, x);
    s[..k] + s[k + 1..]
  }

  /** `[i for i in s if i != x]`. */
  function RemoveAll<T(==)>(s: seq<T>, x: T): seq<T>
    decreases |s|
  {
    if |s| == 0 then []
    else (if s[0] == x then [] else [s[0]]) + RemoveAll(s[1..], x)
  }

  /** Repeating adds exactly `n` occurrences of `x` and nothing else. */
  lemma {:induction false} RepeatCounts<T>(x: T, n: int)
    ensures multiset(Repeat(x, n)) == multiset{}[x := if n < 0 then 0 else n]
    decreases n
  {
    if n > 0 {
      RepeatCounts(x, n - 1);
    }
  }

  /** `list.remove(x)` takes away exactly one occurrence of `x`. */
  lemma RemoveFirstCounts<T>(s: seq<T>, x: T)
    requires x in s
    ensures multiset(RemoveFirst(s, x)) == multiset(s) - multiset{x}
  {
    var k := FirstIndex(s, x);
    var a, b := s[..k], s[k + 1..];
    assert s == a + [x] + b;
    assert multiset(s) == multiset(a) + multiset{x} + multiset(b);
    assert multiset(RemoveFirst(s, x)) == multiset(a) + multiset(b);
  }

  /** 'remove-all' drops every occurrence of `x` and leaves every other count unchanged. */
  lemma {:induction false} RemoveAllCounts<T>(s: seq<T>, x: T)
    ensures x !in RemoveAll(s, x)
    ensures forall y :: y != x ==> multiset(RemoveAll(s, x))[y] == multiset(s)[y]
    decreases |s|
  {
    if |s| > 0 {
      RemoveAllCounts(s[1..], x);
      assert s == [s[0]] + s[1..];
    }
  }

  /** 'remove-all' keeps the order: it works piecewise on a concatenation. */
  lemma {:induction false} RemoveAllConcat<T>(a: seq<T>, b: seq<T>, x: T)
    ensures RemoveAll(a + b, x) == RemoveAll(a, x) + RemoveAll(b, x)
    decreases |a|
  {
    if |a| > 0 {
      RemoveAllConcat(a[1..], b, x);
      assert (a + b)[1..] == a[1..] + b;
    } else {
      assert a + b == b;
    }
  }

  /** 'remove-all' of an absent element changes nothing. */
  lemma {:induction false} RemoveAllAbsent<T>(s: seq<T>, x: T)
    requires x !in s
    ensures RemoveAll(s, x) == s
    decreases |s|
  {
    if |s| > 0 {
      RemoveAllAbsent(s[1..], x);
      assert s == [s[0]] + s[1..];
    }
  }

  /** 'remove-all' of the only element a list holds empties it. */
  lemma {:induction false} RemoveAllSame<T>(s: seq<T>, x: T)
    requires forall i :: 0 <= i < |s| ==> s[i] == x
    ensures RemoveAll(s, x) == []
    decreases |s|
  {
    if |s| > 0 {
      RemoveAllSame(s[1..], x);
    }
  }
}
