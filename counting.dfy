/**
 * Counting the occurrences of the elements of a list: the algorithm behind
 * `Player.inventory_dict` and `QuestApp.modifiers_dict`. Both fold a list
 * into an insertion-ordered dictionary item -> number of occurrences.
 */
module Counting {

  /** Number of occurrences of `x` in `s` (the reference definition). */
  function Count<T(==)>(s: seq<T>, x: T): nat {
    multiset(s)[x]
  }

  /** True when no element occurs twice in `s`. */
  predicate NoDuplicates<T(==)>(s: seq<T>) {
    forall i, j :: 0 <= i < j < |s| ==> s[i] != s[j]
  }

  /** The distinct elements of `s`, in the order of their first occurrence. */
  function Distinct<T(==)>(s: seq<T>): seq<T>
    decreases |s|
  {
    if |s| == 0 then []
    else
      var init := s[..|s| - 1];
      if s[|s| - 1] in init then Distinct(init) else Distinct(init) + [s[|s| - 1]]
  }

  /** Index of the first occurrence of `x` in `s`. */
  function FirstIndex<T(==)>(s: seq<T>, x: T): (k: nat)
    requires x in s
    ensures k < |s| && s[k] == x
    ensures forall j :: 0 <= j < k ==> s[j] != x
  {
    if s[0] == x then 0 else 1 + FirstIndex(s[1..], x)
  }

  /**
   * A Python dictionary from elements to counts: `keys` is its iteration
   * (insertion) order, `counts` its contents.
   */
  datatype Tally<T> = Tally(keys: seq<T>, counts: map<T, nat>) {

    /** `dict.get(k, default)`. */
    function Get(k: T, default: nat): nat {
      if k in counts then counts[k] else default
    }
  }

  /** The dictionary `inventory_dict`/`modifiers_dict` is meant to build from `s`. */
  function TallyOf<T(==)>(s: seq<T>): Tally<T> {
    Tally(Distinct(s), map x | x in s :: Count(s, x))
  }

  /** One step of the counting loop: `result[item] += 1`, or a new key with count 1. */
  function Bump<T(==)>(t: Tally<T>, x: T): Tally<T> {
    if x in t.counts then Tally(t.keys, t.counts[x := t.counts[x] + 1])
    else Tally(t.keys + [x], t.counts[x := 1])
  }

  /** Sum of the counts of a dictionary, over its keys. */
  function Total<T(==)>(t: Tally<T>): int
    decreases |t.keys|
  {
    if |t.keys| == 0 then 0
    else Total(Tally(t.keys[..|t.keys| - 1], t.counts)) + t.Get(t.keys[|t.keys| - 1], 0)
  }

  /** Counting one more element is one step of the loop. */
  lemma TallyOfSnoc<T>(s: seq<T>, x: T)
    ensures TallyOf(s + [x]) == Bump(TallyOf(s), x)
  {
    var s' := s + [x];
    assert s'[..|s'| - 1] == s;
    assert multiset(s') == multiset(s) + multiset{x};
    var m := map y | y in s' :: Count(s', y);
    var t := TallyOf(s);
    if x in s {
      assert m == t.counts[x := t.counts[x] + 1];
    } else {
      assert m == t.counts[x := 1];
    }
  }

  /**
   * The counting loop of `inventory_dict` (classes.py) and `modifiers_dict`
   * (main.py): an empty list gives the empty dictionary; otherwise every
   * element either increments its existing entry or is inserted with count 1.
   */
  method CountOccurrences<T(==)>(s: seq<T>) returns (t: Tally<T>)
    ensures t == TallyOf(s)
  {
    if |s| == 0 {
      return Tally([], map[]);
    }
    t := Tally([], map[]);
    for i := 0 to |s|
      invariant t == TallyOf(s[..i])
    {
      TallyOfSnoc(s[..i], s[i]);
      assert s[..i + 1] == s[..i] + [s[i]];
      if s[i] in t.counts {
        t := Tally(t.keys, t.counts[s[i] := t.counts[s[i]] + 1]);
      } else {
        t := Tally(t.keys + [s[i]], t.counts[s[i] := 1]);
      }
    }
    assert s[..|s|] == s;
  }

  /** The keys of the dictionary are exactly the distinct elements, each once. */
  lemma {:induction false} DistinctElements<T>(s: seq<T>)
    ensures NoDuplicates(Distinct(s))
    ensures forall x :: x in Distinct(s) <==> x in s
    ensures forall k :: 0 <= k < |Distinct(s)| ==> Distinct(s)[k] in s
    decreases |s|
  {
    if |s| > 0 {
      var init := s[..|s| - 1];
      assert s == init + [s[|s| - 1]];
      DistinctElements(init);
    }
  }

  /** Keys follow the order of first occurrence in `s`. */
  lemma {:induction false} DistinctInFirstOccurrenceOrder<T>(s: seq<T>, i: nat, j: nat)
    requires i < j < |Distinct(s)|
    ensures Distinct(s)[i] in s && Distinct(s)[j] in s
    ensures FirstIndex(s, Distinct(s)[i]) < FirstIndex(s, Distinct(s)[j])
    decreases |s|, 1
  {
    var init, x := s[..|s| - 1], s[|s| - 1];
    assert s == init + [x];
    OrderSnoc(init, x, i, j);
  }

  /** The inductive step of DistinctInFirstOccurrenceOrder, for `init + [x]`. */
  lemma {:induction false} OrderSnoc<T>(init: seq<T>, x: T, i: nat, j: nat)
    requires i < j < |Distinct(init + [x])|
    ensures Distinct(init + [x])[i] in init + [x] && Distinct(init + [x])[j] in init + [x]
    ensures FirstIndex(init + [x], Distinct(init + [x])[i]) < FirstIndex(init + [x], Distinct(init + [x])[j])
    decreases |init| + 1, 0
  {
    var d := Distinct(init + [x]);
    DistinctSnoc(init, x);
    DistinctElements(init);
    var e := Distinct(init);
    if x in init {
      assert d == e;
      DistinctInFirstOccurrenceOrder(init, i, j);
      FirstIndexPrefix(init, x, e[i]);
      FirstIndexPrefix(init, x, e[j]);
    } else if j < |e| {
      assert d[i] == e[i] && d[j] == e[j];
      DistinctInFirstOccurrenceOrder(init, i, j);
      FirstIndexPrefix(init, x, e[i]);
      FirstIndexPrefix(init, x, e[j]);
    } else {
      assert d[j] == x && d[i] == e[i];
      assert e[i] in e;
      FirstIndexPrefix(init, x, e[i]);
      FirstIndexOfNew(init, x);
    }
  }

  /** How the distinct elements grow when one element is appended. */
  lemma DistinctSnoc<T>(s: seq<T>, x: T)
    ensures Distinct(s + [x]) == if x in s then Distinct(s) else Distinct(s) + [x]
  {
    assert (s + [x])[..|s|] == s;
  }

  /** An element already in `s` keeps its first index when something is appended. */
  lemma {:induction false} FirstIndexPrefix<T>(s: seq<T>, x: T, y: T)
    requires y in s
    ensures y in s + [x] && FirstIndex(s + [x], y) == FirstIndex(s, y)
  {
    if s[0] != y {
      assert (s + [x])[1..] == s[1..] + [x];
      FirstIndexPrefix(s[1..], x, y);
    }
  }

  /** A new element appended at the end first occurs there. */
  lemma {:induction false} FirstIndexOfNew<T>(s: seq<T>, x: T)
    requires x !in s
    ensures FirstIndex(s + [x], x) == |s|
  {
    if |s| > 0 {
      assert (s + [x])[1..] == s[1..] + [x];
      FirstIndexOfNew(s[1..], x);
    }
  }

  /** A dictionary total over keys where two count maps agree is the same. */
  lemma {:induction false} TotalAgree<T>(keys: seq<T>, a: map<T, nat>, b: map<T, nat>)
    requires forall k :: k in keys ==> (k in a <==> k in b) && (k in a ==> a[k] == b[k])
    ensures Total(Tally(keys, a)) == Total(Tally(keys, b))
    decreases |keys|
  {
    if |keys| > 0 {
      TotalAgree(keys[..|keys| - 1], a, b);
    }
  }

  /** Incrementing the count of a key that occurs once adds one to the total. */
  lemma {:induction false} TotalBump<T>(keys: seq<T>, c: map<T, nat>, x: T)
    requires NoDuplicates(keys) && x in keys && x in c
    ensures Total(Tally(keys, c[x := c[x] + 1])) == Total(Tally(keys, c)) + 1
    decreases |keys|
  {
    var n := |keys|;
    var init := keys[..n - 1];
    if keys[n - 1] == x {
      assert x !in init;
      TotalAgree(init, c[x := c[x] + 1], c);
    } else {
      assert x in init;
      TotalBump(init, c, x);
    }
  }

  /** The counts of `inventory_dict` sum to the length of the inventory. */
  lemma {:induction false} TallyTotal<T>(s: seq<T>)
    ensures Total(TallyOf(s)) == |s|
    decreases |s|
  {
    if |s| > 0 {
      var init := s[..|s| - 1];
      var x := s[|s| - 1];
      assert s == init + [x];
      TallyTotal(init);
      TallyOfSnoc(init, x);
      DistinctElements(init);
      assert x in TallyOf(init).keys <==> x in TallyOf(init).counts;
      TotalOfBump(TallyOf(init), x);
    }
  }

  /** One loop step adds one to the total of a dictionary that lists each key once. */
  lemma TotalOfBump<T>(t: Tally<T>, x: T)
    requires NoDuplicates(t.keys) && (x in t.keys <==> x in t.counts)
    ensures Total(Bump(t, x)) == Total(t) + 1
  {
    if x in t.counts {
      TotalBump(t.keys, t.counts, x);
    } else {
      TotalNewKey(t.keys, t.counts, x);
    }
  }

  /** Inserting a new key with count 1 adds one to the total. */
  lemma TotalNewKey<T>(keys: seq<T>, c: map<T, nat>, x: T)
    requires x !in keys
    ensures Total(Tally(keys + [x], c[x := 1])) == Total(Tally(keys, c)) + 1
  {
    var c' := c[x := 1];
    TotalAgree(keys, c', c);
    var keys' := keys + [x];
    assert keys'[..|keys'| - 1] == keys;
    assert Total(Tally(keys', c')) == Total(Tally(keys, c')) + Tally(keys', c').Get(x, 0);
  }

  /**
   * What `inventory_dict` promises: the keys are exactly the elements present,
   * each listed once, each mapped to its number of occurrences; so the empty
   * list, and only it, gives the empty dictionary.
   */
  lemma TallyContents<T>(s: seq<T>)
    ensures TallyOf(s).counts.Keys == set x | x in s
    ensures forall x :: x in TallyOf(s).keys <==> x in s
    ensures NoDuplicates(TallyOf(s).keys)
    ensures forall x :: TallyOf(s).Get(x, 0) == Count(s, x)
    ensures TallyOf(s).keys == [] <==> s == []
  {
    DistinctElements(s);
    if s != [] {
      assert s[0] in TallyOf(s).keys;
    }
  }

  /**
   * Appending one element raises its count by exactly one and leaves every
   * other count unchanged.
   */
  lemma AppendBumpsOneCount<T>(s: seq<T>, x: T)
    ensures TallyOf(s + [x]).Get(x, 0) == TallyOf(s).Get(x, 0) + 1
    ensures forall y :: y != x ==> TallyOf(s + [x]).Get(y, 0) == TallyOf(s).Get(y, 0)
  {
    TallyContents(s);
    TallyContents(s + [x]);
    assert multiset(s + [x]) == multiset(s) + multiset{x};
  }
}
