/** Sorting by key, and why the result does not depend on the order of the input. */
module Ordering {
  import opened Domain

  /** Sort keys: compared by `major` first, then by `minor`. */
  datatype Key = Key(major: nat, minor: nat)

  predicate Before(a: Key, b: Key) {
    a.major < b.major || (a.major == b.major && a.minor < b.minor)
  }

  predicate SortedOn<T>(s: seq<T>, key: T -> Key) {
    forall i, j | 0 <= i < j < |s| :: !Before(key(s[j]), key(s[i]))
  }

  predicate UniqueOn<T(==)>(s: seq<T>, key: T -> Key) {
    forall i, j | 0 <= i < j < |s| :: key(s[i]) != key(s[j])
  }

  function Insert<T>(x: T, s: seq<T>, key: T -> Key): seq<T> {
    if s == [] then [x]
    else if Before(key(s[|s| - 1]), key(x)) then s + [x]
    else Insert(x, s[..|s| - 1], key) + [s[|s| - 1]]
  }

  function SortOn<T>(s: seq<T>, key: T -> Key): seq<T> {
    if s == [] then [] else Insert(s[|s| - 1], SortOn(s[..|s| - 1], key), key)
  }

  lemma {:induction false} InsertSorts<T>(x: T, s: seq<T>, key: T -> Key)
    requires SortedOn(s, key)
    ensures SortedOn(Insert(x, s, key), key)
    ensures multiset(Insert(x, s, key)) == multiset(s) + multiset{x}
  {
    if s != [] {
      var n := |s| - 1;
      assert s == s[..n] + [s[n]];
      if Before(key(s[n]), key(x)) {
        forall i | 0 <= i < |s| ensures !Before(key(x), key(s[i])) {
          assert i < n ==> !Before(key(s[n]), key(s[i]));
        }
      } else {
        assert SortedOn(s[..n], key);
        InsertSorts(x, s[..n], key);
        AppendSorts(Insert(x, s[..n], key), s[..n] + [x], s[n], key);
      }
    }
  }

  lemma AppendSorts<T>(s: seq<T>, same: seq<T>, last: T, key: T -> Key)
    requires SortedOn(s, key) && multiset(s) == multiset(same)
    requires forall x | x in same :: !Before(key(last), key(x))
    ensures SortedOn(s + [last], key)
  {
    forall i | 0 <= i < |s| ensures !Before(key(last), key(s[i])) {
      assert s[i] in multiset(s);
    }
  }

  lemma {:induction false} SortOnSorts<T>(s: seq<T>, key: T -> Key)
    ensures SortedOn(SortOn(s, key), key)
    ensures multiset(SortOn(s, key)) == multiset(s)
  {
    if s != [] {
      var n := |s| - 1;
      assert s == s[..n] + [s[n]];
      SortOnSorts(s[..n], key);
      InsertSorts(s[n], SortOn(s[..n], key), key);
    }
  }

  lemma SameElements<T>(a: seq<T>, b: seq<T>)
    requires multiset(a) == multiset(b)
    ensures Elements(a) == Elements(b) && |a| == |b|
  {
    forall x ensures x in a <==> x in b {
      assert x in a <==> x in multiset(a);
    }
    assert |multiset(a)| == |multiset(b)|;
  }

  /** Keys are distinct in one order if and only if they are in every other. */
  lemma {:induction false} UniquenessIsOrderFree<T>(a: seq<T>, b: seq<T>, key: T -> Key)
    requires multiset(a) == multiset(b) && UniqueOn(a, key)
    ensures UniqueOn(b, key)
  {
    forall i, j | 0 <= i < j < |b| ensures key(b[i]) != key(b[j]) {
      if key(b[i]) == key(b[j]) {
        SameElements(a, b);
        assert b[i] in Elements(a) && b[j] in Elements(a);
        var k :| 0 <= k < |a| && a[k] == b[i];
        var l :| 0 <= l < |a| && a[l] == b[j];
        assert k == l;
        OccursOnce(a, k, key);
        OccursTwice(b, i, j);
      }
    }
  }

  lemma OccursTwice<T>(b: seq<T>, i: nat, j: nat)
    requires i < j < |b| && b[i] == b[j]
    ensures multiset(b)[b[i]] >= 2
  {
    assert b == b[..i] + [b[i]] + b[i + 1..j] + [b[j]] + b[j + 1..];
  }

  lemma OccursOnce<T>(a: seq<T>, k: nat, key: T -> Key)
    requires UniqueOn(a, key) && k < |a|
    ensures multiset(a)[a[k]] == 1
  {
    assert a == a[..k] + [a[k]] + a[k + 1..];
  }

  lemma LastAgrees<T>(a: seq<T>, b: seq<T>, key: T -> Key)
    requires multiset(a) == multiset(b) && |a| == |b| > 0
    requires SortedOn(a, key) && SortedOn(b, key) && UniqueOn(a, key)
    ensures a[|a| - 1] == b[|a| - 1]
  {
    var n := |a| - 1;
    SameElements(a, b);
    assert a[n] in Elements(b) && b[n] in Elements(a);
    var i :| 0 <= i <= n && b[i] == a[n];
    var j :| 0 <= j <= n && a[j] == b[n];
  }

  lemma WithoutLast<T>(a: seq<T>, key: T -> Key)
    requires a != [] && SortedOn(a, key)
    ensures SortedOn(a[..|a| - 1], key)
    ensures UniqueOn(a, key) ==> UniqueOn(a[..|a| - 1], key)
    ensures multiset(a[..|a| - 1]) == multiset(a) - multiset{a[|a| - 1]}
  {
    assert a == a[..|a| - 1] + [a[|a| - 1]];
  }

  lemma EqualByLast<T>(a: seq<T>, b: seq<T>)
    requires |a| == |b| > 0 && a[..|a| - 1] == b[..|b| - 1] && a[|a| - 1] == b[|b| - 1]
    ensures a == b
  {
    assert a == a[..|a| - 1] + [a[|a| - 1]];
    assert b == b[..|b| - 1] + [b[|b| - 1]];
  }

  /** Two sorted arrangements of the same elements with distinct keys are equal. */
  lemma {:induction false} SortedOrderIsUnique<T>(a: seq<T>, b: seq<T>, key: T -> Key)
    requires multiset(a) == multiset(b)
    requires SortedOn(a, key) && SortedOn(b, key) && UniqueOn(a, key)
    ensures a == b
  {
    SameElements(a, b);
    if a != [] {
      var n := |a| - 1;
      hide SortedOn, UniqueOn;
      LastAgrees(a, b, key);
      WithoutLast(a, key);
      WithoutLast(b, key);
      SortedOrderIsUnique(a[..n], b[..n], key);
      EqualByLast(a, b);
    }
  }

  /** Sorting forgets the order of its input. */
  lemma SortForgetsOrder<T>(a: seq<T>, b: seq<T>, key: T -> Key)
    requires multiset(a) == multiset(b) && UniqueOn(a, key)
    ensures SortOn(a, key) == SortOn(b, key)
  {
    SortOnSorts(a, key);
    SortOnSorts(b, key);
    UniquenessIsOrderFree(a, SortOn(a, key), key);
    SortedOrderIsUnique(SortOn(a, key), SortOn(b, key), key);
  }

  lemma SortOfSorted<T>(a: seq<T>, key: T -> Key)
    requires SortedOn(a, key) && UniqueOn(a, key)
    ensures SortOn(a, key) == a
  {
    SortOnSorts(a, key);
    SortedOrderIsUnique(a, SortOn(a, key), key);
  }

  function IdKey(id: Id): Key {
    Key(0, id)
  }

  function SortedIds(ids: seq<Id>): (r: seq<Id>)
    ensures Elements(r) == Elements(ids)
  {
    SortOnSorts(ids, IdKey);
    SameElements(SortOn(ids, IdKey), ids);
    SortOn(ids, IdKey)
  }
}
