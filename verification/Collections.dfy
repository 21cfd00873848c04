/** Reference lists, append-only merges and look-ups shared by the coordinator's commands. */
module Collections {
  import opened Domain

  /** The first occurrences, in order. */
  function UniqueRefs(refs: seq<DocId>): seq<DocId> {
    if refs == [] then []
    else
      var kept := UniqueRefs(refs[..|refs| - 1]);
      if refs[|refs| - 1] in kept then kept else kept + [refs[|refs| - 1]]
  }

  lemma {:induction false} UniqueRefsIsSet(refs: seq<DocId>)
    ensures Elements(UniqueRefs(refs)) == Elements(refs)
    ensures NoRepeats(UniqueRefs(refs))
  {
    if refs != [] {
      var n := |refs| - 1;
      UniqueRefsIsSet(refs[..n]);
      var kept := UniqueRefs(refs[..n]);
      assert Elements(refs) == Elements(refs[..n]) + {refs[n]};
      assert refs[n] in kept <==> refs[n] in Elements(kept);
    }
  }

  lemma ElementsOfSum<T>(a: seq<T>, b: seq<T>)
    ensures Elements(a + b) == Elements(a) + Elements(b)
  {
  }

  lemma AppendNew<T>(s: seq<T>, x: T)
    requires NoRepeats(s) && x !in s
    ensures NoRepeats(s + [x])
  {
  }

  lemma EmptyIffNoElements<T>(s: seq<T>)
    ensures s == [] <==> Elements(s) == {}
  {
    if s != [] {
      assert s[0] in Elements(s);
    }
  }

  // ---------------------------------------------------------------- merging by identifier

  /** The last element with this key: what a map filled in order holds for it. */
  function LastWith<T>(s: seq<T>, key: T -> Id, id: Id): (r: Option<T>)
    ensures r.Some? ==> r.value in s && key(r.value) == id
    ensures r.None? ==> forall x | x in s :: key(x) != id
  {
    if s == [] then None
    else if key(s[|s| - 1]) == id then Some(s[|s| - 1])
    else LastWith(s[..|s| - 1], key, id)
  }

  /** The first element with this key. */
  function FirstWith<T>(s: seq<T>, key: T -> Id, id: Id): (r: Option<T>)
    ensures r.Some? ==> r.value in s && key(r.value) == id
    ensures r.None? ==> forall x | x in s :: key(x) != id
  {
    if s == [] then None
    else if key(s[0]) == id then Some(s[0])
    else FirstWith(s[1..], key, id)
  }

  /** Existing documents never change: an incoming one is new, an identical repetition, or a conflict. */
  function MergeById<T(==)>(existing: seq<T>, incoming: seq<T>, key: T -> Id): Option<seq<T>>
    decreases |incoming|
  {
    if incoming == [] then Some(existing)
    else
      match LastWith(existing, key, key(incoming[0]))
      case Some(known) => if known == incoming[0] then MergeById(existing, incoming[1..], key) else None
      case None => MergeById(existing + [incoming[0]], incoming[1..], key)
  }

  predicate DistinctOn<T(==)>(s: seq<T>, key: T -> Id) {
    forall i, j | 0 <= i < j < |s| :: key(s[i]) != key(s[j])
  }

  /** A merge appends, keeps identifiers distinct, and adds exactly the incoming documents. */
  lemma {:induction false} MergeAppends<T>(existing: seq<T>, incoming: seq<T>, key: T -> Id)
    requires DistinctOn(existing, key)
    ensures var r := MergeById(existing, incoming, key);
      r.Some? ==>
        && existing <= r.value
        && DistinctOn(r.value, key)
        && Elements(r.value) == Elements(existing) + Elements(incoming)
    decreases |incoming|
  {
    if incoming != [] {
      assert Elements(incoming) == {incoming[0]} + Elements(incoming[1..]);
      match LastWith(existing, key, key(incoming[0])) {
        case Some(known) => MergeAppends(existing, incoming[1..], key);
        case None =>
          MergeAppends(existing + [incoming[0]], incoming[1..], key);
          ElementsOfSum(existing, [incoming[0]]);
      }
    }
  }

  /** A merge fails exactly when two of the documents share an identifier and differ. */
  lemma {:induction false} MergeConflicts<T>(existing: seq<T>, incoming: seq<T>, key: T -> Id)
    requires DistinctOn(existing, key)
    ensures MergeById(existing, incoming, key).Some? <==> Consistent(Elements(existing) + Elements(incoming), key)
    decreases |incoming|
  {
    if incoming == [] {
      forall a, b | a in existing && b in existing && key(a) == key(b) ensures a == b {
        var i :| 0 <= i < |existing| && existing[i] == a;
        var j :| 0 <= j < |existing| && existing[j] == b;
      }
    } else {
      var x := incoming[0];
      assert Elements(incoming) == {x} + Elements(incoming[1..]);
      match LastWith(existing, key, key(x)) {
        case Some(known) =>
          if known == x {
            MergeConflicts(existing, incoming[1..], key);
            assert Elements(existing) + Elements(incoming) == Elements(existing) + Elements(incoming[1..]);
          }
        case None =>
          MergeConflicts(existing + [x], incoming[1..], key);
          ElementsOfSum(existing, [x]);
          assert Elements(existing) + Elements(incoming) == Elements(existing + [x]) + Elements(incoming[1..]);
      }
    }
  }

  predicate Consistent<T(==)>(s: set<T>, key: T -> Id) {
    forall a, b | a in s && b in s && key(a) == key(b) :: a == b
  }

  lemma DistinctOnIsDistinct<T>(s: seq<T>, key: T -> Id)
    ensures DistinctOn(s, key) <==> NoRepeats(s) && Consistent(Elements(s), key)
  {
    if NoRepeats(s) && Consistent(Elements(s), key) {
      forall i, j | 0 <= i < j < |s| ensures key(s[i]) != key(s[j]) {
        assert s[i] in Elements(s) && s[j] in Elements(s);
      }
    }
    if DistinctOn(s, key) {
      forall a, b | a in Elements(s) && b in Elements(s) && key(a) == key(b) ensures a == b {
        var i :| 0 <= i < |s| && s[i] == a;
        var j :| 0 <= j < |s| && s[j] == b;
      }
    }
  }
}
