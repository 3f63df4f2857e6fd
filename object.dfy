/**
 Object identifiers, their reversed total order, and the contract that a
 stored value type honours when changes are folded into it.
 */
module Object {
  import opened Wrappers

  /** An object id: the dense, zero-based index of the object in the store. */
  datatype Oid = Oid(id: nat)

  /** The result of a three-way comparison. */
  datatype Ordering = Less | Equal | Greater {

    /** The same comparison seen from the other side. */
    function Reverse(): (r: Ordering)
      ensures r == Equal <==> this == Equal
      ensures r == Less <==> this == Greater
    {
      match this
      case Less => Greater
      case Equal => Equal
      case Greater => Less
    }
  }

  /** The numeric comparison of two underlying numbers. */
  function CmpNat(a: nat, b: nat): Ordering
  {
    if a < b then Less else if a == b then Equal else Greater
  }

  /** The order on ids: numeric order of the underlying numbers, reversed,
      so that a smaller number sorts greater. */
  function Cmp(a: Oid, b: Oid): (r: Ordering)
    ensures r == Less <==> b.id < a.id
    ensures r == Greater <==> a.id < b.id
    ensures r == Equal <==> a == b
  {
    CmpNat(a.id, b.id).Reverse()
  }

  /** The partial comparison is never undefined on ids. */
  function PartialCmp(a: Oid, b: Oid): (r: Option<Ordering>)
    ensures r.Some?
    ensures r.value == Less <==> b.id < a.id
    ensures r.value == Greater <==> a.id < b.id
  {
    Some(Cmp(a, b))
  }

  /** `a <= b` in the order on ids. */
  predicate Le(a: Oid, b: Oid)
  {
    Cmp(a, b) != Greater
  }

  /** Comparing the other way round gives the reversed answer, and the
      partial comparison always agrees with the total one. */
  lemma CmpIsConsistent(a: Oid, b: Oid)
    ensures Cmp(b, a) == Cmp(a, b).Reverse()
    ensures PartialCmp(a, b) == Some(Cmp(a, b))
    ensures Le(a, b) <==> b.id <= a.id
  {
  }

  /** The order on ids is a total order. */
  lemma LeIsTotalOrder()
    ensures forall a: Oid :: Le(a, a)
    ensures forall a: Oid, b: Oid :: Le(a, b) && Le(b, a) ==> a == b
    ensures forall a: Oid, b: Oid, c: Oid :: Le(a, b) && Le(b, c) ==> Le(a, c)
    ensures forall a: Oid, b: Oid :: Le(a, b) || Le(b, a)
  {
  }

  /** The sequence in the opposite order. */
  function Reversed<T>(s: seq<T>): (r: seq<T>)
    ensures |r| == |s|
    ensures forall k :: 0 <= k < |s| ==> r[k] == s[|s| - 1 - k]
  {
    if s == [] then [] else Reversed(s[1..]) + [s[0]]
  }

  lemma {:induction false} ReversedAppend<T>(a: seq<T>, b: seq<T>)
    ensures Reversed(a + b) == Reversed(b) + Reversed(a)
  {
    var l, r := Reversed(a + b), Reversed(b) + Reversed(a);
    assert |l| == |r|;
    forall k | 0 <= k < |l| ensures l[k] == r[k] {
      if k < |b| {
        assert r[k] == Reversed(b)[k];
      } else {
        assert r[k] == Reversed(a)[k - |b|];
      }
    }
  }

  /** Applies changes one by one, in the order given, with `step`. */
  function FoldOldestFirst<V, C>(step: (V, C) -> V, v: V, cs: seq<C>): V
    decreases |cs|
  {
    if cs == [] then v else FoldOldestFirst(step, step(v, cs[0]), cs[1..])
  }

  /** Folding a concatenation is folding its halves one after the other. */
  lemma {:induction false} FoldOldestFirstAppend<V, C>(step: (V, C) -> V, v: V, a: seq<C>, b: seq<C>)
    ensures FoldOldestFirst(step, v, a + b) == FoldOldestFirst(step, FoldOldestFirst(step, v, a), b)
    decreases |a|
  {
    if a != [] {
      assert (a + b)[1..] == a[1..] + b;
      FoldOldestFirstAppend(step, step(v, a[0]), a[1..], b);
    } else {
      assert a + b == b;
    }
  }

  /** The contract of a value's `apply`: it is handed a batch of changes
      newest first, and its result is that of applying the batch oldest
      first, one change at a time, with `step`. */
  ghost predicate AppliesNewestFirst<V(!new), C(!new)>(apply: (V, seq<C>) -> V, step: (V, C) -> V)
  {
    forall v, cs :: apply(v, cs) == FoldOldestFirst(step, v, Reversed(cs))
  }

  /** Under that contract, adding a newer change to the front of a batch
      applies that change last. */
  lemma NewestChangeAppliesLast<V(!new), C(!new)>(apply: (V, seq<C>) -> V, step: (V, C) -> V, v: V, c: C, cs: seq<C>)
    requires AppliesNewestFirst(apply, step)
    ensures apply(v, [c] + cs) == step(apply(v, cs), c)
    ensures apply(v, [c]) == step(v, c)
  {
    ReversedAppend([c], cs);
    assert Reversed([c]) == [c];
    FoldOldestFirstAppend(step, v, Reversed(cs), [c]);
    assert [c][1..] == [];
    assert FoldOldestFirst(step, v, [c]) == FoldOldestFirst(step, step(v, c), []);
  }
}
