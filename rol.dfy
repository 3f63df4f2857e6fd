/**
 A versioned object store. Every write appends one operation to a flat log;
 each object's history is a backward-linked chain through that log, and a
 per-object head pointer names the newest operation of the object. A read
 walks the chain back to the object's base value and folds in the changes
 that are visible at a given log position.
 */
module Rol {
  import opened Wrappers
  import opened Object

  /** One entry of the log: a full value, or a change linked to the
      previous operation of the same object. */
  datatype ObjectOp<V, C> =
    | Put(oid: Oid, obj: V)
    | Patch(oid: Oid, prevOffset: nat, change: C)

  predicate IsPutOf<V, C>(op: ObjectOp<V, C>, oid: Oid)
  {
    op.Put? && op.oid == oid
  }

  predicate IsPatchOf<V, C>(op: ObjectOp<V, C>, oid: Oid)
  {
    op.Patch? && op.oid == oid
  }

  // ---------------------------------------------------------------------
  // The structural invariant of the store
  // ---------------------------------------------------------------------

  /** Every Patch links to an earlier position. */
  predicate LinksBackward<V, C>(ops: seq<ObjectOp<V, C>>)
  {
    forall p :: 0 <= p < |ops| && ops[p].Patch? ==> ops[p].prevOffset < p
  }

  /** Every Patch links to the newest earlier operation of its own object. */
  predicate LinksToNewestOfSameOid<V, C>(ops: seq<ObjectOp<V, C>>)
    requires LinksBackward(ops)
  {
    forall p :: 0 <= p < |ops| && ops[p].Patch? ==>
      && ops[ops[p].prevOffset].oid == ops[p].oid
      && forall q :: ops[p].prevOffset < q < p ==> ops[q].oid != ops[p].oid
  }

  /** Every head is a valid position. */
  predicate HeadsInRange<V, C>(mapping: seq<nat>, ops: seq<ObjectOp<V, C>>)
  {
    forall i :: 0 <= i < |mapping| ==> mapping[i] < |ops|
  }

  /** The head of object `i` is an operation of `i`, and no later operation is. */
  predicate HeadsAreNewest<V, C>(mapping: seq<nat>, ops: seq<ObjectOp<V, C>>)
    requires HeadsInRange(mapping, ops)
  {
    && (forall i :: 0 <= i < |mapping| ==> ops[mapping[i]].oid == Oid(i))
    && (forall i, q :: 0 <= i < |mapping| && mapping[i] < q < |ops| ==> ops[q].oid != Oid(i))
  }

  /** Every operation belongs to an object that has a head. */
  predicate OidsKnown<V, C>(mapping: seq<nat>, ops: seq<ObjectOp<V, C>>)
  {
    forall q :: 0 <= q < |ops| ==> ops[q].oid.id < |mapping|
  }

  predicate WellFormed<V, C>(mapping: seq<nat>, ops: seq<ObjectOp<V, C>>)
  {
    && LinksBackward(ops)
    && LinksToNewestOfSameOid(ops)
    && HeadsInRange(mapping, ops)
    && HeadsAreNewest(mapping, ops)
    && OidsKnown(mapping, ops)
  }

  // ---------------------------------------------------------------------
  // The read, following the links
  // ---------------------------------------------------------------------

  /** The positions visited by a read that starts at `offset`, newest first. */
  function Chain<V, C>(ops: seq<ObjectOp<V, C>>, offset: nat): (c: seq<nat>)
    requires LinksBackward(ops) && offset < |ops|
    ensures |c| > 0 && c[0] == offset
    ensures forall k :: 0 <= k < |c| ==> c[k] <= offset
    ensures ops[c[|c| - 1]].Put?
    ensures forall k :: 0 <= k < |c| - 1 ==> ops[c[k]].Patch? && c[k + 1] == ops[c[k]].prevOffset
    decreases offset
  {
    if ops[offset].Put? then [offset] else [offset] + Chain(ops, ops[offset].prevOffset)
  }

  /** What the read loop leaves behind: the base Put's position and value
      and the changes it collected, newest first. */
  datatype Walk<V, C> = Walk(basePos: nat, base: V, changes: seq<C>)

  /** The read loop from `offset`: the changes of Patches at positions no
      later than `maxOffset` are collected, and every Patch is followed. */
  function WalkChain<V, C>(ops: seq<ObjectOp<V, C>>, offset: nat, maxOffset: nat): (w: Walk<V, C>)
    requires LinksBackward(ops) && offset < |ops|
    ensures w.basePos <= offset
    ensures ops[w.basePos] == Put(ops[w.basePos].oid, w.base)
    ensures |w.changes| <= offset - w.basePos
    decreases offset
  {
    match ops[offset]
    case Put(_, obj) => Walk(offset, obj, [])
    case Patch(_, prev, change) =>
      var w := WalkChain(ops, prev, maxOffset);
      if offset <= maxOffset then w.(changes := [change] + w.changes) else w
  }

  /** The value of `oid` as of log position `maxOffset`, as the read computes it. */
  function Resolve<V, C>(mapping: seq<nat>, ops: seq<ObjectOp<V, C>>, apply: (V, seq<C>) -> V,
                         oid: Oid, maxOffset: nat): Option<V>
    requires WellFormed(mapping, ops)
  {
    if oid.id >= |mapping| then None
    else
      var w := WalkChain(ops, mapping[oid.id], maxOffset);
      if w.basePos > maxOffset then None
      else if w.changes == [] then Some(w.base)
      else Some(apply(w.base, w.changes))
  }

  // ---------------------------------------------------------------------
  // The read, on the flat log alone
  // ---------------------------------------------------------------------

  /** The position of the newest Put of `oid` before `hi`. */
  function LastPut<V, C>(ops: seq<ObjectOp<V, C>>, oid: Oid, hi: nat): (r: Option<nat>)
    requires hi <= |ops|
    ensures r.Some? ==> r.value < hi && IsPutOf(ops[r.value], oid)
    ensures forall q :: (if r.Some? then r.value + 1 else 0) <= q < hi ==> !IsPutOf(ops[q], oid)
    decreases hi
  {
    if hi == 0 then None
    else if IsPutOf(ops[hi - 1], oid) then Some(hi - 1)
    else LastPut(ops, oid, hi - 1)
  }

  /** The changes of the Patches of `oid` at positions in [lo, hi), newest first. */
  function PatchesOf<V, C>(ops: seq<ObjectOp<V, C>>, oid: Oid, lo: nat, hi: nat): seq<C>
    requires hi <= |ops|
    decreases hi
  {
    if hi <= lo then []
    else (if IsPatchOf(ops[hi - 1], oid) then [ops[hi - 1].change] else []) + PatchesOf(ops, oid, lo, hi - 1)
  }

  function Min(a: nat, b: nat): nat
  {
    if a < b then a else b
  }

  /** The value of `oid` as of `maxOffset`, read from the log without
      following links: the newest Put of the object, with the changes of the
      object's later Patches up to `maxOffset` folded in. */
  function ResolveByLog<V, C>(ops: seq<ObjectOp<V, C>>, apply: (V, seq<C>) -> V,
                              oid: Oid, maxOffset: nat): Option<V>
  {
    match LastPut(ops, oid, |ops|)
    case None => None
    case Some(b) =>
      if b > maxOffset then None
      else
        var cs := PatchesOf(ops, oid, b + 1, Min(maxOffset + 1, |ops|));
        if cs == [] then Some(ops[b].obj) else Some(apply(ops[b].obj, cs))
  }

  lemma {:induction false} LastPutSkip<V, C>(ops: seq<ObjectOp<V, C>>, oid: Oid, lo: nat, hi: nat)
    requires lo <= hi <= |ops|
    requires forall q :: lo <= q < hi ==> !IsPutOf(ops[q], oid)
    ensures LastPut(ops, oid, hi) == LastPut(ops, oid, lo)
    decreases hi
  {
    if lo < hi {
      LastPutSkip(ops, oid, lo, hi - 1);
    }
  }

  lemma {:induction false} PatchesSkip<V, C>(ops: seq<ObjectOp<V, C>>, oid: Oid, lo: nat, mid: nat, hi: nat)
    requires mid <= hi <= |ops|
    requires forall q :: mid <= q < hi ==> !IsPatchOf(ops[q], oid)
    ensures PatchesOf(ops, oid, lo, hi) == PatchesOf(ops, oid, lo, mid)
    decreases hi
  {
    if mid < hi {
      PatchesSkip(ops, oid, lo, mid, hi - 1);
    }
  }

  lemma PatchesOfPatch<V, C>(ops: seq<ObjectOp<V, C>>, oid: Oid, lo: nat, p: nat)
    requires lo <= p < |ops| && IsPatchOf(ops[p], oid)
    ensures PatchesOf(ops, oid, lo, p + 1) == [ops[p].change] + PatchesOf(ops, oid, lo, p)
  {
  }

  /** A visible Patch step of the read loop, on the flat log: the Patch's
      own change comes first, then those collected from the previous
      operation `prev` of `oid`. */
  lemma VisiblePatchStep<V, C>(ops: seq<ObjectOp<V, C>>, oid: Oid, lo: nat, prev: nat, offset: nat)
    requires prev < offset < |ops| && IsPatchOf(ops[offset], oid) && lo <= offset
    requires forall q :: prev < q < offset ==> ops[q].oid != oid
    ensures PatchesOf(ops, oid, lo, offset + 1) == [ops[offset].change] + PatchesOf(ops, oid, lo, prev + 1)
  {
    PatchesSkip(ops, oid, lo, prev + 1, offset);
    PatchesOfPatch(ops, oid, lo, offset);
  }

  /** A Patch step of the read loop past `maxOffset`, on the flat log: the
      changes collected are those collected from the previous operation
      `prev` of `oid`. */
  lemma HiddenPatchStep<V, C>(ops: seq<ObjectOp<V, C>>, oid: Oid, lo: nat, prev: nat, offset: nat,
                              maxOffset: nat)
    requires prev < offset < |ops| && maxOffset < offset
    requires forall q :: prev < q < offset ==> ops[q].oid != oid
    ensures PatchesOf(ops, oid, lo, maxOffset + 1) == PatchesOf(ops, oid, lo, Min(prev, maxOffset) + 1)
  {
    if prev <= maxOffset {
      PatchesSkip(ops, oid, lo, prev + 1, maxOffset + 1);
    }
  }

  /** The read loop started at an operation of `oid` ends at the newest Put
      of `oid` at or before the start. */
  lemma {:induction false} WalkEndsAtLastPut<V, C>(ops: seq<ObjectOp<V, C>>, offset: nat, maxOffset: nat)
    requires LinksBackward(ops) && LinksToNewestOfSameOid(ops) && offset < |ops|
    ensures LastPut(ops, ops[offset].oid, offset + 1) == Some(WalkChain(ops, offset, maxOffset).basePos)
    decreases offset
  {
    var oid := ops[offset].oid;
    if ops[offset].Put? {
      assert IsPutOf(ops[offset], oid);
    } else {
      var prev := ops[offset].prevOffset;
      WalkEndsAtLastPut(ops, prev, maxOffset);
      assert ops[prev].oid == oid;
      LastPutSkip(ops, oid, prev + 1, offset + 1);
    }
  }

  /** The read loop started at an operation of `oid` collects exactly the
      changes of the Patches of `oid` after its base Put and no later than
      `maxOffset`, newest first. */
  lemma {:induction false} WalkCollectsPatchesOf<V, C>(ops: seq<ObjectOp<V, C>>, offset: nat, maxOffset: nat)
    requires LinksBackward(ops) && LinksToNewestOfSameOid(ops) && offset < |ops|
    ensures var w := WalkChain(ops, offset, maxOffset);
      w.changes == PatchesOf(ops, ops[offset].oid, w.basePos + 1, Min(offset, maxOffset) + 1)
    decreases offset
  {
    var oid := ops[offset].oid;
    var w := WalkChain(ops, offset, maxOffset);
    if ops[offset].Patch? {
      var prev := ops[offset].prevOffset;
      var wp := WalkChain(ops, prev, maxOffset);
      WalkCollectsPatchesOf(ops, prev, maxOffset);
      assert ops[prev].oid == oid && wp.basePos == w.basePos;
      if offset <= maxOffset {
        VisiblePatchStep(ops, oid, w.basePos + 1, prev, offset);
        assert Min(offset, maxOffset) == offset && Min(prev, maxOffset) == prev;
      } else {
        HiddenPatchStep(ops, oid, w.basePos + 1, prev, offset, maxOffset);
        assert Min(offset, maxOffset) == maxOffset;
      }
    }
  }

  /** No operation of `oid` after its newest one `h`: the newest Put before
      the end of the log is the newest one up to `h`. */
  lemma HeadLastPut<V, C>(ops: seq<ObjectOp<V, C>>, oid: Oid, h: nat)
    requires h < |ops|
    requires forall q :: h < q < |ops| ==> ops[q].oid != oid
    ensures LastPut(ops, oid, |ops|) == LastPut(ops, oid, h + 1)
  {
    forall q | h + 1 <= q < |ops| ensures !IsPutOf(ops[q], oid) {
      assert ops[q].oid != oid;
    }
    LastPutSkip(ops, oid, h + 1, |ops|);
  }

  /** No operation of `oid` after its newest one `h`: the changes visible
      at `maxOffset` are those up to `h`. */
  lemma HeadPatches<V, C>(ops: seq<ObjectOp<V, C>>, oid: Oid, h: nat, lo: nat, maxOffset: nat)
    requires h < |ops|
    requires forall q :: h < q < |ops| ==> ops[q].oid != oid
    ensures PatchesOf(ops, oid, lo, Min(maxOffset + 1, |ops|)) == PatchesOf(ops, oid, lo, Min(h, maxOffset) + 1)
  {
    var mid, hi := Min(h, maxOffset) + 1, Min(maxOffset + 1, |ops|);
    forall q | mid <= q < hi ensures !IsPatchOf(ops[q], oid) {
      assert h < q && ops[q].oid != oid;
    }
    PatchesSkip(ops, oid, lo, mid, hi);
  }

  /** A walk from the newest operation `h` of `oid` that matches the log
      gives the read that the flat log describes. */
  lemma HeadReadMatchesLog<V, C>(ops: seq<ObjectOp<V, C>>, apply: (V, seq<C>) -> V,
                                 oid: Oid, h: nat, maxOffset: nat, w: Walk<V, C>)
    requires h < |ops| && w.basePos <= h && ops[w.basePos] == Put(oid, w.base)
    requires LastPut(ops, oid, h + 1) == Some(w.basePos)
    requires w.changes == PatchesOf(ops, oid, w.basePos + 1, Min(h, maxOffset) + 1)
    requires forall q :: h < q < |ops| ==> ops[q].oid != oid
    ensures (if w.basePos > maxOffset then None
             else if w.changes == [] then Some(w.base)
             else Some(apply(w.base, w.changes)))
         == ResolveByLog(ops, apply, oid, maxOffset)
  {
    HeadLastPut(ops, oid, h);
    HeadPatches(ops, oid, h, w.basePos + 1, maxOffset);
    assert ops[w.basePos].obj == w.base;
  }

  /** On a well-formed store, following the links reads exactly what the
      flat log says. */
  lemma ResolveMatchesLog<V, C>(mapping: seq<nat>, ops: seq<ObjectOp<V, C>>, apply: (V, seq<C>) -> V,
                                oid: Oid, maxOffset: nat)
    requires WellFormed(mapping, ops)
    ensures Resolve(mapping, ops, apply, oid, maxOffset) == ResolveByLog(ops, apply, oid, maxOffset)
  {
    if oid.id >= |mapping| {
      assert LastPut(ops, oid, |ops|).None?;
    } else {
      var h := mapping[oid.id];
      assert ops[h].oid == oid;
      assert forall q :: h < q < |ops| ==> ops[q].oid != oid;
      WalkEndsAtLastPut(ops, h, maxOffset);
      WalkCollectsPatchesOf(ops, h, maxOffset);
      HeadReadMatchesLog(ops, apply, oid, h, maxOffset, WalkChain(ops, h, maxOffset));
    }
  }

  /** Every operation the read visits from an object's head belongs to that
      object, and the last one is a Put. */
  lemma {:induction false} ChainStaysOnOid<V, C>(mapping: seq<nat>, ops: seq<ObjectOp<V, C>>, i: nat)
    requires WellFormed(mapping, ops) && i < |mapping|
    ensures var c := Chain(ops, mapping[i]);
      && ops[c[|c| - 1]].Put?
      && forall k :: 0 <= k < |c| ==> ops[c[k]].oid == Oid(i)
  {
    ChainOid(ops, mapping[i]);
  }

  lemma {:induction false} ChainOid<V, C>(ops: seq<ObjectOp<V, C>>, offset: nat)
    requires LinksBackward(ops) && LinksToNewestOfSameOid(ops) && offset < |ops|
    ensures forall k :: 0 <= k < |Chain(ops, offset)| ==> ops[Chain(ops, offset)[k]].oid == ops[offset].oid
    decreases offset
  {
    if ops[offset].Patch? {
      var prev := ops[offset].prevOffset;
      ChainOid(ops, prev);
      var c := Chain(ops, offset);
      forall k | 0 <= k < |c| ensures ops[c[k]].oid == ops[offset].oid {
        if k > 0 {
          assert c[k] == Chain(ops, prev)[k - 1];
        }
      }
    }
  }

  /** The read loop stops at the last position of the chain of links. */
  lemma {:induction false} WalkEndsWhereChainEnds<V, C>(ops: seq<ObjectOp<V, C>>, offset: nat, maxOffset: nat)
    requires LinksBackward(ops) && offset < |ops|
    ensures var c := Chain(ops, offset); WalkChain(ops, offset, maxOffset).basePos == c[|c| - 1]
    decreases offset
  {
    if ops[offset].Patch? {
      var prev := ops[offset].prevOffset;
      WalkEndsWhereChainEnds(ops, prev, maxOffset);
      assert Chain(ops, offset) == [offset] + Chain(ops, prev);
    }
  }

  // ---------------------------------------------------------------------
  // What reads see after each kind of write
  // ---------------------------------------------------------------------

  /** Appending to the log does not change a walk from an existing position. */
  lemma {:induction false} WalkChainAppend<V, C>(ops: seq<ObjectOp<V, C>>, op: ObjectOp<V, C>,
                                                 offset: nat, maxOffset: nat)
    requires LinksBackward(ops) && LinksBackward(ops + [op]) && offset < |ops|
    ensures WalkChain(ops + [op], offset, maxOffset) == WalkChain(ops, offset, maxOffset)
    decreases offset
  {
    if ops[offset].Patch? {
      WalkChainAppend(ops, op, ops[offset].prevOffset, maxOffset);
    }
  }

  /** `insert` keeps the store well formed. */
  lemma InsertKeepsWellFormed<V, C>(mapping: seq<nat>, ops: seq<ObjectOp<V, C>>, obj: V)
    requires WellFormed(mapping, ops)
    ensures WellFormed(mapping + [|ops|], ops + [Put(Oid(|mapping|), obj)])
  {
  }

  /** `patch` keeps the store well formed. */
  lemma PatchKeepsWellFormed<V, C>(mapping: seq<nat>, ops: seq<ObjectOp<V, C>>, i: nat, change: C)
    requires WellFormed(mapping, ops) && i < |mapping|
    ensures WellFormed(mapping[i := |ops|], ops + [Patch(Oid(i), mapping[i], change)])
  {
    var m, s := mapping[i := |ops|], ops + [Patch(Oid(i), mapping[i], change)];
    assert LinksBackward(s);
    forall p | 0 <= p < |s| && s[p].Patch?
      ensures s[s[p].prevOffset].oid == s[p].oid
      ensures forall q :: s[p].prevOffset < q < p ==> s[q].oid != s[p].oid
    {
      if p < |ops| {
        assert s[p] == ops[p] && s[ops[p].prevOffset] == ops[ops[p].prevOffset];
      }
    }
    assert HeadsInRange(m, s);
    assert HeadsAreNewest(m, s);
  }

  /** `replace` keeps the store well formed. */
  lemma ReplaceKeepsWellFormed<V, C>(mapping: seq<nat>, ops: seq<ObjectOp<V, C>>, i: nat, obj: V)
    requires WellFormed(mapping, ops) && i < |mapping|
    ensures WellFormed(mapping[i := |ops|], ops + [Put(Oid(i), obj)])
  {
  }

  /** After `insert(obj)`, the new object reads as `obj` from its own
      position on and as nothing before; every other object reads as before. */
  lemma ResolveAfterInsert<V, C>(mapping: seq<nat>, ops: seq<ObjectOp<V, C>>, apply: (V, seq<C>) -> V,
                                 obj: V, oid: Oid, maxOffset: nat)
    requires WellFormed(mapping, ops)
    ensures WellFormed(mapping + [|ops|], ops + [Put(Oid(|mapping|), obj)])
    ensures Resolve(mapping + [|ops|], ops + [Put(Oid(|mapping|), obj)], apply, oid, maxOffset)
         == if oid != Oid(|mapping|) then Resolve(mapping, ops, apply, oid, maxOffset)
            else if maxOffset < |ops| then None
            else Some(obj)
  {
    var op := Put(Oid(|mapping|), obj);
    InsertKeepsWellFormed(mapping, ops, obj);
    if oid.id < |mapping| {
      WalkChainAppend(ops, op, mapping[oid.id], maxOffset);
    }
  }

  /** After `patch(Oid(i), change)`: reads of other objects, and reads of
      `i` at earlier positions, are as before; reads of `i` from the new
      position on see `change` as the newest change. */
  lemma ResolveAfterPatch<V, C>(mapping: seq<nat>, ops: seq<ObjectOp<V, C>>, apply: (V, seq<C>) -> V,
                                i: nat, change: C, oid: Oid, maxOffset: nat)
    requires WellFormed(mapping, ops) && i < |mapping|
    ensures WellFormed(mapping[i := |ops|], ops + [Patch(Oid(i), mapping[i], change)])
    ensures oid != Oid(i) || maxOffset < |ops| ==>
      Resolve(mapping[i := |ops|], ops + [Patch(Oid(i), mapping[i], change)], apply, oid, maxOffset)
      == Resolve(mapping, ops, apply, oid, maxOffset)
    ensures oid == Oid(i) && |ops| <= maxOffset ==>
      var w := WalkChain(ops, mapping[i], maxOffset);
      Resolve(mapping[i := |ops|], ops + [Patch(Oid(i), mapping[i], change)], apply, oid, maxOffset)
      == Some(apply(w.base, [change] + w.changes))
  {
    var op := Patch(Oid(i), mapping[i], change);
    PatchKeepsWellFormed(mapping, ops, i, change);
    WalkChainAppend(ops, op, mapping[i], maxOffset);
    if oid.id < |mapping| && oid.id != i {
      WalkChainAppend(ops, op, mapping[oid.id], maxOffset);
    }
  }

  /** With a value type whose `apply` honours its contract, a read of `i`
      from the new position on is the previous read with `change` applied. */
  lemma PatchAppliesStep<V(!new), C(!new)>(mapping: seq<nat>, ops: seq<ObjectOp<V, C>>,
                                          apply: (V, seq<C>) -> V, step: (V, C) -> V,
                                          i: nat, change: C, maxOffset: nat)
    requires WellFormed(mapping, ops) && i < |mapping| && |ops| <= maxOffset
    requires AppliesNewestFirst(apply, step)
    ensures WellFormed(mapping[i := |ops|], ops + [Patch(Oid(i), mapping[i], change)])
    ensures Resolve(mapping, ops, apply, Oid(i), maxOffset).Some?
    ensures Resolve(mapping[i := |ops|], ops + [Patch(Oid(i), mapping[i], change)], apply, Oid(i), maxOffset)
         == Some(step(Resolve(mapping, ops, apply, Oid(i), maxOffset).value, change))
  {
    ResolveAfterPatch(mapping, ops, apply, i, change, Oid(i), maxOffset);
    var w := WalkChain(ops, mapping[i], maxOffset);
    NewestChangeAppliesLast(apply, step, w.base, change, w.changes);
  }

  /** After `replace(Oid(i), obj)`: reads of other objects are as before;
      `i` reads as nothing before the new position, even where the old chain
      had a value, and as `obj` from the new position on. */
  lemma ResolveAfterReplace<V, C>(mapping: seq<nat>, ops: seq<ObjectOp<V, C>>, apply: (V, seq<C>) -> V,
                                  i: nat, obj: V, oid: Oid, maxOffset: nat)
    requires WellFormed(mapping, ops) && i < |mapping|
    ensures WellFormed(mapping[i := |ops|], ops + [Put(Oid(i), obj)])
    ensures Resolve(mapping[i := |ops|], ops + [Put(Oid(i), obj)], apply, oid, maxOffset)
         == if oid != Oid(i) then Resolve(mapping, ops, apply, oid, maxOffset)
            else if maxOffset < |ops| then None
            else Some(obj)
  {
    var op := Put(Oid(i), obj);
    ReplaceKeepsWellFormed(mapping, ops, i, obj);
    if oid.id < |mapping| && oid.id != i {
      WalkChainAppend(ops, op, mapping[oid.id], maxOffset);
    }
  }

  // ---------------------------------------------------------------------
  // Properties of reads
  // ---------------------------------------------------------------------

  /** A read before the base Put of the object finds nothing. */
  lemma ResolveAbsentBeforeBase<V, C>(ops: seq<ObjectOp<V, C>>, apply: (V, seq<C>) -> V,
                                      oid: Oid, maxOffset: nat)
    ensures ResolveByLog(ops, apply, oid, maxOffset).None?
        <==> LastPut(ops, oid, |ops|).None? || maxOffset < LastPut(ops, oid, |ops|).value
  {
  }

  /** Two bounds at or after the base Put with no Patch of the object
      between them read the same value. */
  lemma ResolveStableBetweenPatches<V, C>(ops: seq<ObjectOp<V, C>>, apply: (V, seq<C>) -> V,
                                          oid: Oid, b: nat, p1: nat, p2: nat)
    requires LastPut(ops, oid, |ops|) == Some(b)
    requires b <= p1 <= p2
    requires forall q :: p1 < q <= p2 && q < |ops| ==> !IsPatchOf(ops[q], oid)
    ensures ResolveByLog(ops, apply, oid, p1) == ResolveByLog(ops, apply, oid, p2)
  {
    PatchesSkip(ops, oid, b + 1, Min(p1 + 1, |ops|), Min(p2 + 1, |ops|));
  }

  /** With a value type whose `apply` honours its contract, a read is the
      base value with the visible changes applied in the order they were
      written. */
  lemma ResolveFoldsOldestFirst<V(!new), C(!new)>(ops: seq<ObjectOp<V, C>>, apply: (V, seq<C>) -> V,
                                                 step: (V, C) -> V, oid: Oid, b: nat, maxOffset: nat)
    requires AppliesNewestFirst(apply, step)
    requires LastPut(ops, oid, |ops|) == Some(b) && b <= maxOffset
    ensures ResolveByLog(ops, apply, oid, maxOffset)
         == Some(FoldOldestFirst(step, ops[b].obj, Reversed(PatchesOf(ops, oid, b + 1, Min(maxOffset + 1, |ops|)))))
  {
    var cs := PatchesOf(ops, oid, b + 1, Min(maxOffset + 1, |ops|));
    if cs == [] {
      assert Reversed(cs) == [];
    }
  }

  // ---------------------------------------------------------------------
  // The store
  // ---------------------------------------------------------------------

  /** The store: the head position of every object, and the log. `apply`
      is the value type's way of folding a newest-first batch of changes. */
  class Db<V, C> {
    var mapping: seq<nat>
    var ops: seq<ObjectOp<V, C>>
    const apply: (V, seq<C>) -> V

    ghost predicate Valid()
      reads this
    {
      WellFormed(mapping, ops)
    }

    /** An empty store. */
    constructor (apply: (V, seq<C>) -> V)
      ensures Valid()
      ensures mapping == [] && ops == [] && this.apply == apply
    {
      this.apply := apply;
      mapping := [];
      ops := [];
    }

    /** The value of `oid` as of log position `maxOffset`, or nothing if
        `oid` has no head or its base Put is later than `maxOffset`. */
    method Get(oid: Oid, maxOffset: nat) returns (r: Option<V>)
      requires Valid()
      ensures r == Resolve(mapping, ops, apply, oid, maxOffset)
      ensures r == ResolveByLog(ops, apply, oid, maxOffset)
    {
      if oid.id >= |mapping| {
        r := None;
      } else {
        var offset: nat := mapping[oid.id];
        var changes: seq<C> := [];
        ghost var whole := WalkChain(ops, offset, maxOffset);
        while ops[offset].Patch?
          invariant offset < |ops|
          invariant whole == WalkChain(ops, offset, maxOffset).(changes := changes + WalkChain(ops, offset, maxOffset).changes)
          decreases offset
        {
          ghost var rest := WalkChain(ops, ops[offset].prevOffset, maxOffset).changes;
          if offset <= maxOffset {
            assert (changes + [ops[offset].change]) + rest == changes + ([ops[offset].change] + rest);
            changes := changes + [ops[offset].change];
          }
          offset := ops[offset].prevOffset;
        }
        var obj := ops[offset].obj;
        assert whole == Walk(offset, obj, changes);
        if offset > maxOffset {
          r := None;
        } else if |changes| > 0 {
          r := Some(apply(obj, changes));
        } else {
          r := Some(obj);
        }
      }
      ResolveMatchesLog(mapping, ops, apply, oid, maxOffset);
    }

    /** Appends a Patch of `oid` linked to its current head, and makes the
        Patch the new head. */
    method Patch(oid: Oid, change: C)
      requires Valid() && oid.id < |mapping|
      modifies this
      ensures Valid()
      ensures ops == old(ops) + [ObjectOp.Patch(oid, old(mapping[oid.id]), change)]
      ensures mapping == old(mapping)[oid.id := old(|ops|)]
    {
      PatchKeepsWellFormed(mapping, ops, oid.id, change);
      var prevOffset := mapping[oid.id];
      var offset := |ops|;
      ops := ops + [ObjectOp.Patch(oid, prevOffset, change)];
      mapping := mapping[oid.id := offset];
    }

    /** Appends a Put of `oid` with no link to its old chain, and makes the
        Put the new head. */
    method Replace(oid: Oid, obj: V)
      requires Valid() && oid.id < |mapping|
      modifies this
      ensures Valid()
      ensures ops == old(ops) + [Put(oid, obj)]
      ensures mapping == old(mapping)[oid.id := old(|ops|)]
    {
      ReplaceKeepsWellFormed(mapping, ops, oid.id, obj);
      var offset := |ops|;
      ops := ops + [Put(oid, obj)];
      mapping := mapping[oid.id := offset];
    }

    /** Allocates the next id, appends its Put and makes it the id's head. */
    method Insert(obj: V) returns (oid: Oid)
      requires Valid()
      modifies this
      ensures Valid()
      ensures oid == Oid(old(|mapping|))
      ensures ops == old(ops) + [Put(oid, obj)]
      ensures mapping == old(mapping) + [old(|ops|)]
    {
      var idx := |mapping|;
      oid := Oid(idx);
      var offset := |ops|;
      InsertKeepsWellFormed(mapping, ops, obj);
      ops := ops + [Put(oid, obj)];
      mapping := mapping + [offset];
    }
  }
}
