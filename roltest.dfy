/**
 The repository's own test: a list value type whose changes are strings
 appended in chronological order, and a scenario of inserts, patches and a
 replace with the reads it expects.
 */
module RolTest {
  import opened Wrappers
  import opened Object
  import opened Rol

  /** The list value's `apply`: the batch arrives newest first, so its
      changes are appended from the last one to the first. */
  function ListApply(l: seq<string>, changes: seq<string>): seq<string>
  {
    l + Reversed(changes)
  }

  /** One change of the list value: append the string. */
  function ListPush(l: seq<string>, c: string): seq<string>
  {
    l + [c]
  }

  /** The list value's `apply` as the test writes it: a loop over the
      batch from its end, pushing each change. */
  method ApplyList(l: seq<string>, changes: seq<string>) returns (r: seq<string>)
    ensures r == ListApply(l, changes)
    ensures |r| == |l| + |changes| && r[..|l|] == l
    ensures forall k :: |l| <= k < |r| ==> r[k] == changes[|changes| - 1 - (k - |l|)]
  {
    r := l;
    var i := |changes|;
    while i > 0
      invariant 0 <= i <= |changes|
      invariant r == l + Reversed(changes[i..])
    {
      i := i - 1;
      assert changes[i..][1..] == changes[i + 1..];
      r := r + [changes[i]];
    }
    assert changes[0..] == changes;
  }

  lemma {:induction false} FoldPushAppends(l: seq<string>, cs: seq<string>)
    ensures FoldOldestFirst(ListPush, l, cs) == l + cs
    decreases |cs|
  {
    if cs != [] {
      FoldPushAppends(l + [cs[0]], cs[1..]);
      assert l + [cs[0]] + cs[1..] == l + cs;
    }
  }

  /** The list value honours the contract of `apply`: a newest-first batch
      has the effect of pushing its changes in the order they were made. */
  lemma ListAppliesNewestFirst()
    ensures AppliesNewestFirst(ListApply, ListPush)
  {
    forall v, cs ensures ListApply(v, cs) == FoldOldestFirst(ListPush, v, Reversed(cs)) {
      FoldPushAppends(v, Reversed(cs));
    }
  }

  type ListOp = ObjectOp<seq<string>, string>

  /** The log after the two inserts and four patches of the test. */
  function FirstLog(): seq<ListOp>
  {
    [Put(Oid(0), []), Put(Oid(1), ["d"]),
     Patch(Oid(0), 0, "a"), Patch(Oid(1), 1, "e"), Patch(Oid(0), 2, "b"), Patch(Oid(0), 4, "c")]
  }

  /** The log after the replace and the last patch of the test. */
  function SecondLog(): seq<ListOp>
  {
    FirstLog() + [Put(Oid(0), ["1", "2", "3"]), Patch(Oid(0), 6, "4")]
  }

  /** The changes of the test's first log, object by object, newest first. */
  lemma FirstLogPatches()
    ensures LastPut(FirstLog(), Oid(0), 6) == Some(0) && LastPut(FirstLog(), Oid(1), 6) == Some(1)
    ensures PatchesOf(FirstLog(), Oid(0), 1, 4) == ["a"]
    ensures PatchesOf(FirstLog(), Oid(0), 1, 6) == ["c", "b", "a"]
    ensures PatchesOf(FirstLog(), Oid(1), 2, 6) == ["e"]
  {
    var ops := FirstLog();
    assert PatchesOf(ops, Oid(0), 1, 2) == [];
    assert PatchesOf(ops, Oid(0), 1, 3) == ["a"];
    assert PatchesOf(ops, Oid(0), 1, 4) == ["a"];
    assert PatchesOf(ops, Oid(0), 1, 5) == ["b", "a"];
    assert PatchesOf(ops, Oid(1), 2, 3) == [];
    assert PatchesOf(ops, Oid(1), 2, 4) == ["e"];
    assert PatchesOf(ops, Oid(1), 2, 5) == ["e"];
  }

  /** A read on the flat log, once its base Put and visible changes are
      known, and the value they make. */
  lemma ReadByLog(ops: seq<ListOp>, oid: Oid, maxOffset: nat, b: nat, cs: seq<string>, v: seq<string>)
    requires LastPut(ops, oid, |ops|) == Some(b) && b <= maxOffset
    requires PatchesOf(ops, oid, b + 1, Min(maxOffset + 1, |ops|)) == cs
    requires v == if cs == [] then ops[b].obj else ListApply(ops[b].obj, cs)
    ensures ResolveByLog(ops, ListApply, oid, maxOffset) == Some(v)
  {
  }

  /** The reads of the test on its first log. */
  lemma FirstReads()
    ensures ResolveByLog(FirstLog(), ListApply, Oid(0), 5) == Some(["a", "b", "c"])
    ensures ResolveByLog(FirstLog(), ListApply, Oid(0), 1000) == Some(["a", "b", "c"])
    ensures ResolveByLog(FirstLog(), ListApply, Oid(1), 5) == Some(["d", "e"])
    ensures ResolveByLog(FirstLog(), ListApply, Oid(0), 3) == Some(["a"])
  {
    FirstLogPatches();
    FirstLogValues();
    TestBatches();
    FirstReadOfFirstObject(5);
    FirstReadOfFirstObject(1000);
    ReadByLog(FirstLog(), Oid(1), 5, 1, ["e"], ["d", "e"]);
    ReadByLog(FirstLog(), Oid(0), 3, 0, ["a"], ["a"]);
  }

  lemma FirstReadOfFirstObject(maxOffset: nat)
    requires 5 <= maxOffset
    ensures ResolveByLog(FirstLog(), ListApply, Oid(0), maxOffset) == Some(["a", "b", "c"])
  {
    FirstLogPatches();
    FirstLogValues();
    TestBatches();
    ReadByLog(FirstLog(), Oid(0), maxOffset, 0, ["c", "b", "a"], ["a", "b", "c"]);
  }

  /** The length and the base values of the first log. */
  lemma FirstLogValues()
    ensures |FirstLog()| == 6 && FirstLog()[0].obj == [] && FirstLog()[1].obj == ["d"]
  {
  }

  /** What the list value makes of the batches the test's reads collect. */
  lemma TestBatches()
    ensures ListApply([], ["c", "b", "a"]) == ["a", "b", "c"]
    ensures ListApply(["d"], ["e"]) == ["d", "e"]
    ensures ListApply([], ["a"]) == ["a"]
    ensures ListApply(["1", "2", "3"], ["4"]) == ["1", "2", "3", "4"]
  {
    SingleBatch([], "a");
    SingleBatch(["d"], "e");
    SingleBatch(["1", "2", "3"], "4");
    assert Reversed(["c", "b", "a"]) == ["a", "b", "c"];
  }

  lemma SingleBatch(l: seq<string>, c: string)
    ensures ListApply(l, [c]) == l + [c]
  {
    assert Reversed([c]) == [c];
  }

  lemma SecondLogPatches()
    ensures LastPut(SecondLog(), Oid(0), 8) == Some(6)
    ensures PatchesOf(SecondLog(), Oid(0), 7, 7) == []
    ensures PatchesOf(SecondLog(), Oid(0), 7, 8) == ["4"]
  {
  }

  /** The length and the base value of the second log. */
  lemma SecondLogValues()
    ensures |SecondLog()| == 8 && SecondLog()[6].obj == ["1", "2", "3"]
  {
  }

  /** The reads of the test after the replace and the last patch. */
  lemma SecondReads()
    ensures ResolveByLog(SecondLog(), ListApply, Oid(0), 5) == None
    ensures ResolveByLog(SecondLog(), ListApply, Oid(0), 6) == Some(["1", "2", "3"])
    ensures ResolveByLog(SecondLog(), ListApply, Oid(0), 1000) == Some(["1", "2", "3", "4"])
  {
    SecondLogPatches();
    SecondLogValues();
    TestBatches();
    ReadByLog(SecondLog(), Oid(0), 6, 6, [], ["1", "2", "3"]);
    ReadByLog(SecondLog(), Oid(0), 1000, 6, ["4"], ["1", "2", "3", "4"]);
  }

  /** The log and heads that the writes of the test produce, one write at a
      time, as the write methods describe them. */
  lemma FirstLogFromWrites(m0: seq<nat>, m1: seq<nat>, m2: seq<nat>, m3: seq<nat>, m4: seq<nat>, m5: seq<nat>,
                           m6: seq<nat>, s0: seq<ListOp>, s1: seq<ListOp>, s2: seq<ListOp>, s3: seq<ListOp>,
                           s4: seq<ListOp>, s5: seq<ListOp>, s6: seq<ListOp>)
    requires m0 == [] && s0 == []
    requires s1 == s0 + [Put(Oid(|m0|), [])] && m1 == m0 + [|s0|]
    requires s2 == s1 + [Put(Oid(|m1|), ["d"])] && m2 == m1 + [|s1|]
    requires s3 == s2 + [Patch(Oid(0), m2[0], "a")] && m3 == m2[0 := |s2|]
    requires s4 == s3 + [Patch(Oid(1), m3[1], "e")] && m4 == m3[1 := |s3|]
    requires s5 == s4 + [Patch(Oid(0), m4[0], "b")] && m5 == m4[0 := |s4|]
    requires s6 == s5 + [Patch(Oid(0), m5[0], "c")] && m6 == m5[0 := |s5|]
    ensures s6 == FirstLog() && m6 == [5, 3]
  {
  }

  lemma SecondLogFromWrites(m6: seq<nat>, m7: seq<nat>, m8: seq<nat>, s6: seq<ListOp>, s7: seq<ListOp>,
                            s8: seq<ListOp>)
    requires s6 == FirstLog() && m6 == [5, 3]
    requires s7 == s6 + [Put(Oid(0), ["1", "2", "3"])] && m7 == m6[0 := |s6|]
    requires s8 == s7 + [Patch(Oid(0), m7[0], "4")] && m8 == m7[0 := |s7|]
    ensures s8 == SecondLog()
  {
  }

  /** The scenario of the test, with the reads it checks. */
  method Scenario() returns (a1: Option<seq<string>>, a2: Option<seq<string>>, a3: Option<seq<string>>,
                             a4: Option<seq<string>>, b1: Option<seq<string>>, b2: Option<seq<string>>,
                             b3: Option<seq<string>>)
    ensures a1 == Some(["a", "b", "c"]) && a2 == Some(["a", "b", "c"])
    ensures a3 == Some(["d", "e"]) && a4 == Some(["a"])
    ensures b1 == None && b2 == Some(["1", "2", "3"]) && b3 == Some(["1", "2", "3", "4"])
  {
    var db := new Db<seq<string>, string>(ListApply);
    ghost var m0, s0 := db.mapping, db.ops;
    var o1 := db.Insert([]);
    ghost var m1, s1 := db.mapping, db.ops;
    var o2 := db.Insert(["d"]);
    ghost var m2, s2 := db.mapping, db.ops;
    db.Patch(o1, "a");
    ghost var m3, s3 := db.mapping, db.ops;
    db.Patch(o2, "e");
    ghost var m4, s4 := db.mapping, db.ops;
    db.Patch(o1, "b");
    ghost var m5, s5 := db.mapping, db.ops;
    db.Patch(o1, "c");
    ghost var m6, s6 := db.mapping, db.ops;
    FirstLogFromWrites(m0, m1, m2, m3, m4, m5, m6, s0, s1, s2, s3, s4, s5, s6);
    FirstReads();
    a1 := db.Get(o1, 5);
    a2 := db.Get(o1, 1000);
    a3 := db.Get(o2, 5);
    a4 := db.Get(o1, 3);
    db.Replace(o1, ["1", "2", "3"]);
    ghost var m7, s7 := db.mapping, db.ops;
    db.Patch(o1, "4");
    SecondLogFromWrites(m6, m7, db.mapping, s6, s7, db.ops);
    SecondReads();
    b1 := db.Get(o1, 5);
    b2 := db.Get(o1, 6);
    b3 := db.Get(o1, 1000);
  }
}
