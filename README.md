# rol: a versioned object store

rol keeps every object it stores in a single append-only log of operations.
In the log, an object is written either as a full value (`Put`) or as a
change (`Patch`). Each `Patch` links back to the previous operation of the
same object. A head table `mapping` gives the position of each object's
newest operation. A read `get(oid, max_offset)` starts at the head and walks
the links back to the object's base `Put`. On the way it collects, newest
first, the changes whose positions are no later than `max_offset`. It
returns the base value with those changes applied, or nothing when the
object is unknown or its base value was written after `max_offset`.

The model has four files:

- `wrappers.dfy`: the `Option` type that reads return.
- `object.dfy` (module `Object`): object ids and their reversed order.
  Rust's `Ordering` is modelled with its `reverse`. The file also holds the
  contract that a value type's `apply` honours: it receives a newest-first
  batch and folds the changes in oldest first, one `step` at a time.
- `rol.dfy` (module `Rol`):
  - the log entry `ObjectOp` (`Put` / `Patch`);
  - the structural invariant of the store, `WellFormed`;
  - two descriptions of a read. `WalkChain`/`Resolve` follow the links the
    way `get` does. `LastPut`/`PatchesOf`/`ResolveByLog` read the flat log
    without following links. They are proved equal on every well-formed
    store;
  - what reads see after each kind of write;
  - the class `Db`, whose fields `mapping` and `ops` are updated in place
    by `Patch`, `Replace` and `Insert`, and whose `Get` is the read loop.
- `roltest.dfy` (module `RolTest`): the repository's own test. Its list
  value type `L` is here, including the loop of its `apply`. So is the whole
  scenario of inserts, patches and a replace, with the seven reads it
  expects.

The Rust `Object` trait is generic: a value type with an associated
`Change` type and an `apply` method. In the model it becomes the type
parameters `V` and `C` of `Db`, plus the function `apply: (V, seq<C>) -> V`
given to the constructor. `apply` mutates its receiver in place; the model
returns the new value instead. Where a lemma needs to know what `apply`
does, it assumes `AppliesNewestFirst(apply, step)`, which is the doc
comment's contract. `Get` carries no `modifies` clause, so it cannot change
the store.

## Model

| member | source | states |
|---|---|---|
| Object.Ordering.Reverse | src/object.rs:20 | reversing keeps `Equal` and swaps `Less` with `Greater` |
| Object.Cmp | src/object.rs:18-21 | `Less` exactly when the other id's number is smaller, `Greater` exactly when it is larger, `Equal` exactly when the ids are equal |
| Object.PartialCmp | src/object.rs:13-17 | the partial comparison is always `Some`, with the same numeric meaning as `Cmp` |
| Object.Le | src/object.rs:13-17 | `a <= b` on ids as Rust derives it from `partial_cmp`: not `Greater`; its meaning, reversed numeric `<=`, is proved by `CmpIsConsistent` and its order laws by `LeIsTotalOrder` |
| Object.CmpIsConsistent | src/object.rs:9-21 | swapping the arguments reverses the answer; `partial_cmp` is `Some(cmp)`; `a <= b` exactly when `b.0 <= a.0`, so `Equal` agrees with the derived equality |
| Object.LeIsTotalOrder | src/object.rs:18-21 | the reversed order is reflexive, antisymmetric, transitive and total |
| Object.Reversed | src/lib.rs:91 | the result has the same length, and its position k holds the input's position from the end |
| Object.AppliesNewestFirst | src/object.rs:4-5 | the doc contract of `apply`: applying a newest-first batch equals stepping through it oldest first; `NewestChangeAppliesLast` and `ListAppliesNewestFirst` say what it gives and that the test's type meets it |
| Object.NewestChangeAppliesLast | src/object.rs:4-5 | under the `apply` contract, the newest change of a newest-first batch is applied last, and a one-change batch is that change's step |
| Rol.Chain | src/lib.rs:23-33 | the positions the read visits start at the head and never go past it; each step follows a Patch's link; the last position is a Put |
| Rol.WalkChain | src/lib.rs:23-33 | the read loop ends at a Put at or before its start, with that Put's value as base, and collects no more changes than there are positions between the base and the start |
| Rol.Resolve | src/lib.rs:19-39 | `get` as a function over the heads and the log: nothing for an unknown id or a base after `max_offset`, the base when no change is visible, else `apply` of the base and the changes; `ResolveMatchesLog` proves it equal to the flat-log read, and `Db.Get` is proved to compute it |
| Rol.WalkEndsWhereChainEnds | src/lib.rs:23-33 | the read loop's base is the last position of the chain of links from its start, so `ChainStaysOnOid` speaks of the positions `Get` visits |
| Rol.LastPut | src/lib.rs:24-25 | the position found is a Put of the object below the bound, and no Put of the object lies between it and the bound |
| Rol.ChainStaysOnOid | src/lib.rs:21-33 | on a well-formed store, every operation the read visits from an object's head belongs to that object, and the walk ends at a Put |
| Rol.WalkEndsAtLastPut | src/lib.rs:23-25 | the loop stops at the newest Put of the object at or before its start |
| Rol.WalkCollectsPatchesOf | src/lib.rs:26-31 | the loop collects the changes of exactly those Patches of the object after its base Put and no later than `max_offset`, newest first; later Patches are skipped but followed |
| Rol.HeadReadMatchesLog | src/lib.rs:34-38 | from the object's newest operation, `None` past the base, then the base or `apply(base, changes)`, is the flat-log read |
| Rol.ResolveMatchesLog | src/lib.rs:19-39 | on a well-formed store, the read that follows links equals the flat-log read: `None` for an unknown id or a base after `max_offset`, else the base with the object's visible changes applied |
| Rol.WalkChainAppend | src/lib.rs:44-48 | appending to the log does not change the read from any existing position |
| Rol.InsertKeepsWellFormed | src/lib.rs:57-64 | `insert` keeps links backward and to the object's newest earlier op, heads in range and newest, and every op's id known |
| Rol.PatchKeepsWellFormed | src/lib.rs:40-50 | `patch` keeps the same invariant |
| Rol.ReplaceKeepsWellFormed | src/lib.rs:51-56 | `replace` keeps the same invariant |
| Rol.ResolveAfterInsert | src/lib.rs:57-64 | after `insert`, the new id reads as nothing before its Put and as the inserted value from there on; every other id reads as before |
| Rol.ResolveAfterPatch | src/lib.rs:40-50 | after `patch`, other ids and earlier positions read as before; from the new position on, the read is `apply` of the old base with the new change in front of the old changes |
| Rol.PatchAppliesStep | src/lib.rs:40-50 | with a value type honouring the `apply` contract, the read from the new position on is the previous read with the change applied |
| Rol.ResolveAfterReplace | src/lib.rs:51-56 | after `replace`, other ids read as before; the replaced id reads as nothing before the new Put (even where its old chain had a value) and as the new value from there on |
| Rol.ResolveAbsentBeforeBase | src/lib.rs:34 | a read finds nothing exactly when the object has no Put or its newest Put is after `max_offset` |
| Rol.ResolveStableBetweenPatches | src/lib.rs:27-29 | two bounds past the base with no Patch of the object between them read the same value |
| Rol.ResolveFoldsOldestFirst | src/lib.rs:35-38 | with a value type honouring the `apply` contract, a read is the base with the visible changes applied in the order they were written |
| Rol.Db.constructor | src/lib.rs:13-18 | a new store has no heads and an empty log, and satisfies the invariant |
| Rol.Db.Get | src/lib.rs:19-39 | the loop's result is the link-following read and the flat-log read of the unchanged store |
| Rol.Db.Patch | src/lib.rs:40-50 | appends exactly one Patch linked to the old head and makes its position the head; no other head and no earlier op changes; the invariant is kept |
| Rol.Db.Replace | src/lib.rs:51-56 | appends exactly one Put, with no link, and makes its position the head; earlier ops stay; the invariant is kept |
| Rol.Db.Insert | src/lib.rs:57-64 | returns `Oid` of the old head count, appends its Put at the old log length and pushes that position as its head; the invariant is kept |
| RolTest.ListApply | src/lib.rs:90-94 | the test's `L::apply` as a function: the old list followed by the batch reversed; `ApplyList` proves the loop computes it and `ListAppliesNewestFirst` that it meets the `apply` contract |
| RolTest.ApplyList | src/lib.rs:90-94 | the loop over the batch from its end keeps the old list as a prefix and appends the changes oldest first |
| RolTest.ListAppliesNewestFirst | src/lib.rs:87-95 | the test's list value honours the `apply` contract, with push as its step |
| RolTest.FirstLogFromWrites | src/lib.rs:99-105 | the two inserts and four patches produce the expected log, with heads 5 and 3 |
| RolTest.SecondLogFromWrites | src/lib.rs:112-113 | the replace and the last patch extend that log with a Put and a Patch linked to it |
| RolTest.FirstReads | src/lib.rs:107-110 | on the first log: o1 reads [a, b, c] at 5 and 1000, o2 reads [d, e] at 5, o1 reads [a] at 3 |
| RolTest.SecondReads | src/lib.rs:115-117 | after the replace: o1 reads as nothing at 5, [1, 2, 3] at 6 and [1, 2, 3, 4] at 1000 |
| RolTest.Scenario | src/lib.rs:97-117 | the test run on a `Db` returns the seven values the test expects |

## Left out

- Values are shared through `Arc`, and `Arc::make_mut` copies before `apply` mutates. The model treats values as immutable, so `get` returns a value and `apply` returns the new one. Sharing and copy-on-write are not modelled.
- Offsets and ids are `u64`, and indices are `usize`. They become `nat`. The `try_into().unwrap()` conversions, which can panic on targets whose `usize` is narrower than 64 bits, and the `as u64` casts are not modelled.
- Rol.Db.Patch: `patch` on an id with no head panics on the out-of-range index. The model makes a known id a precondition instead of modelling the panic.
- Rol.Db.Replace: `replace` on an id with no head also panics, but it does so after appending its Put to `ops` (src/lib.rs:54-55), whereas `patch` panics before touching `ops`. The model makes a known id a precondition, so it does not capture the Put that the panicking `replace` leaves in the log.
- The `Object` trait and its `Change` associated type become the type parameters `V` and `C` and the function `apply` that the store is built with. `apply` is handed the changes themselves rather than references to them.
- The `?Sized` bound, the derived `Hash`, `Clone`, `Copy` and `Debug`, and `#[repr(transparent)]` have no counterpart. The derived `PartialEq`/`Eq` of `Oid` and of the test's `L` are datatype and sequence equality.
- The module wiring (`mod object`, `pub use`) has nothing to model.
