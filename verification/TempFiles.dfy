/** The claim-counted temporary file (python/newtua/_archive.py, `_TempFile`). */
module TempFiles {
  import opened Base

  /**
   * A spilled archive. `armed` is the `weakref.finalize` guard, which runs its
   * callback at most once; `unlinks` is a history count of real deletions.
   */
  datatype Spilled = Spilled(data: Bytes, holders: int, armed: bool, onDisk: bool, unlinks: nat)

  function Fresh(data: Bytes): Spilled {
    Spilled(data, 1, true, true, 0)
  }

  // The three atomic steps. `release` is Dropped under the lock, then, when
  // nobody is left, Deleted outside it.

  function Held(f: Spilled): Spilled {
    f.(holders := f.holders + 1)
  }

  function Dropped(f: Spilled): Spilled {
    f.(holders := f.holders - 1)
  }

  predicate LastOut(f: Spilled) {
    f.holders - 1 <= 0
  }

  function Deleted(f: Spilled): Spilled {
    if f.armed then f.(armed := false, onDisk := false, unlinks := f.unlinks + 1) else f
  }

  function Released(f: Spilled): Spilled {
    if LastOut(f) then Deleted(Dropped(f)) else Dropped(f)
  }

  // ── one file, any number of threads ─────────────────────────────────────

  /** `pending` counts the releasers that left the lock as last and have not deleted yet. */
  datatype Shared = Shared(file: Spilled, pending: nat)

  datatype Op = Hold | Drop | Delete

  predicate CanDo(s: Shared, op: Op) {
    match op
    case Hold => true
    case Drop => s.file.holders > 0
    case Delete => s.pending > 0
  }

  function Do(s: Shared, op: Op): Shared
    requires CanDo(s, op)
  {
    match op
    case Hold => s.(file := Held(s.file))
    case Drop => Shared(Dropped(s.file), s.pending + if LastOut(s.file) then 1 else 0)
    case Delete => Shared(Deleted(s.file), s.pending - 1)
  }

  ghost predicate CanRun(s: Shared, ops: seq<Op>)
    decreases |ops|
  {
    ops == [] || (CanDo(s, ops[0]) && CanRun(Do(s, ops[0]), ops[1..]))
  }

  ghost function RunOps(s: Shared, ops: seq<Op>): Shared
    requires CanRun(s, ops)
    decreases |ops|
  {
    if ops == [] then s else RunOps(Do(s, ops[0]), ops[1..])
  }

  /** A claimed file is on disk, and no thread is on its way to delete it. */
  predicate Protected(s: Shared) {
    s.file.holders > 0 ==> s.file.onDisk && s.pending == 0
  }

  ghost predicate ProtectedThroughout(s: Shared, ops: seq<Op>)
    requires CanRun(s, ops)
    decreases |ops|
  {
    Protected(s) && (ops == [] || ProtectedThroughout(Do(s, ops[0]), ops[1..]))
  }

  /** No `hold` lands on a file whose last claim is already gone. */
  ghost predicate HoldsWhileClaimed(s: Shared, ops: seq<Op>)
    requires CanRun(s, ops)
    decreases |ops|
  {
    ops == [] ||
    ((ops[0] == Hold ==> s.file.holders > 0) && HoldsWhileClaimed(Do(s, ops[0]), ops[1..]))
  }

  predicate SharedInv(s: Shared) {
    && s.file.holders >= 0
    && (s.file.holders > 0 ==> s.file.onDisk && s.pending == 0)
    && (s.file.holders == 0 ==> s.pending == 1 || !s.file.onDisk)
    && (s.pending > 0 ==> s.file.onDisk)
    && s.pending <= 1
    && s.file.armed == s.file.onDisk
    && s.file.unlinks == (if s.file.onDisk then 0 else 1)
  }

  /**
   * However many threads hold and release, in whatever order, with the delete
   * outside the lock: every claim is protected all along exactly when no
   * `hold` comes after the count has reached zero.
   */
  lemma {:induction false} ProtectedIffHeldWhileClaimed(s: Shared, ops: seq<Op>)
    requires SharedInv(s) && CanRun(s, ops)
    ensures ProtectedThroughout(s, ops) <==> HoldsWhileClaimed(s, ops)
    decreases |ops|
  {
    if ops != [] {
      if ops[0] == Hold && s.file.holders == 0 {
        assert !Protected(Do(s, ops[0]));
      } else {
        ProtectedIffHeldWhileClaimed(Do(s, ops[0]), ops[1..]);
      }
    }
  }

  /** Once every claim is back and nobody is left to delete, the file was removed exactly once. */
  lemma {:induction false} ReleasedFileIsDeletedOnce(s: Shared, ops: seq<Op>)
    requires SharedInv(s) && CanRun(s, ops) && HoldsWhileClaimed(s, ops)
    ensures SharedInv(RunOps(s, ops))
    ensures var e := RunOps(s, ops);
            e.file.holders == 0 && e.pending == 0 ==> !e.file.onDisk && e.file.unlinks == 1
    decreases |ops|
  {
    if ops != [] {
      ReleasedFileIsDeletedOnce(Do(s, ops[0]), ops[1..]);
    }
  }

  /**
   * The harmful window: a `hold` between the last decrement and its delete
   * ends with a claimant whose file is gone.
   */
  lemma HoldInsideTheWindowLosesTheFile(data: Bytes)
    ensures var s, ops := Shared(Fresh(data), 0), [Drop, Hold, Delete];
            CanRun(s, ops) && RunOps(s, ops).file.holders == 1 && !RunOps(s, ops).file.onDisk
  {
    var s := Shared(Fresh(data), 0);
    var s1, s2 := Do(s, Drop), Do(Do(s, Drop), Hold);
    assert CanRun(Do(s2, Delete), []);
    assert CanRun(s2, [Delete]) && RunOps(s2, [Delete]) == Do(s2, Delete);
    assert [Hold, Delete][1..] == [Delete] && [Drop, Hold, Delete][1..] == [Hold, Delete];
    assert CanRun(s1, [Hold, Delete]) && RunOps(s1, [Hold, Delete]) == Do(s2, Delete);
    assert CanRun(s, [Drop, Hold, Delete]);
  }

  // ── the class ───────────────────────────────────────────────────────────

  class TempFile {
    const data: Bytes
    var holders: int
    var armed: bool
    var onDisk: bool
    ghost var unlinks: nat

    ghost function View(): Spilled
      reads this
    {
      Spilled(data, holders, armed, onDisk, unlinks)
    }

    constructor (data: Bytes)
      ensures View() == Fresh(data)
    {
      this.data := data;
      holders, armed, onDisk, unlinks := 1, true, true, 0;
    }

    method HoldOne()
      modifies this
      ensures View() == Held(old(View()))
    {
      holders := holders + 1;
    }

    /** Both halves of `release`, run without interruption. */
    method Release()
      modifies this
      ensures View() == Released(old(View()))
    {
      holders := holders - 1;
      if holders > 0 {
        return;
      }
      if armed {
        armed, onDisk, unlinks := false, false, unlinks + 1;
      }
    }
  }

  /** An uninterrupted `release` is the two atomic steps one after the other. */
  lemma ReleaseIsDropThenDelete(s: Shared)
    requires SharedInv(s) && s.file.holders > 0
    ensures Released(s.file) ==
            if LastOut(s.file) then Do(Do(s, Drop), Delete).file else Do(s, Drop).file
  {}
}
