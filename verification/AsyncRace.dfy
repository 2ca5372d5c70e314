/**
 * Why the order matters in `AsyncArchive`. A stream context may be entered in
 * its own thread after `__aexit__`, or on both sides of it: it may claim a file
 * that is on its way out, or read a file it never claimed.
 */
module AsyncRace {
  import opened Base
  import opened Streams
  import opened StreamSystem
  import opened SystemProofs
  import opened Guarantees
  import opened Liveness
  import opened Calls

  // ── safety of the streams, and the condition on the run ─────────────────

  /** If the stream is between `hold` and `release`, the file it reads is on disk. */
  predicate FindsItsFile(st: State, id: nat) {
    id < |st.streams| && HasClaim(st.streams[id]) && IsSpilled(st.files, st.streams[id].file) ==>
      st.files[st.streams[id].file.value].onDisk
  }

  /** Whatever happens from now on, the stream finds its file as long as it lasts. */
  ghost predicate Safe(c: Config, st: State, id: nat) {
    forall more :: CanRun(c, st, more) ==> FindsItsFile(After(c, st, more), id)
  }

  ghost predicate AllSafe(c: Config, st: State) {
    forall id :: 0 <= id < |st.streams| && HasClaim(st.streams[id]) ==> Safe(c, st, id)
  }

  ghost predicate SafeThroughout(c: Config, st: State, run: seq<Step>)
    requires CanRun(c, st, run)
    decreases |run|
  {
    AllSafe(c, st) && (run == [] || SafeThroughout(c, Apply(c, st, run[0]), run[1..]))
  }

  /** Every stream of the run looked the claim up while it was out, and claimed while some claim still was. */
  ghost predicate InTimeThroughout(c: Config, st: State, run: seq<Step>)
    requires CanRun(c, st, run)
    decreases |run|
  {
    run == [] || (InTime(st, run[0]) && InTimeThroughout(c, Apply(c, st, run[0]), run[1..]))
  }

  // ── a claim in time is enough ───────────────────────────────────────────

  lemma StreamsStay(c: Config, st: State, step: Step, id: nat)
    requires Core(c, st) && Enabled(c, st, step) && id < |st.streams|
    ensures var st' := Apply(c, st, step);
            && id < |st'.streams| && st'.streams[id].file == st.streams[id].file
            && st'.streams[id].claim == st.streams[id].claim
            && (st.streams[id].caller != Piped ==> st'.streams[id].caller != Piped)
            && (HasClaim(st'.streams[id]) ==> HasClaim(st.streams[id]) || st.streams[id].caller == Piped)
  {
    if step.OfStream? {
      var s := st.streams[step.id];
      ActIsLocal(c, st, step.id, step.act);
      NextKeepsIdentity(c.platform, c.capacity, s, step.act, EnvOf(st.files, s));
      NextCuts(c.platform, c.capacity, s, step.act, EnvOf(st.files, s));
    }
  }

  /** A stream that gave its claim back does not come to hold one again. */
  lemma {:induction false} GoneForGood(c: Config, st: State, more: seq<Step>, id: nat)
    requires Core(c, st) && CanRun(c, st, more) && id < |st.streams|
    requires !HasClaim(st.streams[id]) && st.streams[id].caller != Piped
    ensures FindsItsFile(After(c, st, more), id)
    decreases |more|
  {
    if more != [] {
      StreamsStay(c, st, more[0], id);
      StepKeepsCore(c, st, more[0]);
      GoneForGood(c, Apply(c, st, more[0]), more[1..], id);
    }
  }

  /** Whatever anybody does, other streams that come too late included. */
  lemma {:induction false} ClaimedFileStays(c: Config, st: State, more: seq<Step>, id: nat)
    requires Core(c, st) && CanRun(c, st, more) && id < |st.streams| && HasClaim(st.streams[id])
    requires st.streams[id].claim == st.streams[id].file
    requires st.streams[id].file.Some? ==> Sheltered(st, st.streams[id].file.value)
    ensures FindsItsFile(After(c, st, more), id)
    decreases |more|
  {
    ClaimedFileIsThere(c, st, id);
    if more != [] {
      var s, st' := st.streams[id], Apply(c, st, more[0]);
      StreamsStay(c, st, more[0], id);
      StepKeepsCore(c, st, more[0]);
      if s.file.Some? {
        assert FileInv(st, s.file.value) && id in Claimants(st.streams, s.file.value);
        StepKeepsShelter(c, st, more[0], s.file.value);
      }
      if HasClaim(st'.streams[id]) {
        ClaimedFileStays(c, st', more[1..], id);
      } else {
        GoneForGood(c, st', more[1..], id);
      }
    }
  }

  lemma SecureIsSafe(c: Config, st: State)
    requires Core(c, st) && Secure(st)
    ensures AllSafe(c, st)
  {
    forall id, more | 0 <= id < |st.streams| && HasClaim(st.streams[id]) && CanRun(c, st, more)
      ensures FindsItsFile(After(c, st, more), id)
    {
      ClaimedFileStays(c, st, more, id);
    }
  }

  // ── and nothing less is ─────────────────────────────────────────────────

  function IsBusy(s: Stream): nat {
    if s.caller.Opened? && s.caller.reader.Reading? then 1 else 0
  }

  /** One act of taking a stream down: its user stops reading and closes, or it does what it owes. */
  lemma DownAct(p: Platform, cap: nat, s: Stream, env: Env) returns (a: Act)
    requires PhaseInv(p, s) && OwnershipInv(p, s) && DataInv(cap, s) && cap > 0
    requires s.caller != Piped && !s.caller.Done?
    ensures CanAct(p, cap, s, a, env) && !a.Call?
    ensures a.Return? ==> IsBusy(Next(p, cap, s, a, env)) < IsBusy(s)
  {
    if s.caller == Opened(Idle) {
      a := CloseRead;
    } else if m :| CanAct(p, cap, s, Return(m), env) {
      a := Return(m);
    } else {
      OwedIsEnabled(p, cap, s, env);
      a := Owed(cap, s, env);
    }
  }

  lemma DownStep(c: Config, st: State, id: nat) returns (a: Act)
    requires Core(c, st) && c.capacity > 0 && id < |st.streams|
    requires st.streams[id].emitted <= st.streams[id].script.breakAt
    requires st.streams[id].caller != Piped && !st.streams[id].caller.Done?
    ensures Enabled(c, st, OfStream(id, a)) && Core(c, Apply(c, st, OfStream(id, a)))
    ensures var st' := Apply(c, st, OfStream(id, a));
            && OnlyMoved(st, st', id) && st'.streams[id].caller != Piped
            && st'.streams[id].emitted <= st'.streams[id].script.breakAt
            && (Rank(st'.streams[id]) < Rank(st.streams[id])
                || (Rank(st'.streams[id]) == Rank(st.streams[id]) && IsBusy(st'.streams[id]) < IsBusy(st.streams[id])))
  {
    var s, env := st.streams[id], EnvOf(st.files, st.streams[id]);
    assert StreamInv(c.platform, c.capacity, s);
    a := DownAct(c.platform, c.capacity, s, env);
    StepKeepsCore(c, st, OfStream(id, a));
    ActIsLocal(c, st, id, a);
    NobodyGoesBack(c.platform, c.capacity, s, a, env);
    EveryActWorks(c.platform, c.capacity, s, a, env);
  }

  /** Any stream can be brought to its end by its own steps, and takes nobody along. */
  lemma {:induction false} WindDown(c: Config, st: State, id: nat) returns (more: seq<Step>)
    requires Core(c, st) && c.capacity > 0 && id < |st.streams| && st.streams[id].caller != Piped
    requires st.streams[id].emitted <= st.streams[id].script.breakAt
    ensures CanRun(c, st, more) && Core(c, After(c, st, more))
    ensures OnlyMoved(st, After(c, st, more), id) && After(c, st, more).streams[id].caller.Done?
    decreases Rank(st.streams[id]), IsBusy(st.streams[id])
  {
    if st.streams[id].caller.Done? {
      more := [];
    } else {
      var a := DownStep(c, st, id);
      var rest := WindDown(c, Apply(c, st, OfStream(id, a)), id);
      StepThenRun(c, st, OfStream(id, a), rest);
      more := [OfStream(id, a)] + rest;
    }
  }

  lemma ClaimantLeaves(a: State, b: State, i: nat, f: nat)
    requires i < |a.streams| && OnlyMoved(a, b, i) && b.streams[i].caller.Done?
    ensures Claimants(b.streams, f) == Claimants(a.streams, f) - {i}
  {}

  lemma ArchiveLetsGo(c: Config, st: State, f: nat)
    requires Core(c, st) && !Ordered(c) && f < |st.files| && Claimants(st.streams, f) == {}
    ensures var more := if st.archive.claim == Some(f) then [DropClaim] else [];
            && CanRun(c, st, more) && Core(c, After(c, st, more)) && After(c, st, more).streams == st.streams
            && |After(c, st, more).files| == |st.files| && After(c, st, more).files[f].holders == 0
  {
    assert FileInv(st, f);
    if st.archive.claim == Some(f) {
      StepKeepsCore(c, st, DropClaim);
      assert CanRun(c, Apply(c, st, DropClaim), []) && [DropClaim][1..] == [];
    }
  }

  /** Everybody who claims a file can let go of it, while a stream that does not claim it stays as it is. */
  lemma {:induction false} AllLetGo(c: Config, st: State, f: nat, keep: nat) returns (more: seq<Step>)
    requires Core(c, st) && c.capacity > 0 && !Ordered(c) && f < |st.files|
    requires keep < |st.streams| && keep !in Claimants(st.streams, f)
    ensures CanRun(c, st, more) && Core(c, After(c, st, more))
    ensures var e := After(c, st, more);
            && |e.files| == |st.files| && |e.streams| == |st.streams| && e.streams[keep] == st.streams[keep]
            && e.files[f].holders == 0
    decreases Claimants(st.streams, f)
  {
    if i :| i in Claimants(st.streams, f) {
      assert StreamInv(c.platform, c.capacity, st.streams[i]);
      var down := WindDown(c, st, i);
      ClaimantLeaves(st, After(c, st, down), i, f);
      var rest := AllLetGo(c, After(c, st, down), f, keep);
      RunsCompose(c, st, down, rest);
      more := down + rest;
    } else {
      ArchiveLetsGo(c, st, f);
      more := if st.archive.claim == Some(f) then [DropClaim] else [];
    }
  }

  lemma DeleterDeletes(c: Config, st: State, f: nat, i: nat)
    requires Core(c, st) && f < |st.files| && i in Deleters(st.streams, f)
    ensures Enabled(c, st, OfStream(i, Unlink))
    ensures var e := Apply(c, st, OfStream(i, Unlink));
            OnlyMoved(st, e, i) && !e.files[f].onDisk
  {
    assert FileInv(st, f);
    ActIsLocal(c, st, i, Unlink);
  }

  /** A file somebody is about to delete can be deleted next. */
  lemma PendingDeleteHappens(c: Config, st: State, f: nat, keep: nat) returns (more: seq<Step>)
    requires Core(c, st) && f < |st.files| && keep < |st.streams| && HasClaim(st.streams[keep])
    requires Pending(st, f) > 0 || !st.files[f].onDisk
    ensures CanRun(c, st, more)
    ensures var e := After(c, st, more);
            && |e.files| == |st.files| && |e.streams| == |st.streams| && e.streams[keep] == st.streams[keep]
            && !e.files[f].onDisk
  {
    if !st.files[f].onDisk {
      more := [];
    } else {
      var step := UnlinkDropped;
      if st.archive.deleting == Some(f) {
        assert FileInv(st, f);
      } else {
        var i :| i in Deleters(st.streams, f);
        DeleterDeletes(c, st, f, i);
        step := OfStream(i, Unlink);
      }
      more := [step];
      assert CanRun(c, Apply(c, st, step), []) && more[1..] == [];
    }
  }

  /** A stream that reads a file and does not claim it can lose it to everybody else's closing. */
  lemma UnclaimedFileCanGo(c: Config, st: State, id: nat) returns (more: seq<Step>)
    requires Core(c, st) && c.capacity > 0 && !Ordered(c) && id < |st.streams| && HasClaim(st.streams[id])
    requires st.streams[id].file.Some? && st.streams[id].claim != st.streams[id].file
    ensures CanRun(c, st, more)
    ensures var e := After(c, st, more);
            && id < |e.streams| && e.streams[id] == st.streams[id]
            && IsSpilled(e.files, e.streams[id].file) && !e.files[e.streams[id].file.value].onDisk
  {
    var f := st.streams[id].file.value;
    var first := AllLetGo(c, st, f, id);
    var st' := After(c, st, first);
    assert FileInv(st', f);
    var deletion := PendingDeleteHappens(c, st', f, id);
    RunsCompose(c, st, first, deletion);
    more := first + deletion;
  }

  /** After a claim that does not come in time, the claimant can lose its file. */
  lemma LateClaimIsUnsafe(c: Config, st: State, step: Step)
    requires Core(c, st) && Secure(st) && c.capacity > 0 && !Ordered(c)
    requires Enabled(c, st, step) && !InTime(st, step)
    ensures !AllSafe(c, Apply(c, st, step))
  {
    var id, st' := step.id, Apply(c, st, step);
    var s := st.streams[id];
    StepKeepsCore(c, st, step);
    ActIsLocal(c, st, id, Claim);
    assert s.file.Some? by {
      assert s.file.None? == c.source.OnDisk?;
    }
    var more: seq<Step>;
    if s.claim != s.file {
      more := UnclaimedFileCanGo(c, st', id);
    } else {
      var f := s.file.value;
      assert FileInv(st, f);
      ActMovesFile(c, st, id, Claim, f);
      more := PendingDeleteHappens(c, st', f, id);
    }
    assert !FindsItsFile(After(c, st', more), id);
    assert HasClaim(st'.streams[id]) && !Safe(c, st', id);
  }

  /**
   * Over all runs of an undisciplined asyncio front: at every moment every open
   * stream is sure of its file, come what may, if and only if every stream of
   * the run looked its claim up while the archive held it and laid it while
   * somebody still did.
   */
  lemma {:induction false} StreamsAreSafeIffClaimsAreInTime(c: Config, st: State, run: seq<Step>)
    requires Core(c, st) && Secure(st) && c.capacity > 0 && !Ordered(c) && CanRun(c, st, run)
    ensures SafeThroughout(c, st, run) <==> InTimeThroughout(c, st, run)
    decreases |run|
  {
    SecureIsSafe(c, st);
    if run != [] {
      var st' := Apply(c, st, run[0]);
      if InTime(st, run[0]) {
        StepKeepsCore(c, st, run[0]);
        StepKeepsSecure(c, st, run[0]);
        StreamsAreSafeIffClaimsAreInTime(c, st', run[1..]);
      } else {
        LateClaimIsUnsafe(c, st, run[0]);
      }
    }
  }

  /** Entering every stream while the archive is entered, as one thread always does, is such a run. */
  lemma {:induction false} OrderIsEnough(c: Config, st: State, run: seq<Step>)
    requires Inv(c, st) && Ordered(c) && CanRun(c, st, run)
    ensures InTimeThroughout(c, st, run) && SafeThroughout(c, st, run)
    decreases |run|
  {
    SecureIsSafe(c, st);
    if run != [] {
      WindowKeepsClaimsInTime(c, st, run[0]);
      StepKeepsInv(c, st, run[0]);
      OrderIsEnough(c, Apply(c, st, run[0]), run[1..]);
    }
  }

  // ── too late to claim ───────────────────────────────────────────────────

  /** An open stands in the window, and the archive's is the only claim on its file. */
  predicate InTheWindow(st: State, id: nat, f: nat) {
    && st.archive.claim == Some(f) && st.archive.deleting == None
    && f < |st.files| && st.files[f].holders == 1 && st.files[f].armed
    && id < |st.streams| && st.streams[id].file == st.streams[id].claim == Some(f) && st.streams[id].caller == Piped
  }

  /** The window is reached by entering an archive of `bytes` and starting to open. */
  lemma WindowIsReached(c: Config)
    requires c.source.InMemory? && c.platform == Posix && c.front.Asyncio?
    ensures var run := [Spill] + ([Enter] + ([Begin(0, 3, 4)] + []));
            CanRun(c, Init(c), run) && InTheWindow(After(c, Init(c), run), 0, 0)
  {
    var s1 := Apply(c, Init(c), Spill);
    var s2 := Apply(c, s1, Enter);
    assert CanRun(c, Apply(c, s2, Begin(0, 3, 4)), []);
    StepThenRun(c, s2, Begin(0, 3, 4), []);
    StepThenRun(c, s1, Enter, [Begin(0, 3, 4)] + []);
    StepThenRun(c, Init(c), Spill, [Enter] + ([Begin(0, 3, 4)] + []));
  }

  function ExitInTheWindow(id: nat): seq<Step> {
    [DropClaim] + ([OfStream(id, Claim)] + ([UnlinkDropped] + []))
  }

  /**
   * From any such state, an exit that does not wait leaves the open with a
   * claim on a deleted file: its worker will not be able to open the archive.
   */
  lemma ExitInTheWindowLosesTheFile(c: Config, st: State, id: nat, f: nat)
    requires !Ordered(c) && InTheWindow(st, id, f)
    ensures CanRun(c, st, ExitInTheWindow(id))
    ensures var e := After(c, st, ExitInTheWindow(id));
            && |e.streams| == |st.streams| && |e.files| == |st.files|
            && e.streams[id].claim == e.streams[id].file == Some(f) && HasClaim(e.streams[id])
            && e.files[f].holders == 1 && !e.files[f].onDisk
  {
    var s1 := Apply(c, st, DropClaim);
    var s2 := Apply(c, s1, OfStream(id, Claim));
    assert CanRun(c, Apply(c, s2, UnlinkDropped), []);
    StepThenRun(c, s2, UnlinkDropped, []);
    StepThenRun(c, s1, OfStream(id, Claim), [UnlinkDropped] + []);
    StepThenRun(c, st, DropClaim, [OfStream(id, Claim)] + ([UnlinkDropped] + []));
  }

  // ── too late to look up ─────────────────────────────────────────────────

  /** Stream `b` was entered after the exit and reads a file that only stream `a` still claims. */
  predicate RidesAlong(st: State, a: nat, b: nat, f: nat) {
    && a < |st.streams| && b < |st.streams| && a != b && f < |st.files|
    && st.files[f].holders == 1 && st.files[f].armed
    && st.streams[a].caller == Opened(Idle) && st.streams[a].claim == Some(f)
    && st.streams[a].readFd in st.fds && st.fds[st.streams[a].readFd] == End(a, ReadSide)
    && st.streams[b].caller == Opened(Idle) && st.streams[b].worker == Granted && st.streams[b].readOpen
    && st.streams[b].file == Some(f) && st.streams[b].claim == None && st.streams[b].script.reopens
  }

  /** A `bytes` archive entered, one stream opened, and the archive exited. */
  lemma ExitWithOneStream(c: Config) returns (run: seq<Step>)
    requires c.source.InMemory? && c.platform == Posix && !Ordered(c)
    ensures CanRun(c, Init(c), run)
    ensures var e := After(c, Init(c), run);
            && |e.streams| == 1 && e.streams[0].caller == Opened(Idle) && e.streams[0].claim == Some(0)
            && e.streams[0].readFd == 3 && e.fds == map[3 := End(0, ReadSide), 4 := End(0, WriteSide)]
            && |e.files| == 1 && e.files[0].holders == 1 && e.files[0].armed && e.files[0].onDisk
            && e.files[0].data == c.source.data && e.archive.password == c.password
            && e.archive.entered && e.archive.path == Some(0) && e.archive.claim == None
  {
    var s1 := Apply(c, Init(c), Spill);
    var s2 := Apply(c, s1, Enter);
    OpenRuns(c, s2, 0, 3, 4);
    var open := CallSteps(s2, 0, 3, 4, GRANT);
    RunThenStep(c, s2, open, CloseArchive);
    RunThenStep(c, s2, open + [CloseArchive], DropClaim);
    var rest := open + [CloseArchive] + [DropClaim];
    StepThenRun(c, s1, Enter, rest);
    StepThenRun(c, Init(c), Spill, [Enter] + rest);
    run := [Spill] + ([Enter] + rest);
  }

  /** A context handed out before the exit can be entered after it: the file is still there, but nothing to claim. */
  lemma LateEntryRidesAlong(c: Config) returns (run: seq<Step>)
    requires c.source.InMemory? && c.platform == Posix && !Ordered(c)
    requires c.decode(c.source.data, c.password, 1).reopens
    ensures CanRun(c, Init(c), run) && RidesAlong(After(c, Init(c), run), 0, 1, 0)
    ensures |After(c, Init(c), run).streams| == 2
  {
    var before := ExitWithOneStream(c);
    var st := After(c, Init(c), before);
    OpenRuns(c, st, 1, 5, 6);
    RunsCompose(c, Init(c), before, CallSteps(st, 1, 5, 6, GRANT));
    run := before + CallSteps(st, 1, 5, 6, GRANT);
  }

  /**
   * The other stream's close then takes the file away from under a live reader,
   * although no `hold` in the run came late: the late stream never held at all.
   */
  lemma RiderIsCut(c: Config, st: State, a: nat, b: nat, f: nat) returns (more: seq<Step>)
    requires RidesAlong(st, a, b, f)
    ensures CanRun(c, st, more)
    ensures var e := After(c, st, more);
            && |e.streams| == |st.streams| && e.streams[b].cut && e.streams[b].caller == Opened(Idle)
            && e.streams[b].file == Some(f) && e.streams[b].claim == None
            && e.streams[a].caller == Done(true)
  {
    var st1 := Apply(c, st, OfStream(b, TakeFd));
    CloseRuns(c, st1, a);
    RunThenStep(c, st1, Acts(a, CloseActs(st1, a)), OfStream(b, LoseFile));
    StepThenRun(c, st, OfStream(b, TakeFd), Acts(a, CloseActs(st1, a)) + [OfStream(b, LoseFile)]);
    more := [OfStream(b, TakeFd)] + (Acts(a, CloseActs(st1, a)) + [OfStream(b, LoseFile)]);
  }

  /** From the start: two contexts, one entered on either side of the exit, and the second is cut short. */
  lemma LateStreamIsCut(c: Config) returns (run: seq<Step>)
    requires c.source.InMemory? && c.platform == Posix && !Ordered(c)
    requires c.decode(c.source.data, c.password, 1).reopens
    ensures IsRun(c, run) && |Final(c, run).streams| == 2
    ensures var s := Final(c, run).streams[1];
            s.cut && s.caller == Opened(Idle) && s.file == Some(0) && s.claim == None
  {
    var before := LateEntryRidesAlong(c);
    var more := RiderIsCut(c, After(c, Init(c), before), 0, 1, 0);
    RunsCompose(c, Init(c), before, more);
    run := before + more;
  }
}
