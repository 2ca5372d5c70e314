/** Every step of the system keeps the invariant. */
module SystemProofs {
  import opened Base
  import opened Streams
  import opened StreamProofs
  import opened StreamSystem
  import T = TempFiles

  // ── counting claims ─────────────────────────────────────────────────────

  function Bit(b: bool): nat {
    if b then 1 else 0
  }

  lemma SizeWithout(s: set<nat>, i: nat)
    ensures |s| == |s - {i}| + Bit(i in s)
  {
    if i in s { assert s == s - {i} + {i}; } else { assert s == s - {i}; }
  }

  lemma ClaimantsMove(streams: seq<Stream>, i: nat, t: Stream, f: nat)
    requires i < |streams| && t.claim == streams[i].claim
    ensures var before, after := Claimants(streams, f), Claimants(streams[i := t], f);
            |after| == |before| + (if t.claim == Some(f) then Bit(HasClaim(t)) - Bit(HasClaim(streams[i])) else 0)
  {
    var before, after := Claimants(streams, f), Claimants(streams[i := t], f);
    assert before - {i} == after - {i};
    SizeWithout(before, i);
    SizeWithout(after, i);
    assert i in before <==> streams[i].claim == Some(f) && HasClaim(streams[i]);
    assert i in after <==> t.claim == Some(f) && HasClaim(t);
  }

  lemma DeletersMove(streams: seq<Stream>, i: nat, t: Stream, f: nat)
    requires i < |streams| && t.claim == streams[i].claim
    ensures var before, after := Deleters(streams, f), Deleters(streams[i := t], f);
            |after| == |before|
              + (if t.claim == Some(f) then Bit(t.caller.Deleting?) - Bit(streams[i].caller.Deleting?) else 0)
  {
    var before, after := Deleters(streams, f), Deleters(streams[i := t], f);
    assert before - {i} == after - {i};
    SizeWithout(before, i);
    SizeWithout(after, i);
    assert i in before <==> streams[i].claim == Some(f) && streams[i].caller.Deleting?;
    assert i in after <==> t.claim == Some(f) && t.caller.Deleting?;
  }

  lemma NewStreamClaimsNothing(streams: seq<Stream>, s: Stream, f: nat)
    requires s.caller == Piped
    ensures Claimants(streams + [s], f) == Claimants(streams, f)
    ensures Deleters(streams + [s], f) == Deleters(streams, f)
  {}

  lemma UnknownFileHasNoClaimants(c: Config, st: State, f: nat)
    requires IndexInv(c, st) && f >= |st.files|
    ensures Claimants(st.streams, f) == {} && Deleters(st.streams, f) == {}
  {}

  // ── a stream's own act, seen from the system ────────────────────────────

  /** Only stream `id` has moved, perhaps with the temp files; no descriptor has been opened. */
  predicate OnlyMoved(a: State, b: State, id: nat) {
    && b.archive == a.archive && |b.files| == |a.files| && |b.streams| == |a.streams| && b.fds.Keys <= a.fds.Keys
    && forall j :: 0 <= j < |a.streams| && j != id ==> b.streams[j] == a.streams[j]
  }

  /** A stream that touches a descriptor holds that very end, under that very number. */
  lemma DescriptorsAreOurs(c: Config, st: State, id: nat, a: Act)
    requires StreamsInv(c, st) && FdInv(st) && Enabled(c, st, OfStream(id, a))
    ensures var u := Uses(st.streams[id], a);
            u.Some? ==> u.value.0 in st.fds && st.fds[u.value.0] == End(id, u.value.1)
  {
    var s := st.streams[id];
    assert StreamInv(c.platform, c.capacity, s);
    var u := Uses(s, a);
    if u.Some? {
      assert IsOpen(s, u.value.1) && FdOf(s, u.value.1) == u.value.0;
    }
  }

  /** Closing one's own descriptor clears that end of one's own stream and nothing else. */
  lemma CloseIsLocal(st: State, id: nat, fd: nat, side: Side)
    requires id < |st.streams| && fd in st.fds && st.fds[fd] == End(id, side)
    ensures KernelClose(st, fd) ==
            st.(fds := st.fds - {fd}, streams := st.streams[id := Cleared(st.streams[id], side)])
  {}

  /** An act changes its own stream as `Next` says, and closes no other stream's descriptor. */
  lemma ActIsLocal(c: Config, st: State, id: nat, a: Act)
    requires StreamsInv(c, st) && FdInv(st) && Enabled(c, st, OfStream(id, a))
    ensures var s, st' := st.streams[id], Apply(c, st, OfStream(id, a));
            && st'.streams == st.streams[id := Next(c.platform, c.capacity, s, a, EnvOf(st.files, s))]
            && st'.fds == (if Closes(s, a).Some? then st.fds - {Closes(s, a).value.0} else st.fds)
            && st'.files == FilesAfter(st.files, s, a) && st'.archive == st.archive
  {
    var s := st.streams[id];
    if Closes(s, a).Some? {
      DescriptorsAreOurs(c, st, id, a);
      var moved := st.(streams := st.streams[id := Moved(c.platform, c.capacity, s, a, EnvOf(st.files, s))],
                       files := FilesAfter(st.files, s, a));
      CloseIsLocal(moved, id, Closes(s, a).value.0, Closes(s, a).value.1);
    }
  }

  lemma NextIsSound(c: Config, st: State, id: nat, a: Act)
    requires Core(c, st) && Enabled(c, st, OfStream(id, a))
    ensures var s := st.streams[id];
            StreamInv(c.platform, c.capacity, Next(c.platform, c.capacity, s, a, EnvOf(st.files, s)))
  {
    var s := st.streams[id];
    assert StreamInv(c.platform, c.capacity, s);
    StreamInvKept(c.platform, c.capacity, s, a, EnvOf(st.files, s));
  }

  /** What no act changes. */
  lemma NextKeepsIdentity(p: Platform, cap: nat, s: Stream, a: Act, env: Env)
    requires CanAct(p, cap, s, a, env)
    ensures var t := Next(p, cap, s, a, env);
            && t.entry == s.entry && t.password == s.password && t.script == s.script && t.expected == s.expected
            && t.file == s.file && t.claim == s.claim && t.readFd == s.readFd && t.writeFd == s.writeFd
            && (t.caller == Piped ==> s.caller == Piped)
  {
    if !MovesData(a) {
      ControlKeepsData(p, cap, s, a, env);
      NobodyGoesBack(p, cap, s, a, env);
    }
  }

  lemma NobodyGoesBack(p: Platform, cap: nat, s: Stream, a: Act, env: Env)
    requires CanAct(p, cap, s, a, env)
    ensures Next(p, cap, s, a, env).caller == Piped ==> s.caller == Piped
  {}

  /** An end closes exactly by the act that closes its descriptor. */
  lemma NextClosesOneEnd(p: Platform, cap: nat, s: Stream, a: Act, env: Env, side: Side)
    requires CanAct(p, cap, s, a, env)
    ensures IsOpen(Next(p, cap, s, a, env), side) <==>
            IsOpen(s, side) && !(Closes(s, a).Some? && Closes(s, a).value.1 == side)
  {}

  /** How an act moves the stream's claim, and its duty to delete. */
  lemma NextMovesClaim(p: Platform, cap: nat, s: Stream, a: Act, env: Env)
    requires PhaseInv(p, s) && CanAct(p, cap, s, a, env)
    ensures var t := Next(p, cap, s, a, env);
            && Bit(HasClaim(t)) == Bit(HasClaim(s)) + Bit(a == Claim) - Bit(a == GiveBack)
            && Bit(t.caller.Deleting?)
               == Bit(s.caller.Deleting?) + Bit(a == GiveBack && s.claim.Some? && env.lastClaim) - Bit(a == Unlink)
            && (a == GiveBack ==> HasClaim(s)) && (a == Unlink ==> s.caller.Deleting?)
            && (a == Claim ==> s.caller == Piped)
  {}

  lemma TableAfterMove(fds: map<nat, End>, streams: seq<Stream>, id: nat, t: Stream, closed: Option<(nat, Side)>)
    requires FdTable(fds, streams) && id < |streams|
    requires t.readFd == streams[id].readFd && t.writeFd == streams[id].writeFd
    requires forall side :: IsOpen(t, side) <==> IsOpen(streams[id], side) && !(closed.Some? && closed.value.1 == side)
    requires closed.Some? ==> closed.value.0 in fds && fds[closed.value.0] == End(id, closed.value.1)
    ensures FdTable(if closed.Some? then fds - {closed.value.0} else fds, streams[id := t])
  {
    var streams' := streams[id := t];
    forall i, side | 0 <= i < |streams'| && IsOpen(streams'[i], side)
      ensures IsOpen(streams[i], side) && FdOf(streams'[i], side) == FdOf(streams[i], side)
    {}
  }

  lemma ActKeepsFds(c: Config, st: State, id: nat, a: Act)
    requires Core(c, st) && Enabled(c, st, OfStream(id, a))
    ensures FdInv(Apply(c, st, OfStream(id, a)))
  {
    var s, env := st.streams[id], EnvOf(st.files, st.streams[id]);
    ActIsLocal(c, st, id, a);
    DescriptorsAreOurs(c, st, id, a);
    NextKeepsIdentity(c.platform, c.capacity, s, a, env);
    forall side ensures IsOpen(Next(c.platform, c.capacity, s, a, env), side) <==>
                        IsOpen(s, side) && !(Closes(s, a).Some? && Closes(s, a).value.1 == side)
    {
      NextClosesOneEnd(c.platform, c.capacity, s, a, env, side);
    }
    TableAfterMove(st.fds, st.streams, id, Next(c.platform, c.capacity, s, a, env), Closes(s, a));
  }

  lemma ActMovesCounts(c: Config, st: State, id: nat, a: Act, f: nat)
    requires StreamsInv(c, st) && Enabled(c, st, OfStream(id, a))
    ensures var s, env := st.streams[id], EnvOf(st.files, st.streams[id]);
            var moved := st.streams[id := Next(c.platform, c.capacity, s, a, env)];
            && |Claimants(moved, f)|
               == |Claimants(st.streams, f)| + (if s.claim == Some(f) then Bit(a == Claim) - Bit(a == GiveBack) else 0)
            && |Deleters(moved, f)|
               == |Deleters(st.streams, f)|
                  + (if s.claim == Some(f) then Bit(a == GiveBack && env.lastClaim) - Bit(a == Unlink) else 0)
  {
    var s, env := st.streams[id], EnvOf(st.files, st.streams[id]);
    var t := Next(c.platform, c.capacity, s, a, env);
    assert PhaseInv(c.platform, s) by {
      assert StreamInv(c.platform, c.capacity, s);
    }
    NextKeepsIdentity(c.platform, c.capacity, s, a, env);
    NextMovesClaim(c.platform, c.capacity, s, a, env);
    ClaimantsMove(st.streams, id, t, f);
    DeletersMove(st.streams, id, t, f);
  }

  lemma ActIsEntitled(c: Config, st: State, id: nat, a: Act, f: nat)
    requires Core(c, st) && Enabled(c, st, OfStream(id, a)) && st.streams[id].claim == Some(f)
    ensures a == GiveBack ==> |Claimants(st.streams, f)| > 0
    ensures a == Unlink ==> |Deleters(st.streams, f)| > 0
  {
    if a == Unlink { assert id in Deleters(st.streams, f); }
    if a == GiveBack { assert id in Claimants(st.streams, f); }
  }

  /** What an act makes of one file, and of those on the way to delete it. */
  lemma ActMovesFile(c: Config, st: State, id: nat, a: Act, f: nat)
    requires Core(c, st) && Enabled(c, st, OfStream(id, a)) && f < |st.files|
    ensures var s, st' := st.streams[id], Apply(c, st, OfStream(id, a));
            && |st'.files| == |st.files| && st'.archive == st.archive
            && st'.files[f] == (if s.claim != Some(f) then st.files[f]
                                else match a
                                  case Claim => T.Held(st.files[f])
                                  case GiveBack => T.Dropped(st.files[f])
                                  case Unlink => T.Deleted(st.files[f])
                                  case _ => st.files[f])
            && |Claimants(st'.streams, f)|
               == |Claimants(st.streams, f)| + (if s.claim == Some(f) then Bit(a == Claim) - Bit(a == GiveBack) else 0)
            && Pending(st', f)
               == Pending(st, f)
                  + (if s.claim == Some(f) then Bit(a == GiveBack && T.LastOut(st.files[f])) - Bit(a == Unlink) else 0)
  {
    ActIsLocal(c, st, id, a);
    ActMovesCounts(c, st, id, a, f);
  }

  lemma ActKeepsFile(c: Config, st: State, id: nat, a: Act, f: nat)
    requires Core(c, st) && Enabled(c, st, OfStream(id, a)) && f < |st.files|
    ensures var st' := Apply(c, st, OfStream(id, a)); |st'.files| == |st.files| && FileInv(st', f)
  {
    assert FileInv(st, f);
    ActMovesFile(c, st, id, a, f);
    if st.streams[id].claim == Some(f) {
      ActIsEntitled(c, st, id, a, f);
    }
  }

  /** Replacing a stream by one of the same identity, and files by files of the same data, keeps the bookkeeping. */
  lemma MoveKeepsBookkeeping(c: Config, st: State, st': State, id: nat, t: Stream)
    requires IndexInv(c, st) && BackingInv(c, st) && ScriptInv(c, st)
    requires id < |st.streams| && st'.streams == st.streams[id := t] && st'.archive == st.archive
    requires |st'.files| == |st.files| && forall f :: 0 <= f < |st.files| ==> st'.files[f].data == st.files[f].data
    requires var s := st.streams[id];
             && t.entry == s.entry && t.password == s.password && t.script == s.script && t.expected == s.expected
             && t.file == s.file && t.claim == s.claim
    ensures IndexInv(c, st') && BackingInv(c, st') && ScriptInv(c, st')
  {
    forall i | 0 <= i < |st'.streams|
      ensures st'.streams[i].file == st.streams[i].file && st'.streams[i].claim == st.streams[i].claim
           && st'.streams[i].script == st.streams[i].script && st'.streams[i].expected == st.streams[i].expected
           && st'.streams[i].password == st.streams[i].password && st'.streams[i].entry == st.streams[i].entry
           && BackingData(c, st', st'.streams[i].file) == BackingData(c, st, st.streams[i].file)
    {}
  }

  lemma ActKeepsStreams(c: Config, st: State, id: nat, a: Act)
    requires Core(c, st) && Enabled(c, st, OfStream(id, a))
    ensures StreamsInv(c, Apply(c, st, OfStream(id, a)))
  {
    var t := Next(c.platform, c.capacity, st.streams[id], a, EnvOf(st.files, st.streams[id]));
    ActIsLocal(c, st, id, a);
    NextIsSound(c, st, id, a);
    var streams' := st.streams[id := t];
    forall i | 0 <= i < |streams'| ensures StreamInv(c.platform, c.capacity, streams'[i]) {
      assert i != id ==> streams'[i] == st.streams[i];
    }
  }

  lemma ActKeepsBookkeeping(c: Config, st: State, id: nat, a: Act)
    requires Core(c, st) && Enabled(c, st, OfStream(id, a))
    ensures var st' := Apply(c, st, OfStream(id, a));
            IndexInv(c, st') && BackingInv(c, st') && ScriptInv(c, st')
  {
    var s, env := st.streams[id], EnvOf(st.files, st.streams[id]);
    ActIsLocal(c, st, id, a);
    NextKeepsIdentity(c.platform, c.capacity, s, a, env);
    MoveKeepsBookkeeping(c, st, Apply(c, st, OfStream(id, a)), id, Next(c.platform, c.capacity, s, a, env));
  }

  lemma ActKeepsCore(c: Config, st: State, id: nat, a: Act)
    requires Core(c, st) && Enabled(c, st, OfStream(id, a))
    ensures Core(c, Apply(c, st, OfStream(id, a)))
  {
    var st' := Apply(c, st, OfStream(id, a));
    ActKeepsStreams(c, st, id, a);
    ActKeepsFds(c, st, id, a);
    ActKeepsBookkeeping(c, st, id, a);
    forall f | 0 <= f < |st'.files| ensures FileInv(st', f) {
      ActIsLocal(c, st, id, a);
      ActKeepsFile(c, st, id, a, f);
    }
  }

  // ── the archive's own steps ─────────────────────────────────────────────

  lemma SpillKeepsCore(c: Config, st: State)
    requires Core(c, st) && Enabled(c, st, Spill)
    ensures Core(c, Apply(c, st, Spill))
  {
    var st' := Apply(c, st, Spill);
    forall f | 0 <= f < |st'.files| ensures FileInv(st', f) {
      if f < |st.files| {
        assert FileInv(st, f);
      } else {
        UnknownFileHasNoClaimants(c, st, f);
      }
    }
    forall i | 0 <= i < |st.streams|
      ensures BackingData(c, st', st.streams[i].file) == BackingData(c, st, st.streams[i].file)
    {}
  }

  lemma DropKeepsCore(c: Config, st: State)
    requires Core(c, st) && Enabled(c, st, DropClaim)
    ensures Core(c, Apply(c, st, DropClaim))
  {
    var st' := Apply(c, st, DropClaim);
    forall f | 0 <= f < |st'.files| ensures FileInv(st', f) {
      assert FileInv(st, f);
    }
  }

  lemma UnlinkKeepsCore(c: Config, st: State)
    requires Core(c, st) && Enabled(c, st, UnlinkDropped)
    ensures Core(c, Apply(c, st, UnlinkDropped))
  {
    var st' := Apply(c, st, UnlinkDropped);
    forall f | 0 <= f < |st'.files| ensures FileInv(st', f) {
      assert FileInv(st, f);
    }
  }

  lemma TableWithNewPipe(fds: map<nat, End>, streams: seq<Stream>, s: Stream)
    requires FdTable(fds, streams)
    requires s.readOpen && s.writeOpen && s.readFd != s.writeFd && s.readFd !in fds && s.writeFd !in fds
    ensures FdTable(fds[s.readFd := End(|streams|, ReadSide)][s.writeFd := End(|streams|, WriteSide)], streams + [s])
  {
    forall i, side | 0 <= i < |streams + [s]| && IsOpen((streams + [s])[i], side)
      ensures i < |streams| ==> IsOpen(streams[i], side) && FdOf((streams + [s])[i], side) == FdOf(streams[i], side)
    {}
  }

  lemma BeginKeepsBookkeeping(c: Config, st: State, entry: nat, r: nat, w: nat)
    requires Core(c, st) && Enabled(c, st, Begin(entry, r, w))
    ensures var st' := Apply(c, st, Begin(entry, r, w));
            IndexInv(c, st') && BackingInv(c, st') && ScriptInv(c, st')
  {
    var st' := Apply(c, st, Begin(entry, r, w));
    forall i | 0 <= i < |st'.streams|
      ensures BackingData(c, st', st'.streams[i].file) == BackingData(c, st, st'.streams[i].file)
    {}
  }

  lemma BeginKeepsCore(c: Config, st: State, entry: nat, r: nat, w: nat)
    requires Core(c, st) && Enabled(c, st, Begin(entry, r, w))
    ensures Core(c, Apply(c, st, Begin(entry, r, w)))
  {
    var st' := Apply(c, st, Begin(entry, r, w));
    var s := st'.streams[|st.streams|];
    assert StreamsInv(c, st') by {
      assert StreamInv(c.platform, c.capacity, s);
    }
    assert FilesInv(st') by {
      forall f | 0 <= f < |st'.files| ensures FileInv(st', f) {
        assert FileInv(st, f);
        NewStreamClaimsNothing(st.streams, s, f);
      }
    }
    TableWithNewPipe(st.fds, st.streams, s);
    BeginKeepsBookkeeping(c, st, entry, r, w);
  }

  lemma CalmStepKeepsCore(c: Config, st: State, step: Step)
    requires Core(c, st) && Enabled(c, st, step) && (step.SetPassword? || step.CloseArchive? || step.Enter?)
    ensures Core(c, Apply(c, st, step))
  {
    var st' := Apply(c, st, step);
    forall f | 0 <= f < |st'.files| ensures FileInv(st', f) {
      assert FileInv(st, f);
    }
  }

  lemma StepKeepsCore(c: Config, st: State, step: Step)
    requires Core(c, st) && Enabled(c, st, step)
    ensures Core(c, Apply(c, st, step))
  {
    match step
    case Spill => SpillKeepsCore(c, st);
    case DropClaim => DropKeepsCore(c, st);
    case UnlinkDropped => UnlinkKeepsCore(c, st);
    case SetPassword(_) => CalmStepKeepsCore(c, st, step);
    case CloseArchive => CalmStepKeepsCore(c, st, step);
    case Enter => CalmStepKeepsCore(c, st, step);
    case Begin(e, r, w) => BeginKeepsCore(c, st, e, r, w);
    case OfStream(id, a) => ActKeepsCore(c, st, id, a);
  }

  // ── shelter ─────────────────────────────────────────────────────────────

  lemma ActKeepsShelter(c: Config, st: State, id: nat, a: Act, f: nat)
    requires Core(c, st) && Enabled(c, st, OfStream(id, a)) && f < |st.files| && Sheltered(st, f)
    requires a == Claim && st.streams[id].claim == Some(f) ==> st.files[f].holders > 0
    ensures var st' := Apply(c, st, OfStream(id, a)); f < |st'.files| && Sheltered(st', f)
  {
    assert FileInv(st, f);
    ActMovesFile(c, st, id, a, f);
    if st.streams[id].claim == Some(f) {
      ActIsEntitled(c, st, id, a, f);
    }
  }

  /** A file keeps its shelter unless a claim is laid on it that comes after the last one went. */
  lemma StepKeepsShelter(c: Config, st: State, step: Step, f: nat)
    requires Core(c, st) && Enabled(c, st, step) && f < |st.files| && Sheltered(st, f)
    requires step.OfStream? && step.act == Claim && st.streams[step.id].claim == Some(f) ==> st.files[f].holders > 0
    ensures f < |Apply(c, st, step).files| && Sheltered(Apply(c, st, step), f)
  {
    match step
    case OfStream(id, a) => ActKeepsShelter(c, st, id, a, f);
    case Begin(_, _, _) =>
      NewStreamClaimsNothing(st.streams, Apply(c, st, step).streams[|st.streams|], f);
    case _ => assert FileInv(st, f);
  }

  /** A stream with a claim on the file it reads finds it on disk, as long as the file is sheltered. */
  lemma ClaimedFileIsThere(c: Config, st: State, id: nat)
    requires Core(c, st) && id < |st.streams| && HasClaim(st.streams[id])
    requires st.streams[id].claim == st.streams[id].file
    requires st.streams[id].file.Some? ==> Sheltered(st, st.streams[id].file.value)
    ensures !EnvOf(st.files, st.streams[id]).fileGone
  {
    var s := st.streams[id];
    if s.file.Some? {
      var f := s.file.value;
      assert FileInv(st, f);
      assert id in Claimants(st.streams, f);
    }
  }

  /** A worker decodes for a reader only while the stream is between `hold` and `release`. */
  lemma DecodingIsClaimed(p: Platform, s: Stream)
    requires PhaseInv(p, s) && OwnershipInv(p, s)
    ensures s.readOpen && s.worker.Decoding? ==> HasClaim(s)
  {}

  lemma NextCuts(p: Platform, cap: nat, s: Stream, a: Act, env: Env)
    requires CanAct(p, cap, s, a, env)
    ensures Next(p, cap, s, a, env).cut ==> s.cut || (a == LoseFile && s.readOpen)
    ensures HasClaim(Next(p, cap, s, a, env)) ==> HasClaim(s) || a == Claim
  {}

  lemma ActKeepsStreamsSecure(c: Config, st: State, id: nat, a: Act)
    requires Core(c, st) && Secure(st) && Enabled(c, st, OfStream(id, a)) && InTime(st, OfStream(id, a))
    ensures var t := Apply(c, st, OfStream(id, a)).streams[id];
            !t.cut && (HasClaim(t) ==> t.claim == t.file)
  {
    var s, env := st.streams[id], EnvOf(st.files, st.streams[id]);
    assert StreamInv(c.platform, c.capacity, s);
    ActIsLocal(c, st, id, a);
    NextCuts(c.platform, c.capacity, s, a, env);
    NextKeepsIdentity(c.platform, c.capacity, s, a, env);
    if a == LoseFile && s.readOpen {
      DecodingIsClaimed(c.platform, s);
      ClaimedFileIsThere(c, st, id);
    }
  }

  lemma StepKeepsSecure(c: Config, st: State, step: Step)
    requires Core(c, st) && Secure(st) && Enabled(c, st, step) && InTime(st, step)
    ensures Secure(Apply(c, st, step))
  {
    var st' := Apply(c, st, step);
    forall f | 0 <= f < |st'.files| ensures Sheltered(st', f) {
      if f < |st.files| {
        StepKeepsShelter(c, st, step, f);
      } else {
        UnknownFileHasNoClaimants(c, st, f);
      }
    }
    if step.OfStream? {
      ActIsLocal(c, st, step.id, step.act);
      ActKeepsStreamsSecure(c, st, step.id, step.act);
    }
  }

  // ── the discipline ──────────────────────────────────────────────────────

  /** An archive that does not let go in the window keeps every claim in time. */
  lemma WindowKeepsClaimsInTime(c: Config, st: State, step: Step)
    requires Inv(c, st) && Enabled(c, st, step)
    ensures InTime(st, step)
  {
    if step.OfStream? && IsSpilled(st.files, st.streams[step.id].claim) {
      assert FileInv(st, st.streams[step.id].claim.value);
    }
  }

  lemma WindowKept(c: Config, st: State, step: Step)
    requires Ordered(c) && Inv(c, st) && Enabled(c, st, step)
    ensures WindowInv(Apply(c, st, step))
  {
    match step
    case OfStream(id, a) =>
      ActIsLocal(c, st, id, a);
      NextKeepsIdentity(c.platform, c.capacity, st.streams[id], a, EnvOf(st.files, st.streams[id]));
    case DropClaim =>
      forall i | 0 <= i < |st.streams| && st.streams[i].caller == Piped ensures false {
        assert BetweenLookupAndClaim(st);
      }
    case _ =>
  }

  lemma StepKeepsInv(c: Config, st: State, step: Step)
    requires Ordered(c) && Inv(c, st) && Enabled(c, st, step)
    ensures Inv(c, Apply(c, st, step))
  {
    WindowKeepsClaimsInTime(c, st, step);
    StepKeepsCore(c, st, step);
    StepKeepsSecure(c, st, step);
    WindowKept(c, st, step);
  }

  lemma InitHolds(c: Config)
    ensures Inv(c, Init(c))
  {}

  /** Conservation, linearity and data hold after every run whatsoever, disciplined or not. */
  lemma {:induction false} RunKeepsCore(c: Config, st: State, run: seq<Step>)
    requires Core(c, st) && CanRun(c, st, run)
    ensures Core(c, After(c, st, run))
    decreases |run|
  {
    if run != [] {
      StepKeepsCore(c, st, run[0]);
      RunKeepsCore(c, Apply(c, st, run[0]), run[1..]);
    }
  }

  /** The full invariant holds after every run that keeps the discipline, under every interleaving. */
  lemma {:induction false} RunKeepsInv(c: Config, st: State, run: seq<Step>)
    requires Ordered(c) && Inv(c, st) && CanRun(c, st, run)
    ensures Inv(c, After(c, st, run))
    decreases |run|
  {
    if run != [] {
      StepKeepsInv(c, st, run[0]);
      RunKeepsInv(c, Apply(c, st, run[0]), run[1..]);
    }
  }

  lemma {:induction false} RunsCompose(c: Config, st: State, run: seq<Step>, more: seq<Step>)
    requires CanRun(c, st, run) && CanRun(c, After(c, st, run), more)
    ensures CanRun(c, st, run + more) && After(c, st, run + more) == After(c, After(c, st, run), more)
    decreases |run|
  {
    if run == [] {
      assert run + more == more;
    } else {
      RunsCompose(c, Apply(c, st, run[0]), run[1..], more);
      assert (run + more)[1..] == run[1..] + more;
    }
  }

  lemma StepThenRun(c: Config, st: State, step: Step, run: seq<Step>)
    requires Enabled(c, st, step) && CanRun(c, Apply(c, st, step), run)
    ensures CanRun(c, st, [step] + run) && After(c, st, [step] + run) == After(c, Apply(c, st, step), run)
  {
    assert ([step] + run)[1..] == run;
  }

  lemma RunThenStep(c: Config, st: State, run: seq<Step>, step: Step)
    requires CanRun(c, st, run) && Enabled(c, After(c, st, run), step)
    ensures CanRun(c, st, run + [step]) && After(c, st, run + [step]) == Apply(c, After(c, st, run), step)
  {
    assert CanRun(c, Apply(c, After(c, st, run), step), []);
    RunsCompose(c, st, run, [step]);
  }
}
