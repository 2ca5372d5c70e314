/**
 * Whole calls as runs of the system, when nobody interrupts them: what
 * `_open_pipe_*`, a stream's `close` and the archive's `release` add up to.
 */
module Calls {
  import opened Base
  import opened Streams
  import opened StreamSystem
  import opened SystemProofs
  import T = TempFiles

  // ── `release` by the archive ────────────────────────────────────────────

  function ReleaseSteps(st: State): seq<Step> {
    if IsSpilled(st.files, st.archive.claim) && !T.LastOut(st.files[st.archive.claim.value]) then [DropClaim]
    else [DropClaim, UnlinkDropped]
  }

  function LetGo(st: State): State
    requires IsSpilled(st.files, st.archive.claim)
  {
    var f := st.archive.claim.value;
    st.(files := st.files[f := T.Released(st.files[f])], archive := st.archive.(claim := None))
  }

  lemma ReleaseRuns(c: Config, st: State)
    requires IsSpilled(st.files, st.archive.claim) && st.archive.deleting == None && !BetweenLookupAndClaim(st)
    ensures CanRun(c, st, ReleaseSteps(st)) && After(c, st, ReleaseSteps(st)) == LetGo(st)
  {
    var f := st.archive.claim.value;
    var st1 := Apply(c, st, DropClaim);
    assert CanRun(c, LetGo(st), []);
    if T.LastOut(st.files[f]) {
      assert Apply(c, st1, UnlinkDropped) == LetGo(st);
      assert [DropClaim, UnlinkDropped][1..] == [UnlinkDropped] && [UnlinkDropped][1..] == [];
      assert CanRun(c, st1, [UnlinkDropped]);
    }
  }

  // ── opening a stream ────────────────────────────────────────────────────

  /** The stream `_open_pipe_*` is about to make. */
  function Prospect(c: Config, st: State, entry: nat, r: nat, w: nat): Stream {
    var file := PathOf(c, st.archive);
    NewStream(entry, st.archive.password, c.decode(BackingData(c, st, file), st.archive.password, entry),
              file, st.archive.claim, r, w)
  }

  function WithPipe(st: State, r: nat, w: nat): map<nat, End> {
    st.fds[r := End(|st.streams|, ReadSide)][w := End(|st.streams|, WriteSide)]
  }

  /** The state with one more stream, and whatever became of the files and the descriptors. */
  function Plus(st: State, s: Stream, files: seq<T.Spilled>, fds: map<nat, End>): State {
    st.(streams := st.streams + [s], files := files, fds := fds)
  }

  lemma LastActs(c: Config, st: State, s: Stream, files: seq<T.Spilled>, fds: map<nat, End>, a: Act)
    requires CanAct(c.platform, c.capacity, s, a, EnvOf(files, s))
    requires Closes(s, a).Some? ==>
               Closes(s, a).value.0 in fds && fds[Closes(s, a).value.0] == End(|st.streams|, Closes(s, a).value.1)
    ensures var x, step := Plus(st, s, files, fds), OfStream(|st.streams|, a);
            Enabled(c, x, step) &&
            Apply(c, x, step) == Plus(st, Next(c.platform, c.capacity, s, a, EnvOf(files, s)), FilesAfter(files, s, a),
                                      if Closes(s, a).Some? then fds - {Closes(s, a).value.0} else fds)
  {
    var t := Moved(c.platform, c.capacity, s, a, EnvOf(files, s));
    assert (st.streams + [s])[|st.streams| := t] == st.streams + [t];
    if Closes(s, a).Some? {
      var u := Cleared(t, Closes(s, a).value.1);
      assert (st.streams + [t])[|st.streams| := u] == st.streams + [u];
    }
  }

  function Acts(id: nat, acts: seq<Act>): seq<Step> {
    if acts == [] then [] else [OfStream(id, acts[0])] + Acts(id, acts[1..])
  }

  /** One act of the newest stream, and then the rest of a call. */
  lemma LastActsThen(c: Config, st: State, s: Stream, files: seq<T.Spilled>, fds: map<nat, End>, a: Act, rest: seq<Act>)
    requires CanAct(c.platform, c.capacity, s, a, EnvOf(files, s))
    requires Closes(s, a).Some? ==>
               Closes(s, a).value.0 in fds && fds[Closes(s, a).value.0] == End(|st.streams|, Closes(s, a).value.1)
    requires CanRun(c, Plus(st, Next(c.platform, c.capacity, s, a, EnvOf(files, s)), FilesAfter(files, s, a),
                            if Closes(s, a).Some? then fds - {Closes(s, a).value.0} else fds), Acts(|st.streams|, rest))
    ensures var x, run := Plus(st, s, files, fds), Acts(|st.streams|, [a] + rest);
            && CanRun(c, x, run)
            && After(c, x, run)
               == After(c, Plus(st, Next(c.platform, c.capacity, s, a, EnvOf(files, s)), FilesAfter(files, s, a),
                                if Closes(s, a).Some? then fds - {Closes(s, a).value.0} else fds),
                        Acts(|st.streams|, rest))
  {
    assert ([a] + rest)[1..] == rest;
    LastActs(c, st, s, files, fds, a);
    StepThenRun(c, Plus(st, s, files, fds), OfStream(|st.streams|, a), Acts(|st.streams|, rest));
  }

  /** A call on the newest stream: the pipe is made, the claim taken and the worker started, and then `acts`. */
  function CallSteps(st: State, entry: nat, r: nat, w: nat, acts: seq<Act>): seq<Step> {
    [Begin(entry, r, w)] + Acts(|st.streams|, [Claim] + ([Spawn] + acts))
  }

  /** The stream when the caller starts to wait for the handshake. */
  function Spawned(c: Config, st: State, entry: nat, r: nat, w: nat): Stream {
    Prospect(c, st, entry, r, w).(caller := Waiting, worker := Opening)
  }

  /** The files with the claim of a new stream on them, if it makes one. */
  function Claimed(st: State): seq<T.Spilled> {
    if IsSpilled(st.files, st.archive.claim) then
      st.files[st.archive.claim.value := T.Held(st.files[st.archive.claim.value])]
    else st.files
  }

  lemma SpawnRuns(c: Config, st: State, entry: nat, r: nat, w: nat, acts: seq<Act>)
    requires Enabled(c, st, Begin(entry, r, w))
    requires CanRun(c, Plus(st, Spawned(c, st, entry, r, w), Claimed(st), WithPipe(st, r, w)), Acts(|st.streams|, acts))
    ensures CanRun(c, st, CallSteps(st, entry, r, w, acts))
    ensures After(c, st, CallSteps(st, entry, r, w, acts))
            == After(c, Plus(st, Spawned(c, st, entry, r, w), Claimed(st), WithPipe(st, r, w)),
                     Acts(|st.streams|, acts))
  {
    var s0, fds := Prospect(c, st, entry, r, w), WithPipe(st, r, w);
    LastActsThen(c, st, s0.(caller := Streams.Claimed), Claimed(st), fds, Spawn, acts);
    LastActsThen(c, st, s0, st.files, fds, Claim, [Spawn] + acts);
    StepThenRun(c, st, Begin(entry, r, w), Acts(|st.streams|, [Claim] + ([Spawn] + acts)));
  }

  // ── an opening that succeeds ────────────────────────────────────────────

  const GRANT := [OpenOk] + ([RecvOk] + [])

  function Handed(s: Stream): Stream {
    s.(caller := Opened(Idle), message := SentOk, worker := Granted)
  }

  /** An `open(stream=True)` that succeeds: the worker opens the archive and grants the call. */
  lemma OpenRuns(c: Config, st: State, entry: nat, r: nat, w: nat)
    requires Enabled(c, st, Begin(entry, r, w))
    requires IsSpilled(st.files, PathOf(c, st.archive)) ==> st.files[PathOf(c, st.archive).value].onDisk
    ensures CanRun(c, st, CallSteps(st, entry, r, w, GRANT))
    ensures After(c, st, CallSteps(st, entry, r, w, GRANT))
            == Plus(st, Handed(Prospect(c, st, entry, r, w)), Claimed(st), WithPipe(st, r, w))
  {
    var files, fds, s2 := Claimed(st), WithPipe(st, r, w), Spawned(c, st, entry, r, w);
    var end := Plus(st, Handed(s2), files, fds);
    assert CanRun(c, end, []) && After(c, end, []) == end;
    LastActsThen(c, st, s2.(message := SentOk, worker := Granted), files, fds, RecvOk, []);
    LastActsThen(c, st, s2, files, fds, OpenOk, [RecvOk] + []);
    SpawnRuns(c, st, entry, r, w, GRANT);
  }

  // ── an opening that fails ───────────────────────────────────────────────

  /**
   * What a refused call closes and gives back. On POSIX the caller closes both
   * ends; on Windows it drops the read end and the worker drops the write end.
   */
  function Undo(p: Platform): seq<Act> {
    match p
    case Posix => [CloseRead] + ([CloseWrite] + ([GiveBack] + []))
    case Windows => [CloseRead] + ([GiveBack] + ([DropWrite] + []))
  }

  /** The refusal itself: the worker's error, or its death in the handshake. */
  function Refusal(p: Platform, why: Act): seq<Act> {
    [why] + ([RecvErr] + Undo(p))
  }

  /** The stream when the refusal has reached the caller. */
  function Turned(p: Platform, s: Stream, why: Act): Stream {
    s.(caller := Failing(p.Posix?), message := if why == OpenErr then SentErr else Silent,
       worker := if p.Posix? then Exited else Dropping)
  }

  function Undone(s: Stream): Stream {
    s.(caller := Done(false), worker := Exited, readOpen := false, writeOpen := false)
  }

  predicate HasPipe(st: State, s: Stream, fds: map<nat, End>) {
    && s.readOpen && s.writeOpen && s.readFd != s.writeFd
    && s.readFd in fds && fds[s.readFd] == End(|st.streams|, ReadSide)
    && s.writeFd in fds && fds[s.writeFd] == End(|st.streams|, WriteSide)
  }

  lemma PosixUndoes(c: Config, st: State, s: Stream, files: seq<T.Spilled>, fds: map<nat, End>)
    requires s.caller == Failing(true) && s.worker == Exited && HasPipe(st, s, fds)
    requires IsSpilled(files, s.claim) ==> !T.LastOut(files[s.claim.value])
    ensures var x, run := Plus(st, s, files, fds), Acts(|st.streams|, Undo(Posix));
            && CanRun(c, x, run)
            && After(c, x, run) == Plus(st, Undone(s), FilesAfter(files, s, GiveBack), fds - {s.readFd} - {s.writeFd})
  {
    var fds' := fds - {s.readFd};
    var end := Plus(st, Undone(s), FilesAfter(files, s, GiveBack), fds' - {s.writeFd});
    assert CanRun(c, end, []) && After(c, end, []) == end;
    var s2 := s.(caller := Releasing(false), readOpen := false, writeOpen := false);
    LastActsThen(c, st, s2, files, fds' - {s.writeFd}, GiveBack, []);
    LastActsThen(c, st, s.(caller := FailingWrite, readOpen := false), files, fds', CloseWrite, [GiveBack] + []);
    LastActsThen(c, st, s, files, fds, CloseRead, [CloseWrite] + ([GiveBack] + []));
  }

  lemma WindowsUndoes(c: Config, st: State, s: Stream, files: seq<T.Spilled>, fds: map<nat, End>)
    requires s.caller == Failing(false) && s.worker == Dropping && HasPipe(st, s, fds) && s.claim == None
    ensures var x, run := Plus(st, s, files, fds), Acts(|st.streams|, Undo(Windows));
            && CanRun(c, x, run)
            && After(c, x, run) == Plus(st, Undone(s), files, fds - {s.readFd} - {s.writeFd})
  {
    var fds' := fds - {s.readFd};
    var end := Plus(st, Undone(s), files, fds' - {s.writeFd});
    assert CanRun(c, end, []) && After(c, end, []) == end;
    LastActsThen(c, st, s.(caller := Done(false), readOpen := false), files, fds', DropWrite, []);
    LastActsThen(c, st, s.(caller := Releasing(false), readOpen := false), files, fds', GiveBack, [DropWrite] + []);
    LastActsThen(c, st, s, files, fds, CloseRead, [GiveBack] + ([DropWrite] + []));
  }

  lemma RefusalTurns(c: Config, st: State, s: Stream, files: seq<T.Spilled>, fds: map<nat, End>, why: Act)
    requires (why == OpenErr || why == Panic) && s.caller == Waiting && s.worker == Opening && s.message == Silent
    requires CanRun(c, Plus(st, Turned(c.platform, s, why), files, fds), Acts(|st.streams|, Undo(c.platform)))
    ensures var x, run := Plus(st, s, files, fds), Acts(|st.streams|, Refusal(c.platform, why));
            && CanRun(c, x, run)
            && After(c, x, run)
               == After(c, Plus(st, Turned(c.platform, s, why), files, fds), Acts(|st.streams|, Undo(c.platform)))
  {
    var s1 := Turned(c.platform, s, why).(caller := Waiting);
    LastActsThen(c, st, s1, files, fds, RecvErr, Undo(c.platform));
    LastActsThen(c, st, s, files, fds, why, [RecvErr] + Undo(c.platform));
  }

  function Failed(s: Stream, why: Act): Stream {
    Undone(s).(message := if why == OpenErr then SentErr else Silent)
  }

  /**
   * An `open(stream=True)` that fails, by a refusal or by a worker that dies in
   * the handshake: both ends are closed, the claim is given back, and files and
   * descriptors are exactly what they were.
   */
  lemma FailRuns(c: Config, st: State, entry: nat, r: nat, w: nat, why: Act)
    requires Enabled(c, st, Begin(entry, r, w)) && (why == OpenErr || why == Panic)
    requires IsSpilled(st.files, st.archive.claim) ==> st.files[st.archive.claim.value].holders > 0
    requires c.platform.Windows? ==> st.archive.claim == None
    ensures CanRun(c, st, CallSteps(st, entry, r, w, Refusal(c.platform, why)))
    ensures After(c, st, CallSteps(st, entry, r, w, Refusal(c.platform, why)))
            == Plus(st, Failed(Prospect(c, st, entry, r, w), why), st.files, st.fds)
  {
    var files, fds, s2 := Claimed(st), WithPipe(st, r, w), Spawned(c, st, entry, r, w);
    var s3 := Turned(c.platform, s2, why);
    assert fds - {r} - {w} == st.fds;
    assert FilesAfter(files, s2, GiveBack) == st.files;
    if c.platform.Posix? {
      PosixUndoes(c, st, s3, files, fds);
    } else {
      WindowsUndoes(c, st, s3, files, fds);
    }
    RefusalTurns(c, st, s2, files, fds, why);
    SpawnRuns(c, st, entry, r, w, Refusal(c.platform, why));
  }

  // ── closing a stream ────────────────────────────────────────────────────

  function CloseActs(st: State, id: nat): seq<Act>
    requires id < |st.streams|
  {
    var claim := st.streams[id].claim;
    if IsSpilled(st.files, claim) && T.LastOut(st.files[claim.value]) then
      [CloseRead] + ([GiveBack] + ([Unlink] + []))
    else [CloseRead] + ([GiveBack] + [])
  }

  function Shut(st: State, id: nat): State
    requires id < |st.streams|
  {
    var s := st.streams[id];
    st.(streams := st.streams[id := s.(caller := Done(true), readOpen := false)], fds := st.fds - {s.readFd},
        files := if IsSpilled(st.files, s.claim) then
                   st.files[s.claim.value := T.Released(st.files[s.claim.value])]
                 else st.files)
  }

  lemma ActThen(c: Config, st: State, id: nat, a: Act, rest: seq<Act>)
    requires Enabled(c, st, OfStream(id, a)) && CanRun(c, Apply(c, st, OfStream(id, a)), Acts(id, rest))
    ensures CanRun(c, st, Acts(id, [a] + rest))
    ensures After(c, st, Acts(id, [a] + rest)) == After(c, Apply(c, st, OfStream(id, a)), Acts(id, rest))
  {
    assert ([a] + rest)[1..] == rest;
    StepThenRun(c, st, OfStream(id, a), Acts(id, rest));
  }

  lemma CloseReadApplies(c: Config, st: State, id: nat)
    requires id < |st.streams| && st.streams[id].caller == Opened(Idle)
    requires st.streams[id].readFd in st.fds && st.fds[st.streams[id].readFd] == End(id, ReadSide)
    ensures Enabled(c, st, OfStream(id, CloseRead))
    ensures var s := st.streams[id];
            Apply(c, st, OfStream(id, CloseRead))
            == st.(streams := st.streams[id := s.(caller := Releasing(true), readOpen := false)],
                   fds := st.fds - {s.readFd})
  {}

  /** `close` of a stream nobody is reading: the read end is closed, then the claim released. */
  lemma CloseRuns(c: Config, st: State, id: nat)
    requires id < |st.streams| && st.streams[id].caller == Opened(Idle)
    requires st.streams[id].readFd in st.fds && st.fds[st.streams[id].readFd] == End(id, ReadSide)
    ensures CanRun(c, st, Acts(id, CloseActs(st, id))) && After(c, st, Acts(id, CloseActs(st, id))) == Shut(st, id)
  {
    var s := st.streams[id];
    CloseReadApplies(c, st, id);
    var st1 := Apply(c, st, OfStream(id, CloseRead));
    var st2 := Apply(c, st1, OfStream(id, GiveBack));
    assert CanRun(c, Shut(st, id), Acts(id, []));
    if IsSpilled(st.files, s.claim) && T.LastOut(st.files[s.claim.value]) {
      assert Apply(c, st2, OfStream(id, Unlink)) == Shut(st, id);
      ActThen(c, st2, id, Unlink, []);
      ActThen(c, st1, id, GiveBack, [Unlink] + []);
      ActThen(c, st, id, CloseRead, [GiveBack] + ([Unlink] + []));
    } else {
      assert st2 == Shut(st, id);
      ActThen(c, st1, id, GiveBack, []);
      ActThen(c, st, id, CloseRead, [GiveBack] + []);
    }
  }
}
