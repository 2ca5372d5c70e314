/**
 * What the streaming protocol promises, for every run of the whole system; what
 * needs the discipline says so with `Ordered`.
 */
module Guarantees {
  import opened Base
  import opened Streams
  import opened StreamProofs
  import opened StreamSystem
  import opened SystemProofs

  /** The runs of the system: any interleaving, from the start. */
  ghost predicate IsRun(c: Config, run: seq<Step>) {
    CanRun(c, Init(c), run)
  }

  ghost function Final(c: Config, run: seq<Step>): State
    requires IsRun(c, run)
  {
    After(c, Init(c), run)
  }

  lemma ReachableCore(c: Config, run: seq<Step>)
    requires IsRun(c, run)
    ensures Core(c, Final(c, run))
  {
    InitHolds(c);
    RunKeepsCore(c, Init(c), run);
  }

  lemma ReachableInv(c: Config, run: seq<Step>)
    requires IsRun(c, run) && Ordered(c)
    ensures Inv(c, Final(c, run))
  {
    InitHolds(c);
    RunKeepsInv(c, Init(c), run);
  }

  // ── temporary files ─────────────────────────────────────────────────────

  /** `_holders` is the archive's claim plus the streams open or being opened, in every reachable state. */
  lemma ClaimsAreConserved(c: Config, run: seq<Step>, f: nat)
    requires IsRun(c, run) && f < |Final(c, run).files|
    ensures var st := Final(c, run);
            st.files[f].holders == Ours(st.archive.claim, f) + |Claimants(st.streams, f)|
  {
    ReachableCore(c, run);
    assert FileInv(Final(c, run), f);
  }

  /**
   * While a stream is between `hold` and `release`, its file is on disk, and
   * the worker that reopens it by path for a reader finds it.
   */
  lemma FileOutlivesItsStreams(c: Config, run: seq<Step>, id: nat)
    requires IsRun(c, run) && Ordered(c) && id < |Final(c, run).streams|
    ensures var st := Final(c, run); var s := st.streams[id];
            && (HasClaim(s) && s.file.Some? ==> s.file.value < |st.files| && st.files[s.file.value].onDisk)
            && (s.readOpen ==> !Enabled(c, st, OfStream(id, LoseFile)))
            && !s.cut
  {
    ReachableInv(c, run);
    var s := Final(c, run).streams[id];
    assert StreamInv(c.platform, c.capacity, s);
    DecodingIsClaimed(c.platform, s);
    if HasClaim(s) {
      ClaimedFileIsThere(c, Final(c, run), id);
    }
  }

  /** With the archive and all its streams closed, every file ever spilled was deleted, once. */
  lemma NothingLeaks(c: Config, run: seq<Step>, f: nat)
    requires IsRun(c, run) && f < |Final(c, run).files|
    requires var st := Final(c, run);
             && st.archive.claim == None && st.archive.deleting == None
             && forall i :: 0 <= i < |st.streams| ==> st.streams[i].caller.Done?
    ensures !Final(c, run).files[f].onDisk && Final(c, run).files[f].unlinks == 1
  {
    ReachableCore(c, run);
    var st := Final(c, run);
    assert FileInv(st, f);
    assert Claimants(st.streams, f) == {} && Deleters(st.streams, f) == {};
  }

  // ── descriptors ─────────────────────────────────────────────────────────

  /**
   * No thread ever writes to, reads from or closes a number that is not its
   * own pipe end, although closed numbers are handed out again; and no end has
   * two owners.
   */
  lemma DescriptorsAreLinear(c: Config, run: seq<Step>, id: nat, a: Act)
    requires IsRun(c, run) && Enabled(c, Final(c, run), OfStream(id, a))
    ensures var st := Final(c, run); var s := st.streams[id]; var u := Uses(s, a);
            && (u.Some? ==> u.value.0 in st.fds && st.fds[u.value.0] == End(id, u.value.1))
            && (s.readOpen <==> CallerHasRead(s))
            && (s.writeOpen <==> CallerHasWrite(c.platform, s) != WorkerHasWrite(c.platform, s))
            && !(CallerHasWrite(c.platform, s) && WorkerHasWrite(c.platform, s))
  {
    ReachableCore(c, run);
    DescriptorsAreOurs(c, Final(c, run), id, a);
    assert StreamInv(c.platform, c.capacity, Final(c, run).streams[id]);
  }

  ghost predicate ClosesEnd(st: State, step: Step, id: nat, side: Side) {
    && step.OfStream? && step.id == id && id < |st.streams|
    && Closes(st.streams[id], step.act).Some? && Closes(st.streams[id], step.act).value.1 == side
  }

  /** How many times one end of one stream's pipe is closed during a run. */
  ghost function TimesClosed(c: Config, st: State, run: seq<Step>, id: nat, side: Side): nat
    requires CanRun(c, st, run)
    decreases |run|
  {
    if run == [] then 0
    else Bit(ClosesEnd(st, run[0], id, side)) + TimesClosed(c, Apply(c, st, run[0]), run[1..], id, side)
  }

  ghost predicate HasOpen(st: State, id: nat, side: Side) {
    id < |st.streams| && IsOpen(st.streams[id], side)
  }

  lemma StepClosesOnce(c: Config, st: State, step: Step, id: nat, side: Side)
    requires Core(c, st) && Enabled(c, st, step)
    ensures var st' := Apply(c, st, step);
            && |st.streams| <= |st'.streams|
            && (id < |st.streams| ==>
                  Bit(HasOpen(st', id, side)) + Bit(ClosesEnd(st, step, id, side)) == Bit(HasOpen(st, id, side)))
            && (id >= |st.streams| ==>
                  !ClosesEnd(st, step, id, side) && (id < |st'.streams| ==> HasOpen(st', id, side)))
  {
    if step.OfStream? {
      ActIsLocal(c, st, step.id, step.act);
      var s := st.streams[step.id];
      NextClosesOneEnd(c.platform, c.capacity, s, step.act, EnvOf(st.files, s), side);
      assert StreamInv(c.platform, c.capacity, s);
    }
  }

  lemma {:induction false} ClosesBalance(c: Config, st: State, run: seq<Step>, id: nat, side: Side)
    requires Core(c, st) && CanRun(c, st, run)
    ensures var e := After(c, st, run);
            && |st.streams| <= |e.streams|
            && TimesClosed(c, st, run, id, side)
               == if id < |st.streams| then Bit(HasOpen(st, id, side)) - Bit(HasOpen(e, id, side))
                  else Bit(id < |e.streams|) - Bit(HasOpen(e, id, side))
    decreases |run|
  {
    if run != [] {
      StepClosesOnce(c, st, run[0], id, side);
      StepKeepsCore(c, st, run[0]);
      ClosesBalance(c, Apply(c, st, run[0]), run[1..], id, side);
    }
  }

  predicate AtRest(s: Stream) {
    s.caller.Done? && (s.worker.Unborn? || s.worker.Exited?)
  }

  lemma RestHasNoPipe(p: Platform, cap: nat, s: Stream)
    requires PhaseInv(p, s) && OwnershipInv(p, s) && AtRest(s)
    ensures !s.readOpen && !s.writeOpen
  {}

  /** Each pipe end is closed at most once in any run, and exactly once in one that finishes the stream. */
  lemma EachEndIsClosedExactlyOnce(c: Config, run: seq<Step>, id: nat, side: Side)
    requires IsRun(c, run) && id < |Final(c, run).streams|
    ensures var s, n := Final(c, run).streams[id], TimesClosed(c, Init(c), run, id, side);
            && n == (if IsOpen(s, side) then 0 else 1)
            && (AtRest(s) ==> n == 1)
  {
    InitHolds(c);
    ClosesBalance(c, Init(c), run, id, side);
    if AtRest(Final(c, run).streams[id]) {
      ReachableCore(c, run);
      RestHasNoPipe(c.platform, c.capacity, Final(c, run).streams[id]);
    }
  }

  // ── one atomic open ─────────────────────────────────────────────────────

  /** The operation both platforms implement, and what is left to happen to its pipe. */
  datatype Atomic = InProgress | Live(read: bool, write: bool) | Nothing

  function AtomicOf(s: Stream): Atomic {
    if s.message == SentOk then Live(s.readOpen, s.writeOpen)
    else if s.readOpen || s.writeOpen then InProgress
    else Nothing
  }

  predicate AtomicStep(x: Atomic, y: Atomic) {
    || (x == InProgress && (y == Live(true, true) || y == Nothing))
    || (x.Live? && x.read && y == Live(false, x.write))
    || (x.Live? && x.write && y == Live(x.read, false))
  }

  lemma NextIsAtomic(p: Platform, cap: nat, s: Stream, a: Act, env: Env)
    requires PhaseInv(p, s) && OwnershipInv(p, s) && CanAct(p, cap, s, a, env)
    ensures var x, y := AtomicOf(s), AtomicOf(Next(p, cap, s, a, env));
            x == y || AtomicStep(x, y)
  {}

  /**
   * POSIX and Windows refine the same atomic open: it begins with both ends
   * and no outcome, succeeds with both ends open or fails with neither, and
   * after that the ends are only dropped, whatever step of whichever thread,
   * of the archive or of another stream the system takes.
   */
  lemma OpenIsAtomic(c: Config, run: seq<Step>, id: nat, step: Step)
    requires IsRun(c, run) && Enabled(c, Final(c, run), step)
    ensures var st, st' := Final(c, run), Apply(c, Final(c, run), step);
            if id < |st.streams| then
              var x, y := AtomicOf(st.streams[id]), AtomicOf(st'.streams[id]);
              x == y || AtomicStep(x, y)
            else id < |st'.streams| ==> AtomicOf(st'.streams[id]) == InProgress
  {
    ReachableCore(c, run);
    var st := Final(c, run);
    if step.OfStream? {
      assert StreamInv(c.platform, c.capacity, st.streams[step.id]);
      ActIsLocal(c, st, step.id, step.act);
      NextIsAtomic(c.platform, c.capacity, st.streams[step.id], step.act, EnvOf(st.files, st.streams[step.id]));
    }
  }

  /**
   * What each outcome of the call leaves: a stream that was handed out has its
   * read end with the caller and its write end with the worker alone; a failed
   * call leaves nobody with anything, except that on Windows the worker may
   * still be about to drop the write end, which it can only close.
   */
  lemma OutcomeDecidesOwnership(c: Config, run: seq<Step>, id: nat)
    requires IsRun(c, run) && id < |Final(c, run).streams|
    ensures var s := Final(c, run).streams[id];
            && (s.caller.Opened? ==>
                  s.readOpen && !CallerHasWrite(c.platform, s) && (s.writeOpen <==> WorkerHasWrite(c.platform, s)))
            && (s.caller == Done(false) ==>
                  !s.readOpen && (s.writeOpen ==> c.platform == Windows && s.worker == Dropping) && s.emitted == 0)
  {
    ReachableCore(c, run);
    assert StreamInv(c.platform, c.capacity, Final(c, run).streams[id]);
  }

  // ── the bytes ───────────────────────────────────────────────────────────

  /** In every run, whatever the chunks, what the user got is a prefix of the entry, in order. */
  lemma UserGetsAPrefix(c: Config, run: seq<Step>, id: nat)
    requires IsRun(c, run) && id < |Final(c, run).streams|
    ensures var s := Final(c, run).streams[id];
            Returned(s.log) <= s.taken <= s.script.content[..s.script.breakAt]
  {
    ReachableCore(c, run);
    var s := Final(c, run).streams[id];
    assert StreamInv(c.platform, c.capacity, s);
    assert s.taken + (s.ahead + s.pipe) == s.script.content[..s.emitted];
  }

  /**
   * The truncation check, exactly. A read of nonzero size raises if and only
   * if it reaches the end of data that stops below the listed size; a read of
   * size 0 raises as long as less than the listed size was read. Under the
   * discipline the data stops where the engine breaks off, and nowhere else.
   */
  lemma VerdictIsExact(c: Config, run: seq<Step>, id: nat, o: Outcome)
    requires IsRun(c, run) && id < |Final(c, run).streams| && o in Final(c, run).streams[id].log
    ensures var s := Final(c, run).streams[id];
            && (o.want != 0 ==> (o.corrupt <==> SawEnd(o) && StopsAt(s) < s.script.size))
            && (o.want != 0 ==> (SawEnd(o) <==> o.want < 0 || o.data == []))
            && (o.want == 0 ==> (o.corrupt <==> o.total < s.script.size))
            && (SawEnd(o) ==> o.total == StopsAt(s))
            && (Ordered(c) ==> StopsAt(s) == s.script.breakAt)
  {
    ReachableCore(c, run);
    assert StreamInv(c.platform, c.capacity, Final(c, run).streams[id]);
    if Ordered(c) {
      ReachableInv(c, run);
    }
  }

  lemma {:induction false} NothingWithheld(log: seq<Outcome>)
    requires forall o :: o in log && o.corrupt ==> o.data == []
    ensures Returned(log) == AllData(log)
  {
    if log != [] {
      assert forall o :: o in log[..|log| - 1] ==> o in log;
      NothingWithheld(log[..|log| - 1]);
    }
  }

  /** What the engine makes of an entry of the source itself. */
  function Intended(c: Config, s: Stream): Decoded {
    c.decode(c.source.data, s.password, s.entry)
  }

  /** The stream's backing file is the source's own bytes. */
  predicate ReadsTheSource(c: Config, s: Stream) {
    c.source.FileObject? ==> s.file == Some(0)
  }

  lemma ScriptIsIntended(c: Config, run: seq<Step>, id: nat)
    requires IsRun(c, run) && id < |Final(c, run).streams| && ReadsTheSource(c, Final(c, run).streams[id])
    ensures Final(c, run).streams[id].script == Intended(c, Final(c, run).streams[id])
  {
    ReachableCore(c, run);
    var st := Final(c, run);
    var s := st.streams[id];
    assert s.script == c.decode(BackingData(c, st, s.file), s.password, s.entry);
    if s.file.Some? { assert s.file.value < |st.files|; }
  }

  /**
   * End to end. If the engine decodes the entry whole and lists its size
   * right, then wherever `close()`, password changes, failed opens and other
   * streams fall, no read of nonzero size reports corruption, and a stream
   * read to its end has given exactly the entry.
   */
  lemma StreamedEntryIsExact(c: Config, run: seq<Step>, id: nat)
    requires IsRun(c, run) && Ordered(c) && id < |Final(c, run).streams|
    requires var s := Final(c, run).streams[id];
             ReadsTheSource(c, s) && Intended(c, s).breakAt == |Intended(c, s).content| == Intended(c, s).size
    ensures var s := Final(c, run).streams[id];
            && (forall o :: o in s.log && o.want != 0 ==> !o.corrupt)
            && (HasEnded(s) ==> Returned(s.log) == Intended(c, s).content)
  {
    ReachableCore(c, run);
    ScriptIsIntended(c, run, id);
    var s := Final(c, run).streams[id];
    assert StreamInv(c.platform, c.capacity, s);
    forall o | o in s.log ensures o.want != 0 ==> !o.corrupt {
      VerdictIsExact(c, run, id, o);
    }
    NothingWithheld(s.log);
    if o :| o in s.log && SawEnd(o) {
      assert s.taken + s.ahead + s.pipe == s.taken;
    }
  }

  /** A read of size 0 on a healthy, unfinished stream reports corruption, and the stream stays healthy. */
  lemma ZeroSizedReadIsMistaken(p: Platform, cap: nat, s: Stream, env: Env)
    requires s.caller == Opened(Idle) && s.expected == Some(s.script.size)
    ensures CanAct(p, cap, s, Call(0, true), env)
    ensures var called := Next(p, cap, s, Call(0, true), env);
            CanAct(p, cap, called, Return(0), env) &&
            var t := Next(p, cap, called, Return(0), env);
            && t.caller == s.caller && t.taken == s.taken && t.ahead == s.ahead && |t.log| == |s.log| + 1
            && (t.log[|s.log|].corrupt <==> |s.taken| < s.script.size)
  {
    assert s.ahead[..0] == [] && s.ahead[0..] == s.ahead;
  }

  // ── memory ──────────────────────────────────────────────────────────────

  /** Every read so far, and the one under way, asked for at most `w` bytes. */
  ghost predicate Modest(s: Stream, w: nat) {
    && (forall o :: o in s.log ==> 0 <= o.want <= w)
    && (s.caller.Opened? && s.caller.reader.Reading? ==> 0 <= s.caller.reader.want <= w)
  }

  ghost predicate IsFlat(cap: nat, s: Stream, w: nat) {
    Modest(s, w) ==> |s.ahead| <= w + cap
  }

  lemma ReturnStaysFlat(p: Platform, cap: nat, s: Stream, m: nat, env: Env, w: nat)
    requires CanAct(p, cap, s, Return(m), env) && IsFlat(cap, s, w)
    ensures IsFlat(cap, Next(p, cap, s, Return(m), env), w)
  {
    var t := Next(p, cap, s, Return(m), env);
    assert forall o :: o in s.log ==> o in t.log;
    assert t.log[|s.log|] in t.log && t.log[|s.log|].want == s.caller.reader.want;
  }

  lemma FetchStaysFlat(p: Platform, cap: nat, s: Stream, k: nat, env: Env, w: nat)
    requires |s.pipe| <= cap && CanAct(p, cap, s, Fetch(k), env) && IsFlat(cap, s, w)
    ensures IsFlat(cap, Next(p, cap, s, Fetch(k), env), w)
  {}

  /** No other act touches the reader's buffer or its log; the only new read there can be is a call. */
  lemma OthersStayFlat(p: Platform, cap: nat, s: Stream, a: Act, env: Env, w: nat)
    requires CanAct(p, cap, s, a, env) && !a.Return? && !a.Fetch? && IsFlat(cap, s, w)
    ensures IsFlat(cap, Next(p, cap, s, a, env), w)
  {
    BufferOnlyByFetch(p, cap, s, a, env);
  }

  lemma BufferOnlyByFetch(p: Platform, cap: nat, s: Stream, a: Act, env: Env)
    requires CanAct(p, cap, s, a, env) && !a.Return? && !a.Fetch?
    ensures var t := Next(p, cap, s, a, env);
            && t.ahead == s.ahead && t.log == s.log
            && (s.caller.Opened? && s.caller.reader.Reading? ==> t.caller == s.caller)
  {
    if !a.Write? {
      ControlKeepsData(p, cap, s, a, env);
    }
  }

  lemma NextStaysFlat(p: Platform, cap: nat, s: Stream, a: Act, env: Env, w: nat)
    requires DataInv(cap, s) && CanAct(p, cap, s, a, env) && IsFlat(cap, s, w)
    ensures IsFlat(cap, Next(p, cap, s, a, env), w)
  {
    match a
    case Return(m) => ReturnStaysFlat(p, cap, s, m, env, w);
    case Fetch(k) => FetchStaysFlat(p, cap, s, k, env, w);
    case _ => OthersStayFlat(p, cap, s, a, env, w);
  }

  lemma StepStaysFlat(c: Config, st: State, step: Step, id: nat, w: nat)
    requires Core(c, st) && Enabled(c, st, step)
    requires id < |st.streams| ==> IsFlat(c.capacity, st.streams[id], w)
    ensures var st' := Apply(c, st, step); id < |st'.streams| ==> IsFlat(c.capacity, st'.streams[id], w)
  {
    if step.OfStream? {
      var s := st.streams[step.id];
      assert StreamInv(c.platform, c.capacity, s);
      ActIsLocal(c, st, step.id, step.act);
      if step.id == id {
        NextStaysFlat(c.platform, c.capacity, s, step.act, EnvOf(st.files, s), w);
      }
    }
  }

  lemma {:induction false} RunStaysFlat(c: Config, st: State, run: seq<Step>, id: nat, w: nat)
    requires Core(c, st) && CanRun(c, st, run)
    requires id < |st.streams| ==> IsFlat(c.capacity, st.streams[id], w)
    ensures id < |After(c, st, run).streams| ==> IsFlat(c.capacity, After(c, st, run).streams[id], w)
    decreases |run|
  {
    if run != [] {
      StepKeepsCore(c, st, run[0]);
      StepStaysFlat(c, st, run[0], id, w);
      RunStaysFlat(c, Apply(c, st, run[0]), run[1..], id, w);
    }
  }

  /**
   * However large the entry and however fast the worker: what is decoded and
   * not yet handed over never exceeds the largest read plus two pipes' worth.
   */
  lemma MemoryStaysFlat(c: Config, run: seq<Step>, id: nat, w: nat)
    requires IsRun(c, run) && id < |Final(c, run).streams| && Modest(Final(c, run).streams[id], w)
    ensures var s := Final(c, run).streams[id];
            s.emitted - |s.taken| <= w + 2 * c.capacity
  {
    InitHolds(c);
    RunStaysFlat(c, Init(c), run, id, w);
    ReachableCore(c, run);
    var s := Final(c, run).streams[id];
    assert StreamInv(c.platform, c.capacity, s);
    assert |s.taken + s.ahead + s.pipe| == s.emitted;
  }
}
