/** The streaming protocol never hangs, and its workers come to an end. */
module Liveness {
  import opened Streams
  import opened StreamProofs
  import opened StreamSystem
  import opened SystemProofs
  import opened Guarantees

  /** The user decides about these; everything else the machine does by itself. */
  predicate IsUserMove(s: Stream, a: Act) {
    a.Call? || a.Return? || (a == CloseRead && s.caller.Opened?)
  }

  function CallerRank(caller: Caller): nat {
    match caller
    case Piped => 8
    case Claimed => 7
    case Waiting => 6
    case Failing(_) => 5
    case FailingWrite => 4
    case Opened(_) => 4
    case Releasing(_) => 2
    case Deleting(_) => 1
    case Done(_) => 0
  }

  function WorkerRank(worker: Worker): nat {
    match worker
    case Unborn => 5
    case Opening => 4
    case Granted => 3
    case Decoding => 2
    case Dropping => 1
    case Exited => 0
  }

  /** Work left: phases to go, bytes to decode (each written, then fetched), bytes to fetch. */
  function Rank(s: Stream): nat
    requires s.emitted <= s.script.breakAt
  {
    CallerRank(s.caller) + WorkerRank(s.worker) + 2 * (s.script.breakAt - s.emitted) + |s.pipe|
  }

  /** The acts that take a stream down. */
  predicate TearsDown(a: Act) {
    a.CloseRead? || a.CloseWrite? || a.GiveBack? || a.Unlink?
  }

  lemma TearingDownWorks(p: Platform, cap: nat, s: Stream, a: Act, env: Env)
    requires CanAct(p, cap, s, a, env) && TearsDown(a)
    ensures var t := Next(p, cap, s, a, env);
            t.worker == s.worker && CallerRank(t.caller) < CallerRank(s.caller)
  {}

  lemma CallerWorks(p: Platform, cap: nat, s: Stream, a: Act, env: Env)
    requires CanAct(p, cap, s, a, env) && !MovesData(a) && !IsWorkers(a) && !TearsDown(a) && a != Spawn
    ensures var t := Next(p, cap, s, a, env);
            t.worker == s.worker &&
            if a.Call? then CallerRank(t.caller) == CallerRank(s.caller)
            else CallerRank(t.caller) < CallerRank(s.caller)
  {}

  lemma WorkerWorks(p: Platform, cap: nat, s: Stream, a: Act, env: Env)
    requires CanAct(p, cap, s, a, env) && IsWorkers(a)
    ensures var t := Next(p, cap, s, a, env);
            t.caller == s.caller && WorkerRank(t.worker) < WorkerRank(s.worker)
  {
    if a.OpenOk? || a.OpenErr? || a.Panic? {
      assert s.worker == Opening;
    } else if a.TakeFd? {
      assert s.worker == Granted;
    } else if a.DropWrite? {
      assert s.worker == Dropping;
    } else {
      assert s.worker == Decoding;
    }
  }

  lemma EveryActWorks(p: Platform, cap: nat, s: Stream, a: Act, env: Env)
    requires PhaseInv(p, s) && s.emitted <= s.script.breakAt && CanAct(p, cap, s, a, env)
    ensures var t := Next(p, cap, s, a, env);
            && t.emitted <= t.script.breakAt
            && if a.Call? || a.Return? then Rank(t) == Rank(s) else Rank(t) < Rank(s)
  {
    if !MovesData(a) {
      ControlKeepsData(p, cap, s, a, env);
      if IsWorkers(a) {
        WorkerWorks(p, cap, s, a, env);
      } else if TearsDown(a) {
        TearingDownWorks(p, cap, s, a, env);
      } else if a != Spawn {
        CallerWorks(p, cap, s, a, env);
      }
    }
  }

  predicate IsWork(step: Step, id: nat) {
    step.OfStream? && step.id == id && !step.act.Call? && !step.act.Return?
  }

  /** The steps of a run in which stream `id` or its worker gets on with its work. */
  ghost function WorkDone(run: seq<Step>, id: nat): nat {
    if run == [] then 0 else Bit(IsWork(run[0], id)) + WorkDone(run[1..], id)
  }

  const START := 13

  /** What a stream owes at most: its rank, or that of a stream not begun yet. */
  ghost function Owes(st: State, id: nat, breakAt: nat): int {
    if id >= |st.streams| then START + 2 * breakAt
    else if st.streams[id].emitted <= st.streams[id].script.breakAt then Rank(st.streams[id])
    else -1
  }

  lemma StepWorks(c: Config, st: State, step: Step, id: nat, breakAt: nat)
    requires Core(c, st) && Enabled(c, st, step)
    requires id < |Apply(c, st, step).streams| ==> Apply(c, st, step).streams[id].script.breakAt == breakAt
    ensures id < |st.streams| ==> id < |Apply(c, st, step).streams| && st.streams[id].script.breakAt == breakAt
    ensures Bit(IsWork(step, id)) + Owes(Apply(c, st, step), id, breakAt) <= Owes(st, id, breakAt)
  {
    if step.OfStream? {
      var s := st.streams[step.id];
      var env := EnvOf(st.files, s);
      assert StreamInv(c.platform, c.capacity, s);
      ActIsLocal(c, st, step.id, step.act);
      EveryActWorks(c.platform, c.capacity, s, step.act, env);
      NextKeepsIdentity(c.platform, c.capacity, s, step.act, env);
    }
  }

  lemma {:induction false} WorkPlusRank(c: Config, st: State, run: seq<Step>, id: nat, breakAt: nat)
    requires Core(c, st) && CanRun(c, st, run)
    requires id < |After(c, st, run).streams| && After(c, st, run).streams[id].script.breakAt == breakAt
    ensures id < |st.streams| ==> st.streams[id].script.breakAt == breakAt
    ensures WorkDone(run, id) + Owes(After(c, st, run), id, breakAt) <= Owes(st, id, breakAt)
    decreases |run|
  {
    if run != [] {
      StepKeepsCore(c, st, run[0]);
      WorkPlusRank(c, Apply(c, st, run[0]), run[1..], id, breakAt);
      StepWorks(c, st, run[0], id, breakAt);
    }
  }

  /**
   * However the threads are scheduled, opening a stream, decoding into it,
   * fetching from it and tearing it down take a bounded number of steps.
   */
  lemma WorkIsBounded(c: Config, run: seq<Step>, id: nat)
    requires IsRun(c, run) && id < |Final(c, run).streams|
    ensures WorkDone(run, id) <= START + 2 * Final(c, run).streams[id].script.breakAt
  {
    InitHolds(c);
    ReachableCore(c, run);
    assert StreamInv(c.platform, c.capacity, Final(c, run).streams[id]);
    WorkPlusRank(c, Init(c), run, id, Final(c, run).streams[id].script.breakAt);
  }

  /** The reads of nonzero size that did not see the end: the rounds of a reader's own loop. */
  ghost function Rounds(log: seq<Outcome>): nat {
    if log == [] then 0
    else Rounds(log[..|log| - 1]) + Bit(log[|log| - 1].want != 0 && !SawEnd(log[|log| - 1]))
  }

  lemma {:induction false} RoundsBringBytes(log: seq<Outcome>)
    ensures Rounds(log) <= |AllData(log)|
  {
    if log != [] {
      RoundsBringBytes(log[..|log| - 1]);
    }
  }

  /**
   * A user who reads until a read sees the end comes round at most once for
   * every byte the engine emits, in every run, whatever sizes are asked for and
   * however the pieces arrive.
   */
  lemma ReaderLoopIsBounded(c: Config, run: seq<Step>, id: nat)
    requires IsRun(c, run) && id < |Final(c, run).streams|
    ensures Rounds(Final(c, run).streams[id].log) <= Final(c, run).streams[id].script.breakAt
  {
    ReachableCore(c, run);
    var s := Final(c, run).streams[id];
    assert StreamInv(c.platform, c.capacity, s);
    RoundsBringBytes(s.log);
    assert |s.taken + s.ahead + s.pipe| == s.emitted;
  }

  /** The stream waits for its user: to read, to close, or to take a finished read. */
  ghost predicate UsersTurn(p: Platform, cap: nat, s: Stream, env: Env) {
    s.caller == Opened(Idle) || (exists m :: CanAct(p, cap, s, Return(m), env))
  }

  /** Of all acts, the one that is owed; an engine that can open the archive is let do so. */
  function Owed(cap: nat, s: Stream, env: Env): Act {
    match s.worker
    case Opening => if env.fileGone then OpenErr else OpenOk
    case Granted => TakeFd
    case Dropping => DropWrite
    case _ =>
      match s.caller
      case Piped => Claim
      case Claimed => Spawn
      case Waiting => if s.message == SentOk then RecvOk else RecvErr
      case Failing(_) => CloseRead
      case FailingWrite => CloseWrite
      case Releasing(_) => GiveBack
      case Deleting(_) => Unlink
      case Done(_) => BreakPipe
      case Opened(_) =>
        if s.worker == Decoding && s.emitted == s.script.breakAt then Finish
        else if s.worker == Decoding && |s.pipe| < cap then Write(1)
        else Fetch(1)
  }

  predicate ReadSatisfied(s: Stream)
    requires s.caller.Opened? && s.caller.reader.Reading?
  {
    AtEof(s) || (s.caller.reader.want >= 0 && |s.ahead| >= s.caller.reader.want)
  }

  lemma ReadCanReturn(p: Platform, cap: nat, s: Stream, env: Env)
    requires s.caller.Opened? && s.caller.reader.Reading? && ReadSatisfied(s)
    ensures exists m :: CanAct(p, cap, s, Return(m), env)
  {
    var want := s.caller.reader.want;
    var m := if want < 0 then |s.ahead| else Min(want, |s.ahead|);
    assert want < 0 || Min(want, |s.ahead|) >= 0;
    assert MayReturn(s, want, s.caller.reader.exact, m);
    assert CanAct(p, cap, s, Return(m), env);
  }

  lemma OpenedIsOwed(p: Platform, cap: nat, s: Stream, env: Env)
    requires PhaseInv(p, s) && OwnershipInv(p, s) && DataInv(cap, s) && cap > 0
    requires s.caller.Opened? && s.caller.reader.Reading? && !ReadSatisfied(s)
    ensures CanAct(p, cap, s, Owed(cap, s, env), env) && !IsUserMove(s, Owed(cap, s, env))
  {
    assert s.worker != Unborn && s.worker != Opening;
    if s.worker == Exited { assert !s.writeOpen; }
  }

  lemma OwedIsEnabled(p: Platform, cap: nat, s: Stream, env: Env)
    requires PhaseInv(p, s) && OwnershipInv(p, s) && DataInv(cap, s) && cap > 0
    requires !AtRest(s) && !UsersTurn(p, cap, s, env)
    ensures CanAct(p, cap, s, Owed(cap, s, env), env) && !IsUserMove(s, Owed(cap, s, env))
  {
    if s.caller.Opened? {
      if ReadSatisfied(s) {
        ReadCanReturn(p, cap, s, env);
      } else {
        OpenedIsOwed(p, cap, s, env);
      }
    }
  }

  /**
   * Deadlock freedom, in every reachable state: the stream is at rest, or it
   * is the user's turn, or one of its threads can take a step of its own. In
   * particular a caller in the handshake is never left waiting, and worker and
   * reader are never blocked on each other.
   */
  lemma NeverStuck(c: Config, run: seq<Step>, id: nat)
    requires IsRun(c, run) && c.capacity > 0 && id < |Final(c, run).streams|
    ensures var st := Final(c, run); var s := st.streams[id];
            || AtRest(s)
            || UsersTurn(c.platform, c.capacity, s, EnvOf(st.files, s))
            || (exists a :: Enabled(c, st, OfStream(id, a)) && !IsUserMove(s, a))
  {
    ReachableCore(c, run);
    var st := Final(c, run);
    var s, env := st.streams[id], EnvOf(st.files, st.streams[id]);
    assert StreamInv(c.platform, c.capacity, s);
    if !AtRest(s) && !UsersTurn(c.platform, c.capacity, s, env) {
      OwedIsEnabled(c.platform, c.capacity, s, env);
      assert Enabled(c, st, OfStream(id, Owed(c.capacity, s, env)));
    }
  }

  /** A closed stream whose threads have nothing left to do has a worker that is gone, and no pipe. */
  lemma ClosedStreamComesToRest(c: Config, run: seq<Step>, id: nat)
    requires IsRun(c, run) && c.capacity > 0 && id < |Final(c, run).streams|
    requires Final(c, run).streams[id].caller.Done?
    requires forall a :: Enabled(c, Final(c, run), OfStream(id, a)) ==> IsUserMove(Final(c, run).streams[id], a)
    ensures var s := Final(c, run).streams[id];
            (s.worker.Unborn? || s.worker.Exited?) && !s.readOpen && !s.writeOpen
  {
    NeverStuck(c, run, id);
    ReachableCore(c, run);
    assert StreamInv(c.platform, c.capacity, Final(c, run).streams[id]);
  }

  // ── and it can succeed ──────────────────────────────────────────────────

  /** Nothing has gone wrong with this stream so far, and nobody has given it up. */
  predicate Healthy(s: Stream) {
    || (Early(s.caller) && s.worker.Unborn?)
    || (s.caller == Waiting && (s.worker == Opening || s.message == SentOk))
    || s.caller.Opened?
  }

  lemma OwedKeepsHealth(p: Platform, cap: nat, s: Stream, env: Env)
    requires PhaseInv(p, s) && Healthy(s) && !env.fileGone
    requires CanAct(p, cap, s, Owed(cap, s, env), env) && !IsUserMove(s, Owed(cap, s, env))
    ensures var t := Next(p, cap, s, Owed(cap, s, env), env);
            Healthy(t) && t.log == s.log && (s.caller.Opened? ==> t.caller == s.caller)
            && (t.caller.Opened? ==> s.caller.Opened? || t.caller == Opened(Idle))
  {}

  /** `b` continues the healthy `a`: same entry, same reads behind it, same read in hand. */
  predicate Continues(a: Stream, b: Stream) {
    && b.entry == a.entry && b.password == a.password && b.script == a.script && b.expected == a.expected
    && b.file == a.file && b.claim == a.claim && b.readFd == a.readFd && b.log == a.log
    && (a.caller.Opened? ==> b.caller == a.caller)
    && (b.caller.Opened? ==> a.caller.Opened? || b.caller == Opened(Idle))
  }

  /** Nothing but the stream has moved; and nothing of its files, once it is open. */
  predicate Undisturbed(a: State, b: State, id: nat)
    requires id < |a.streams|
  {
    OnlyMoved(a, b, id) && (a.streams[id].caller.Opened? ==> b.files == a.files)
  }

  /** A healthy stream's file is there as soon as its caller holds a claim, and before that by the archive's. */
  lemma HealthyFileIsThere(c: Config, st: State, id: nat)
    requires Inv(c, st) && id < |st.streams| && Healthy(st.streams[id])
    ensures !EnvOf(st.files, st.streams[id]).fileGone
  {
    var s := st.streams[id];
    if s.caller == Piped {
      if s.file.Some? { assert FileInv(st, s.file.value) && Sheltered(st, s.file.value); }
    } else {
      ClaimedFileIsThere(c, st, id);
    }
  }

  /** One owed step of a healthy stream: it stays healthy, and less is left to do. */
  lemma OwedStep(c: Config, st: State, id: nat) returns (step: Step)
    requires Ordered(c) && c.capacity > 0 && Inv(c, st) && id < |st.streams| && Healthy(st.streams[id])
    requires st.streams[id].emitted <= st.streams[id].script.breakAt
    requires !UsersTurn(c.platform, c.capacity, st.streams[id], EnvOf(st.files, st.streams[id]))
    ensures Enabled(c, st, step) && IsWork(step, id) && Inv(c, Apply(c, st, step)) && id < |Apply(c, st, step).streams|
    ensures var t := Apply(c, st, step).streams[id];
            && Healthy(t) && Continues(st.streams[id], t) && Undisturbed(st, Apply(c, st, step), id)
            && t.emitted <= t.script.breakAt && Rank(t) < Rank(st.streams[id])
  {
    var s, env := st.streams[id], EnvOf(st.files, st.streams[id]);
    var a := Owed(c.capacity, s, env);
    step := OfStream(id, a);
    assert StreamInv(c.platform, c.capacity, s);
    HealthyFileIsThere(c, st, id);
    OwedIsEnabled(c.platform, c.capacity, s, env);
    ActIsLocal(c, st, id, a);
    StepKeepsInv(c, st, step);
    EveryActWorks(c.platform, c.capacity, s, a, env);
    OwedKeepsHealth(c.platform, c.capacity, s, env);
    NextKeepsIdentity(c.platform, c.capacity, s, a, env);
  }

  /** After `more`, all of it the stream's own work, its user has the stream, or a read that may return. */
  ghost predicate ReachesUser(c: Config, st: State, id: nat, more: seq<Step>)
    requires id < |st.streams|
  {
    && CanRun(c, st, more) && WorkDone(more, id) == |more|
    && var e := After(c, st, more);
    && id < |e.streams| && Inv(c, e) && Continues(st.streams[id], e.streams[id]) && e.streams[id].caller.Opened?
    && Undisturbed(st, e, id)
    && UsersTurn(c.platform, c.capacity, e.streams[id], EnvOf(e.files, e.streams[id]))
  }

  lemma ReachesUserAfterStep(c: Config, st: State, id: nat, step: Step, rest: seq<Step>)
    requires id < |st.streams| && IsWork(step, id) && Enabled(c, st, step)
    requires var st' := Apply(c, st, step);
             && id < |st'.streams| && Continues(st.streams[id], st'.streams[id]) && Undisturbed(st, st', id)
             && ReachesUser(c, st', id, rest)
    ensures ReachesUser(c, st, id, [step] + rest)
  {
    StepThenRun(c, st, step, rest);
    assert ([step] + rest)[1..] == rest;
  }

  /** Left alone, a healthy stream gets to the point where its user has it, by its own steps. */
  lemma {:induction false} HealthyStreamReachesItsUser(c: Config, st: State, id: nat) returns (more: seq<Step>)
    requires Ordered(c) && c.capacity > 0 && Inv(c, st) && id < |st.streams| && Healthy(st.streams[id])
    requires st.streams[id].emitted <= st.streams[id].script.breakAt
    ensures ReachesUser(c, st, id, more)
    decreases Rank(st.streams[id])
  {
    if UsersTurn(c.platform, c.capacity, st.streams[id], EnvOf(st.files, st.streams[id])) {
      more := [];
    } else {
      var step := OwedStep(c, st, id);
      var rest := HealthyStreamReachesItsUser(c, Apply(c, st, step), id);
      ReachesUserAfterStep(c, st, id, step, rest);
      more := [step] + rest;
    }
  }

  lemma AskingOpensARead(c: Config, st: State, id: nat, want: int, step: Step)
    requires Ordered(c) && Inv(c, st) && id < |st.streams| && st.streams[id].caller == Opened(Idle)
    requires step == OfStream(id, Call(want, true))
    ensures Enabled(c, st, step) && Inv(c, Apply(c, st, step)) && id < |Apply(c, st, step).streams|
    ensures Apply(c, st, step).streams[id] == st.streams[id].(caller := Opened(Reading(want, true)))
    ensures Undisturbed(st, Apply(c, st, step), id)
  {
    ActIsLocal(c, st, id, step.act);
    StepKeepsInv(c, st, step);
  }

  lemma AnsweringEndsIt(c: Config, st: State, id: nat, m: nat)
    requires Inv(c, st) && id < |st.streams| && st.streams[id].caller == Opened(Reading(-1, true))
    requires Enabled(c, st, OfStream(id, Return(m)))
    ensures var s, st' := st.streams[id], Apply(c, st, OfStream(id, Return(m)));
            && id < |st'.streams| && st'.streams[id].caller == Opened(Idle) && |st'.streams[id].log| > 0
            && SawEnd(st'.streams[id].log[|st'.streams[id].log| - 1])
            && st'.streams[id].entry == s.entry && st'.streams[id].password == s.password
            && st'.streams[id].file == s.file && st'.streams[id].script == s.script
  {
    ActIsLocal(c, st, id, Return(m));
  }

  /** `more` ends with a read that saw the end of the data. */
  ghost predicate Drains(c: Config, st: State, id: nat, more: seq<Step>)
    requires id < |st.streams|
  {
    && CanRun(c, st, more)
    && var e := After(c, st, more);
    && id < |e.streams|
    && e.streams[id].entry == st.streams[id].entry && e.streams[id].password == st.streams[id].password
    && e.streams[id].file == st.streams[id].file && e.streams[id].script == st.streams[id].script
    && |e.streams[id].log| > 0 && SawEnd(e.streams[id].log[|e.streams[id].log| - 1])
  }

  lemma ReadAllAnswers(c: Config, st: State, id: nat, wait: seq<Step>) returns (more: seq<Step>)
    requires id < |st.streams| && st.streams[id].caller == Opened(Reading(-1, true)) && ReachesUser(c, st, id, wait)
    ensures Drains(c, st, id, more)
  {
    var ready := After(c, st, wait);
    assert ready.streams[id].caller == Opened(Reading(-1, true));
    var m :| CanAct(c.platform, c.capacity, ready.streams[id], Return(m), EnvOf(ready.files, ready.streams[id]));
    AnsweringEndsIt(c, ready, id, m);
    RunThenStep(c, st, wait, OfStream(id, Return(m)));
    more := wait + [OfStream(id, Return(m))];
  }

  /** The user asks for everything, and the stream by itself gets to answer. */
  lemma AskForAll(c: Config, st: State, id: nat) returns (more: seq<Step>)
    requires Ordered(c) && c.capacity > 0 && Inv(c, st) && id < |st.streams| && st.streams[id].caller == Opened(Idle)
    requires st.streams[id].emitted <= st.streams[id].script.breakAt
    ensures Drains(c, st, id, more)
  {
    var call := OfStream(id, Call(-1, true));
    AskingOpensARead(c, st, id, -1, call);
    var wait := HealthyStreamReachesItsUser(c, Apply(c, st, call), id);
    var rest := ReadAllAnswers(c, Apply(c, st, call), id, wait);
    StepThenRun(c, st, call, rest);
    more := [call] + rest;
  }

  /**
   * From any reachable state, whatever the archive and the other streams have
   * done, a stream that nobody has given up and nothing has failed goes on, by
   * its own steps and one `read()`, to the end of its data, good or bad.
   */
  lemma EveryHealthyStreamCanBeDrained(c: Config, run: seq<Step>, id: nat) returns (more: seq<Step>)
    requires IsRun(c, run) && Ordered(c) && c.capacity > 0 && id < |Final(c, run).streams|
    requires var s := Final(c, run).streams[id]; Healthy(s) && (s.caller.Opened? ==> s.caller == Opened(Idle))
    ensures IsRun(c, run + more) && id < |Final(c, run + more).streams|
    ensures var s, e := Final(c, run).streams[id], Final(c, run + more).streams[id];
            && e.entry == s.entry && e.password == s.password && e.script == s.script && e.file == s.file
            && HasEnded(e)
  {
    ReachableInv(c, run);
    var st := Final(c, run);
    assert StreamInv(c.platform, c.capacity, st.streams[id]);
    var open := HealthyStreamReachesItsUser(c, st, id);
    assert StreamInv(c.platform, c.capacity, After(c, st, open).streams[id]);
    var drain := AskForAll(c, After(c, st, open), id);
    RunsCompose(c, st, open, drain);
    more := open + drain;
    RunsCompose(c, Init(c), run, more);
    var e := Final(c, run + more).streams[id];
    assert e.log[|e.log| - 1] in e.log;
  }

  /** And the promise can be kept: if the entry is decodable, what it hands over is exactly the entry. */
  lemma EveryHealthyStreamCanBeReadWhole(c: Config, run: seq<Step>, id: nat) returns (more: seq<Step>)
    requires IsRun(c, run) && Ordered(c) && c.capacity > 0 && id < |Final(c, run).streams|
    requires var s := Final(c, run).streams[id];
             && Healthy(s) && (s.caller.Opened? ==> s.caller == Opened(Idle)) && ReadsTheSource(c, s)
             && Intended(c, s).breakAt == |Intended(c, s).content| == Intended(c, s).size
    ensures IsRun(c, run + more) && id < |Final(c, run + more).streams|
    ensures Returned(Final(c, run + more).streams[id].log) == Intended(c, Final(c, run).streams[id]).content
  {
    more := EveryHealthyStreamCanBeDrained(c, run, id);
    StreamedEntryIsExact(c, run + more, id);
  }
}
