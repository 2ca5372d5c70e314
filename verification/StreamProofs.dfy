/** Every act of a stream keeps the stream's invariants. */
module StreamProofs {
  import opened Base
  import opened Streams

  predicate MovesData(a: Act) {
    a.Write? || a.Fetch? || a.Return?
  }

  /** The worker's control acts; every other control act is the caller's or the user's. */
  predicate IsWorkers(a: Act) {
    a.OpenOk? || a.OpenErr? || a.Panic? || a.TakeFd? || a.Finish? || a.BreakPipe? || a.LoseFile? || a.DropWrite?
  }

  lemma WorkerKeepsPhases(p: Platform, cap: nat, s: Stream, a: Act, env: Env)
    requires PhaseInv(p, s) && OwnershipInv(p, s) && CanAct(p, cap, s, a, env) && IsWorkers(a)
    ensures PhaseInv(p, Next(p, cap, s, a, env)) && OwnershipInv(p, Next(p, cap, s, a, env))
  {}

  lemma CallerKeepsPhases(p: Platform, cap: nat, s: Stream, a: Act, env: Env)
    requires PhaseInv(p, s) && OwnershipInv(p, s) && CanAct(p, cap, s, a, env) && !IsWorkers(a) && !MovesData(a)
    ensures PhaseInv(p, Next(p, cap, s, a, env))
  {}

  lemma CallerKeepsOwnership(p: Platform, cap: nat, s: Stream, a: Act, env: Env)
    requires PhaseInv(p, s) && OwnershipInv(p, s) && CanAct(p, cap, s, a, env) && !IsWorkers(a) && !MovesData(a)
    ensures OwnershipInv(p, Next(p, cap, s, a, env))
  {}

  lemma DataKeepsPhases(p: Platform, cap: nat, s: Stream, a: Act, env: Env)
    requires PhaseInv(p, s) && OwnershipInv(p, s) && CanAct(p, cap, s, a, env) && MovesData(a)
    ensures PhaseInv(p, Next(p, cap, s, a, env)) && OwnershipInv(p, Next(p, cap, s, a, env))
  {}

  lemma PhasesKept(p: Platform, cap: nat, s: Stream, a: Act, env: Env)
    requires PhaseInv(p, s) && OwnershipInv(p, s) && CanAct(p, cap, s, a, env)
    ensures PhaseInv(p, Next(p, cap, s, a, env)) && OwnershipInv(p, Next(p, cap, s, a, env))
  {
    if MovesData(a) {
      DataKeepsPhases(p, cap, s, a, env);
    } else if IsWorkers(a) {
      WorkerKeepsPhases(p, cap, s, a, env);
    } else {
      CallerKeepsPhases(p, cap, s, a, env);
      CallerKeepsOwnership(p, cap, s, a, env);
    }
  }

  /** All that a control act may change of a stream. */
  predicate OnlyControl(s: Stream, t: Stream) {
    t == s.(caller := t.caller, message := t.message, worker := t.worker,
            readOpen := t.readOpen, writeOpen := t.writeOpen, cut := t.cut)
  }

  lemma WorkerKeepsData(p: Platform, cap: nat, s: Stream, a: Act, env: Env)
    requires CanAct(p, cap, s, a, env) && IsWorkers(a)
    ensures OnlyControl(s, Next(p, cap, s, a, env))
  {}

  lemma CallerKeepsData(p: Platform, cap: nat, s: Stream, a: Act, env: Env)
    requires CanAct(p, cap, s, a, env) && !MovesData(a) && !IsWorkers(a)
    ensures OnlyControl(s, Next(p, cap, s, a, env))
  {}

  /** Control acts leave the data where it is. */
  lemma ControlKeepsData(p: Platform, cap: nat, s: Stream, a: Act, env: Env)
    requires CanAct(p, cap, s, a, env) && !MovesData(a)
    ensures OnlyControl(s, Next(p, cap, s, a, env))
  {
    if IsWorkers(a) {
      WorkerKeepsData(p, cap, s, a, env);
    } else {
      CallerKeepsData(p, cap, s, a, env);
    }
  }

  lemma ControlKeepsDone(p: Platform, cap: nat, s: Stream, a: Act, env: Env)
    requires PhaseInv(p, s) && OwnershipInv(p, s) && DataInv(cap, s)
    requires CanAct(p, cap, s, a, env) && !MovesData(a)
    ensures var t := Next(p, cap, s, a, env);
            && (s.message == SentOk && s.worker != Granted ==> t.message == SentOk && t.worker != Granted)
            && (t.message == SentOk && Leaving(t.worker) && t.readOpen ==> s.emitted == StopsAt(t))
            && (t.cut ==> t.message == SentOk && Leaving(t.worker))
            && (AtEof(s) ==> AtEof(t) && t.cut == s.cut)
  {}

  lemma WriteAppends(taken: Bytes, ahead: Bytes, pipe: Bytes, content: Bytes, from: nat, k: nat)
    requires from + k <= |content| && taken + ahead + pipe == content[..from]
    ensures taken + ahead + (pipe + content[from..from + k]) == content[..from + k]
  {
    assert taken + ahead + (pipe + content[from..from + k]) == taken + ahead + pipe + content[from..from + k];
  }

  lemma WriteKeepsData(p: Platform, cap: nat, s: Stream, k: nat, env: Env)
    requires DataInv(cap, s) && CanAct(p, cap, s, Write(k), env) && s.message.SentOk?
    ensures DataInv(cap, Next(p, cap, s, Write(k), env))
  {
    WriteAppends(s.taken, s.ahead, s.pipe, s.script.content, s.emitted, k);
  }

  lemma FetchKeepsData(p: Platform, cap: nat, s: Stream, k: nat, env: Env)
    requires DataInv(cap, s) && CanAct(p, cap, s, Fetch(k), env)
    ensures DataInv(cap, Next(p, cap, s, Fetch(k), env))
  {
    assert s.pipe == s.pipe[..k] + s.pipe[k..];
    assert s.taken + (s.ahead + s.pipe[..k]) + s.pipe[k..] == s.taken + s.ahead + s.pipe;
  }

  lemma ReturnKeepsData(p: Platform, cap: nat, s: Stream, m: nat, env: Env)
    requires DataInv(cap, s) && CanAct(p, cap, s, Return(m), env)
    ensures DataInv(cap, Next(p, cap, s, Return(m), env))
  {
    assert s.ahead == s.ahead[..m] + s.ahead[m..];
    assert (s.taken + s.ahead[..m]) + s.ahead[m..] + s.pipe == s.taken + s.ahead + s.pipe;
  }

  /** At the end of the data, a reader that is still there has been sent everything up to the break. */
  lemma EndMeansAllEmitted(p: Platform, cap: nat, s: Stream)
    requires PhaseInv(p, s) && OwnershipInv(p, s) && DataInv(cap, s) && s.caller.Opened? && AtEof(s)
    ensures s.emitted == StopsAt(s) && |s.taken| + |s.ahead| == StopsAt(s)
  {
    assert |s.taken + s.ahead + s.pipe| == s.emitted;
  }

  lemma LogGrows(log: seq<Outcome>, o: Outcome)
    ensures AllData(log + [o]) == AllData(log) + o.data
    ensures Returned(log + [o]) == Returned(log) + if o.corrupt then [] else o.data
    ensures forall x :: x in log + [o] <==> x in log || x == o
  {
    assert (log + [o])[..|log|] == log;
  }

  /** The outcome a returning read logs. */
  function Logged(s: Stream, want: int, m: nat): Outcome
    requires m <= |s.ahead|
  {
    Outcome(want, s.ahead[..m], |s.taken| + m, Truncated(s.expected, |s.taken| + m, Exhausted(want, m)))
  }

  /** A read that sees the end of the data has taken all there is. */
  lemma ReturnAtEndDrains(p: Platform, cap: nat, s: Stream, m: nat, env: Env)
    requires StreamInv(p, cap, s) && CanAct(p, cap, s, Return(m), env)
    ensures var t := Next(p, cap, s, Return(m), env);
            && (Drained(s) ==> Drained(t) && t.taken == s.taken)
            && (SawEnd(Logged(s, s.caller.reader.want, m)) ==> Drained(t) && |s.taken| + m == StopsAt(t))
  {
    if AtEof(s) {
      EndMeansAllEmitted(p, cap, s);
    }
  }

  lemma LogInvExtends(s: Stream, t: Stream, o: Outcome)
    requires LogInv(s)
    requires t.log == s.log + [o] && t.taken == s.taken + o.data
    requires t.expected == s.expected && (Drained(s) ==> StopsAt(t) == StopsAt(s))
    requires Drained(s) ==> Drained(t) && o.data == []
    requires o.total == |t.taken| && (o.want >= 0 ==> |o.data| <= o.want)
    requires o.corrupt == Truncated(s.expected, o.total, Exhausted(o.want, |o.data|))
    requires SawEnd(o) ==> Drained(t) && o.total == StopsAt(t)
    ensures LogInv(t)
  {
    LogGrows(s.log, o);
  }

  lemma ReturnKeepsLog(p: Platform, cap: nat, s: Stream, m: nat, env: Env)
    requires StreamInv(p, cap, s) && CanAct(p, cap, s, Return(m), env)
    ensures LogInv(Next(p, cap, s, Return(m), env))
  {
    ReturnAtEndDrains(p, cap, s, m, env);
    LogInvExtends(s, Next(p, cap, s, Return(m), env), Logged(s, s.caller.reader.want, m));
  }

  lemma OthersKeepLog(p: Platform, cap: nat, s: Stream, a: Act, env: Env)
    requires StreamInv(p, cap, s) && CanAct(p, cap, s, a, env) && !a.Return?
    ensures LogInv(Next(p, cap, s, a, env))
  {
    var t := Next(p, cap, s, a, env);
    assert t.log == s.log && t.taken == s.taken && t.script == s.script && t.expected == s.expected;
    if !MovesData(a) {
      ControlKeepsDone(p, cap, s, a, env);
    }
    assert Drained(s) ==> Drained(t) && StopsAt(t) == StopsAt(s);
  }

  lemma ControlKeepsDataInv(p: Platform, cap: nat, s: Stream, a: Act, env: Env)
    requires StreamInv(p, cap, s) && CanAct(p, cap, s, a, env) && !MovesData(a)
    ensures DataInv(cap, Next(p, cap, s, a, env))
  {
    ControlKeepsData(p, cap, s, a, env);
    ControlKeepsDone(p, cap, s, a, env);
  }

  lemma DataKept(p: Platform, cap: nat, s: Stream, a: Act, env: Env)
    requires StreamInv(p, cap, s) && CanAct(p, cap, s, a, env)
    ensures DataInv(cap, Next(p, cap, s, a, env))
  {
    match a
    case Write(k) => WriteKeepsData(p, cap, s, k, env);
    case Fetch(k) => FetchKeepsData(p, cap, s, k, env);
    case Return(m) => ReturnKeepsData(p, cap, s, m, env);
    case _ => ControlKeepsDataInv(p, cap, s, a, env);
  }

  lemma StreamInvKept(p: Platform, cap: nat, s: Stream, a: Act, env: Env)
    requires StreamInv(p, cap, s) && CanAct(p, cap, s, a, env)
    ensures StreamInv(p, cap, Next(p, cap, s, a, env))
  {
    PhasesKept(p, cap, s, a, env);
    DataKept(p, cap, s, a, env);
    if a.Return? {
      ReturnKeepsLog(p, cap, s, a.m, env);
    } else {
      OthersKeepLog(p, cap, s, a, env);
    }
  }
}
