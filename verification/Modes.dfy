/**
 * The three ways to read an entry: through the pipe, into a spool, into memory.
 * No schedule shows through the first; but it does not always say what the
 * other two say.
 */
module Modes {
  import opened Base
  import opened Streams
  import opened StreamProofs
  import opened StreamSystem
  import opened SystemProofs
  import opened Guarantees
  import opened Liveness
  import E = EntryStreams
  import Sinks

  /** What an ideal store would still have to give: the bytes not taken yet. */
  function Rest(s: Stream): Bytes
    requires |s.taken| <= StopsAt(s) <= |s.script.content|
  {
    s.script.content[|s.taken|..StopsAt(s)]
  }

  lemma PipeHoldsTheRest(cap: nat, s: Stream)
    requires DataInv(cap, s)
    ensures |s.taken| <= StopsAt(s) <= |s.script.content| && s.ahead <= Rest(s)
    ensures AtEof(s) && s.emitted == StopsAt(s) ==> s.ahead == Rest(s)
  {
    assert |s.taken| + |s.ahead| + |s.pipe| == s.emitted;
    assert forall k :: 0 <= k < |s.ahead| ==>
      s.ahead[k] == (s.taken + s.ahead + s.pipe)[|s.taken| + k] == s.script.content[|s.taken| + k];
  }

  lemma ReturnGivesTheRest(p: Platform, cap: nat, s: Stream, m: nat, env: Env)
    requires PhaseInv(p, s) && OwnershipInv(p, s) && DataInv(cap, s) && CanAct(p, cap, s, Return(m), env)
    ensures |s.taken| <= StopsAt(s) <= |s.script.content|
    ensures var want := s.caller.reader.want;
            && (s.caller.reader.exact || want < 0 ==> s.ahead[..m] == Rest(s)[..E.Share(want, |Rest(s)|)])
            && (want >= 0 ==> s.ahead[..m] <= Rest(s) && m <= want && (m == 0 ==> want == 0 || Rest(s) == []))
  {
    PipeHoldsTheRest(cap, s);
    if AtEof(s) {
      EndMeansAllEmitted(p, cap, s);
    }
  }

  /**
   * A read that returns, in any run, gives what `PipeStream.Read` gives over an
   * ideal store: a buffered read exactly the next `want` bytes, a `readinto` a
   * nonempty part of them; and it raises exactly when `PipeStream` does.
   */
  lemma ReadIsScheduleFree(c: Config, run: seq<Step>, id: nat, m: nat)
    requires IsRun(c, run) && Enabled(c, Final(c, run), OfStream(id, Return(m)))
    ensures var s := Final(c, run).streams[id];
            var t := Apply(c, Final(c, run), OfStream(id, Return(m))).streams[id];
            |s.taken| <= StopsAt(s) <= |s.script.content| && |t.log| == |s.log| + 1 &&
            var want, o := s.caller.reader.want, t.log[|s.log|];
            && (s.caller.reader.exact || want < 0 ==> o.data == Rest(s)[..E.Share(want, |Rest(s)|)])
            && (want >= 0 ==> o.data <= Rest(s) && |o.data| <= want && (o.data == [] ==> want == 0 || Rest(s) == []))
            && t.taken == s.taken + o.data
            && o.corrupt == E.Answer(s.expected, |t.taken|, want, o.data).Failure?
  {
    ReachableCore(c, run);
    var st := Final(c, run);
    assert StreamInv(c.platform, c.capacity, st.streams[id]);
    ActIsLocal(c, st, id, Return(m));
    ReturnGivesTheRest(c.platform, c.capacity, st.streams[id], m, EnvOf(st.files, st.streams[id]));
  }

  /** `t` is `s` after a `read(size)` of what an ideal store would give, with the verdict of `PipeStream`. */
  predicate Served(s: Stream, t: Stream, size: int) {
    |s.taken| <= StopsAt(s) <= |s.script.content| &&
    var data := Rest(s)[..E.Share(size, |Rest(s)|)];
    var total := |s.taken| + |data|;
    && t.caller == Opened(Idle) && t.script == s.script && t.expected == s.expected
    && t.claim == s.claim && t.readFd == s.readFd && t.taken == s.taken + data
    && t.log == s.log + [Outcome(size, data, total, E.Answer(s.expected, total, size, data).Failure?)]
  }

  lemma AnswerServes(c: Config, st: State, id: nat, m: nat)
    requires Core(c, st) && Enabled(c, st, OfStream(id, Return(m)))
    requires st.streams[id].caller.reader.exact
    ensures var s, e := st.streams[id], Apply(c, st, OfStream(id, Return(m)));
            OnlyMoved(st, e, id) && e.files == st.files && Served(s, e.streams[id], s.caller.reader.want)
  {
    assert StreamInv(c.platform, c.capacity, st.streams[id]);
    ActIsLocal(c, st, id, Return(m));
    ReturnGivesTheRest(c.platform, c.capacity, st.streams[id], m, EnvOf(st.files, st.streams[id]));
  }

  /** Where `r` stands for its reader as `s` does, whatever the pipe holds by now. */
  predicate SameProgress(s: Stream, r: Stream) {
    && r.script == s.script && r.expected == s.expected && r.claim == s.claim && r.readFd == s.readFd
    && r.log == s.log && r.taken == s.taken && StopsAt(r) == StopsAt(s)
  }

  lemma ServedFromThere(s: Stream, r: Stream, t: Stream, size: int)
    requires SameProgress(s, r) && Served(r, t, size)
    ensures Served(s, t, size)
  {}

  /** The bytes taken are all that the log says about a stream's progress. */
  lemma WaitingMakesNoProgress(c: Config, st: State, id: nat, wait: seq<Step>)
    requires Inv(c, st) && id < |st.streams| && st.streams[id].caller.Opened? && ReachesUser(c, st, id, wait)
    ensures SameProgress(st.streams[id], After(c, st, wait).streams[id])
  {
    var e := After(c, st, wait);
    assert StreamInv(c.platform, c.capacity, st.streams[id]) && StreamInv(c.platform, c.capacity, e.streams[id]);
  }

  /** A read that has waited long enough is answered. */
  lemma WaitedReadIsServed(c: Config, st: State, id: nat, size: int) returns (step: Step)
    requires Inv(c, st) && id < |st.streams| && st.streams[id].caller == Opened(Reading(size, true))
    requires UsersTurn(c.platform, c.capacity, st.streams[id], EnvOf(st.files, st.streams[id]))
    ensures Enabled(c, st, step)
    ensures var e := Apply(c, st, step);
            OnlyMoved(st, e, id) && e.files == st.files && Served(st.streams[id], e.streams[id], size)
  {
    var m :| CanAct(c.platform, c.capacity, st.streams[id], Return(m), EnvOf(st.files, st.streams[id]));
    step := OfStream(id, Return(m));
    AnswerServes(c, st, id, m);
  }

  lemma AskedReadRuns(c: Config, st: State, id: nat, size: int) returns (more: seq<Step>)
    requires Ordered(c) && c.capacity > 0 && Inv(c, st) && id < |st.streams|
    requires st.streams[id].caller == Opened(Reading(size, true))
    ensures CanRun(c, st, more)
    ensures var e := After(c, st, more);
            OnlyMoved(st, e, id) && e.files == st.files && Served(st.streams[id], e.streams[id], size)
  {
    assert StreamInv(c.platform, c.capacity, st.streams[id]);
    var wait := HealthyStreamReachesItsUser(c, st, id);
    var ready := After(c, st, wait);
    var step := WaitedReadIsServed(c, ready, id, size);
    WaitingMakesNoProgress(c, st, id, wait);
    ServedFromThere(st.streams[id], ready.streams[id], Apply(c, ready, step).streams[id], size);
    RunThenStep(c, st, wait, step);
    more := wait + [step];
  }

  /**
   * A `read(size)` on an open stream always comes back, by the stream's own
   * steps, with what an ideal store would give; and disturbs nothing else.
   */
  lemma ReadRuns(c: Config, st: State, id: nat, size: int) returns (more: seq<Step>)
    requires Ordered(c) && c.capacity > 0 && Inv(c, st) && id < |st.streams| && st.streams[id].caller == Opened(Idle)
    ensures CanRun(c, st, more)
    ensures var e := After(c, st, more);
            OnlyMoved(st, e, id) && e.files == st.files && Served(st.streams[id], e.streams[id], size)
  {
    var call := OfStream(id, Call(size, true));
    AskingOpensARead(c, st, id, size, call);
    var asked := Apply(c, st, call);
    var rest := AskedReadRuns(c, asked, id, size);
    ServedFromThere(st.streams[id], asked.streams[id], After(c, asked, rest).streams[id], size);
    StepThenRun(c, st, call, rest);
    more := [call] + rest;
  }

  /** Everything the engine emits of an entry before it stops. */
  function Emits(d: Decoded): Bytes {
    d.content[..d.breakAt]
  }

  /** The store of a stream that is where its reader is has what the reader has still to get. */
  lemma StoreIsTheRest(d: Decoded, given: Bytes, rest: Bytes)
    requires given + rest == Emits(d)
    ensures |given| <= d.breakAt && rest == d.content[|given|..d.breakAt]
  {
    assert rest == (given + rest)[|given|..];
  }

  /** The same for a stream whose progress a store has kept up with. */
  lemma StoredReadRuns(c: Config, st: State, id: nat, size: int, given: Bytes, rest: Bytes) returns (more: seq<Step>)
    requires Ordered(c) && c.capacity > 0 && Inv(c, st) && id < |st.streams| && st.streams[id].caller == Opened(Idle)
    requires st.streams[id].taken == given && given + rest == Emits(st.streams[id].script)
    ensures CanRun(c, st, more)
    ensures var e := After(c, st, more);
            var data := rest[..E.Share(size, |rest|)];
            && OnlyMoved(st, e, id) && e.files == st.files
            && var s, t := st.streams[id], e.streams[id];
            && t.caller == Opened(Idle) && t.script == s.script && t.expected == s.expected
            && t.claim == s.claim && t.readFd == s.readFd && t.taken == given + data
            && t.log == s.log + [Outcome(size, data, |t.taken|, E.Answer(s.expected, |t.taken|, size, data).Failure?)]
  {
    StoreIsTheRest(st.streams[id].script, given, rest);
    more := ReadRuns(c, st, id, size);
  }

  // ── where the modes agree ───────────────────────────────────────────────

  /** The engine ends well exactly if it emits at least the listed size: then size and error say the same. */
  predicate SizeTellsTheFate(d: Decoded) {
    d.fate == None <==> d.size <= d.breakAt
  }

  /** A drained stream raises iff it fell short, and is the whole emission if it does not raise. */
  lemma DrainedStream(c: Config, run: seq<Step>, id: nat)
    requires IsRun(c, run) && Ordered(c) && id < |Final(c, run).streams| && HasEnded(Final(c, run).streams[id])
    ensures var s := Final(c, run).streams[id];
            && (EndedBadly(s) <==> s.script.breakAt < s.script.size)
            && (!EndedBadly(s) ==> Returned(s.log) == Emits(s.script))
  {
    ReachableCore(c, run);
    var s := Final(c, run).streams[id];
    assert StreamInv(c.platform, c.capacity, s);
    forall o | o in s.log
      ensures SawEnd(o) ==> (o.corrupt <==> s.script.breakAt < s.script.size) && StopsAt(s) == s.script.breakAt
    {
      VerdictIsExact(c, run, id, o);
    }
    if !EndedBadly(s) {
      NothingWithheld(s.log);
      assert s.taken + s.ahead + s.pipe == s.taken;
    }
  }

  /**
   * One entry, three ways: `read`, `open` and a `read()` of what it gives, and
   * a pipe stream drained in any run, by whatever reads and under whatever
   * schedule. `chunks` is however the engine cuts what it emits.
   *
   * The first two always agree. The third raises exactly when they raise if
   * and only if the entry's size tells the engine's fate; and it gave their
   * bytes whenever neither raises. The bytes do not depend on `fate`, so an
   * error that comes after enough bytes is lost on the way through the pipe.
   */
  method ReadThreeWays(ghost c: Config, ghost run: seq<Step>, ghost id: nat, chunks: seq<Bytes>, fate: Option<string>)
    returns (whole: Result<Bytes, Sinks.PyError>, buffered: Result<Bytes, Sinks.PyError>)
    requires IsRun(c, run) && Ordered(c) && id < |Final(c, run).streams| && HasEnded(Final(c, run).streams[id])
    requires var d := Final(c, run).streams[id].script; Sinks.Flatten(chunks) == Emits(d) && fate == d.fate
    ensures var st := Final(c, run); var s := st.streams[id];
            s.script == c.decode(BackingData(c, st, s.file), s.password, s.entry)
    ensures whole == if fate == None then Success(Sinks.Flatten(chunks)) else Failure(Sinks.FromEngine(fate.value))
    ensures buffered == whole
    ensures var s := Final(c, run).streams[id];
            && ((whole.Failure? <==> EndedBadly(s)) <==> SizeTellsTheFate(s.script))
            && (whole.Success? && !EndedBadly(s) ==> whole.value == Returned(s.log))
            && (!EndedBadly(s) ==> Returned(s.log) == Sinks.Flatten(chunks))
  {
    ReachableCore(c, run);
    DrainedStream(c, run, id);
    whole := Sinks.ReadEntry(chunks, fate);
    var filled := E.FromWriter(chunks, fate);
    if filled.Failure? {
      return whole, Failure(filled.error);
    }
    var data := filled.value.Read(-1);
    assert Sinks.Flatten(chunks)[..|Sinks.Flatten(chunks)|] == Sinks.Flatten(chunks);
    buffered := Success(data.value);
  }

  // ── and where they do not ───────────────────────────────────────────────

  /**
   * Every entry whose size does not tell the fate can be met: a stream on it
   * goes on to be drained, and then exactly one of `read` and the stream raises.
   */
  lemma DisagreementIsReached(c: Config, run: seq<Step>, id: nat) returns (more: seq<Step>)
    requires IsRun(c, run) && Ordered(c) && c.capacity > 0 && id < |Final(c, run).streams|
    requires var s := Final(c, run).streams[id]; Healthy(s) && (s.caller.Opened? ==> s.caller == Opened(Idle))
    requires !SizeTellsTheFate(Final(c, run).streams[id].script)
    ensures IsRun(c, run + more) && id < |Final(c, run + more).streams|
    ensures var d, e := Final(c, run).streams[id].script, Final(c, run + more).streams[id];
            && e.script == d && HasEnded(e)
            && (EndedBadly(e) <==> d.fate == None)
            && (d.fate.Some? ==> Returned(e.log) == Emits(d))
  {
    more := EveryHealthyStreamCanBeDrained(c, run, id);
    DrainedStream(c, run + more, id);
  }

  /** An archive of one byte whose checksum fails once the byte is out. */
  function BadChecksum(platform: Platform, size: nat): Config {
    Config(platform, 1, OnDisk([]), None, Sync, (_, _, _) => DecodedRaw([7], 1, Some("checksum"), false, size))
  }

  /**
   * The silent case, run by run: the engine reports a failed checksum, `read`
   * and `open` raise it, and the drained stream hands the byte over as good.
   * It takes a right listed size, or one of 0.
   */
  lemma ChecksumErrorIsSilent(platform: Platform, size: nat) returns (run: seq<Step>)
    requires size <= 1
    ensures var c := BadChecksum(platform, size);
            && IsRun(c, run) && |Final(c, run).streams| > 0
            && var s := Final(c, run).streams[0];
            && s.script.fate == Some("checksum") && HasEnded(s) && !EndedBadly(s) && Returned(s.log) == [7]
  {
    var c := BadChecksum(platform, size);
    var begin := [Begin(0, 3, 4)];
    assert CanRun(c, Apply(c, Init(c), begin[0]), begin[1..]);
    assert Final(c, begin) == Apply(c, Init(c), begin[0]);
    var more := DisagreementIsReached(c, begin, 0);
    run := begin + more;
    assert Emits(Final(c, begin).streams[0].script) == [7];
  }

  /** The loud case: the engine ends well below the listed size, `read` succeeds, and the drained stream raises. */
  lemma ShortEntryIsLoud(platform: Platform, content: Bytes, size: nat) returns (c: Config, run: seq<Step>)
    requires |content| < size
    ensures IsRun(c, run) && c.platform == platform && |Final(c, run).streams| > 0
    ensures var s := Final(c, run).streams[0];
            s.script == DecodedRaw(content, |content|, None, false, size) && HasEnded(s) && EndedBadly(s)
  {
    c := Config(platform, 1, OnDisk([]), None, Sync, (_, _, _) => DecodedRaw(content, |content|, None, false, size));
    var begin := [Begin(0, 3, 4)];
    assert CanRun(c, Apply(c, Init(c), begin[0]), begin[1..]);
    assert Final(c, begin) == Apply(c, Init(c), begin[0]);
    var more := DisagreementIsReached(c, begin, 0);
    run := begin + more;
  }
}
