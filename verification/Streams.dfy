/**
 * One streaming open: the caller's thread, the worker's thread, their one-slot
 * channel and their pipe, as a step machine (src/lib.rs `spawn_stream_worker_*`,
 * python/newtua/_archive.py `_open_pipe_*`, python/newtua/_stream.py).
 */
module Streams {
  import opened Base

  datatype Platform = Posix | Windows

  datatype Side = ReadSide | WriteSide

  // ── program counters ────────────────────────────────────────────────────

  /** What the user of an open stream is doing. `exact`: buffered `read`, which waits for all of `want`. */
  datatype Reader = Idle | Reading(want: int, exact: bool)

  datatype Caller =
    | Piped                     // both pipe ends made, temp file looked up, not claimed yet
    | Claimed                   // claim taken; about to enter the compiled module
    | Waiting                   // blocked on the handshake
    | Failing(ownsWrite: bool)  // the call failed: read end still to close
    | FailingWrite              // read end closed, write end still to close
    | Opened(reader: Reader)    // the stream is in the user's hands
    | Releasing(ok: bool)       // descriptors are gone, the claim is not
    | Deleting(ok: bool)        // last claim dropped, the file not deleted yet
    | Done(ok: bool)            // the failed call has raised, or the stream is closed

  datatype Worker =
    | Unborn
    | Opening     // opening the archive
    | Granted     // has sent Ok, has not touched the descriptor yet
    | Decoding
    | Dropping    // about to drop the write end
    | Exited

  /** The one-slot channel of the handshake. */
  datatype Message = Silent | SentOk | SentErr

  // ── the truncation check ────────────────────────────────────────────────

  /** `exhausted` as `_read_chunk` and `readinto` compute it. */
  predicate Exhausted(want: int, got: nat) {
    want < 0 || got == 0
  }

  /** The verdict of `_PipeStream._took`. */
  predicate Truncated(expected: Option<nat>, total: nat, exhausted: bool) {
    exhausted && expected.Some? && 0 < expected.value && total < expected.value
  }

  /** One finished read: `data` left the pipe, `total` is the tally after it, `corrupt` says it raised. */
  datatype Outcome = Outcome(want: int, data: Bytes, total: nat, corrupt: bool)

  // ── the stream ──────────────────────────────────────────────────────────

  /**
   * What the engine makes of one entry: it emits `content[..breakAt]` and then
   * stops, well (`fate` is none) or with an error.
   */
  datatype DecodedRaw = DecodedRaw(content: Bytes, breakAt: nat, fate: Option<string>, reopens: bool, size: nat)
  type Decoded = d: DecodedRaw | d.breakAt <= |d.content| witness DecodedRaw([], 0, None, false, 0)

  datatype Stream = Stream(
    // fixed by the call: `file` is what the worker opens by path, `claim` what the caller holds
    entry: nat, password: Password, script: Decoded, expected: Option<nat>,
    file: Option<nat>, claim: Option<nat>, readFd: nat, writeFd: nat,
    // threads and channel
    caller: Caller, message: Message, worker: Worker,
    // kernel pipe
    pipe: Bytes, readOpen: bool, writeOpen: bool,
    // progress of the data; `cut`: the worker lost its file under a live reader
    emitted: nat, cut: bool, ahead: Bytes, taken: Bytes, log: seq<Outcome>)

  function NewStream(entry: nat, password: Password, script: Decoded, file: Option<nat>, claim: Option<nat>,
                     readFd: nat, writeFd: nat): Stream {
    Stream(entry, password, script, Some(script.size), file, claim, readFd, writeFd,
           Piped, Silent, Unborn, [], true, true, 0, false, [], [], [])
  }

  datatype Act =
    // the caller, inside `open`
    | Claim | Reject | Spawn | RecvOk | RecvErr
    // the caller, tearing down
    | CloseRead | CloseWrite | GiveBack | Unlink
    // the worker
    | OpenOk | OpenErr | Panic | TakeFd | Write(k: nat) | Finish | BreakPipe | LoseFile | DropWrite
    // the user
    | Call(want: int, exact: bool) | Fetch(k: nat) | Return(m: nat)

  /** What a stream sees of the disk: is the file it reads missing, and is the claim it holds the last one? */
  datatype Env = Env(fileGone: bool, lastClaim: bool)

  function Min(a: int, b: int): int {
    if a < b then a else b
  }

  predicate AtEof(s: Stream) {
    s.pipe == [] && !s.writeOpen
  }

  /**
   * A read may end with `m` bytes: a negative size only at the end of the data
   * and with all of it; otherwise at most `want`, and nothing only for size 0
   * or at the end. An exact read also waits for everything it asked for.
   */
  predicate MayReturn(s: Stream, want: int, exact: bool, m: nat) {
    && m <= |s.ahead|
    && (want < 0 ==> AtEof(s) && m == |s.ahead|)
    && (want >= 0 ==> m <= want && (m == 0 ==> want == 0 || (AtEof(s) && s.ahead == [])))
    && (want >= 0 && exact ==> m == Min(want, |s.ahead|) && (m == want || AtEof(s)))
  }

  /** On Windows the compiled module checks the index before it makes the pipe, so there is nothing to reject. */
  predicate CanAct(p: Platform, cap: nat, s: Stream, a: Act, env: Env) {
    match a
    case Claim => s.caller.Piped?
    case Reject => p.Posix? && s.caller.Claimed?
    case Spawn => s.caller.Claimed?
    case RecvOk => s.caller.Waiting? && s.message.SentOk?
    case RecvErr =>
      && s.caller.Waiting?
      && (s.message.SentErr? || (s.message.Silent? && Leaving(s.worker)))
    case CloseRead => s.caller.Failing? || (s.caller.Opened? && s.caller.reader.Idle?)
    case CloseWrite => s.caller.FailingWrite?
    case GiveBack => s.caller.Releasing?
    case Unlink => s.caller.Deleting?
    case OpenOk => s.worker.Opening? && !env.fileGone
    case OpenErr => s.worker.Opening?
    case Panic => s.worker.Opening?
    case TakeFd => s.worker.Granted?
    case Write(k) =>
      && s.worker.Decoding? && s.readOpen
      && 1 <= k && |s.pipe| + k <= cap && s.emitted + k <= s.script.breakAt
    case Finish => s.worker.Decoding? && s.emitted == s.script.breakAt
    case BreakPipe => s.worker.Decoding? && !s.readOpen
    case LoseFile => s.worker.Decoding? && s.script.reopens && env.fileGone
    case DropWrite => s.worker.Dropping?
    case Call(want, exact) => s.caller.Opened? && s.caller.reader.Idle?
    case Fetch(k) =>
      && s.caller.Opened? && s.caller.reader.Reading?
      && 1 <= k <= |s.pipe|
      && (s.caller.reader.want < 0 || |s.ahead| < s.caller.reader.want)
    case Return(m) =>
      && s.caller.Opened? && s.caller.reader.Reading?
      && MayReturn(s, s.caller.reader.want, s.caller.reader.exact, m)
  }

  /** The descriptor an act closes, if it closes one. */
  function Closes(s: Stream, a: Act): Option<(nat, Side)> {
    match a
    case CloseRead => Some((s.readFd, ReadSide))
    case CloseWrite => Some((s.writeFd, WriteSide))
    case DropWrite => Some((s.writeFd, WriteSide))
    case _ => None
  }

  /** The descriptor an act writes to or reads from. */
  function Uses(s: Stream, a: Act): Option<(nat, Side)> {
    match a
    case TakeFd => Some((s.writeFd, WriteSide))
    case Write(_) => Some((s.writeFd, WriteSide))
    case Fetch(_) => Some((s.readFd, ReadSide))
    case _ => Closes(s, a)
  }

  /** The stream after an act. Closing a descriptor is the kernel's part: see `Cleared`. */
  function Moved(p: Platform, cap: nat, s: Stream, a: Act, env: Env): Stream
    requires CanAct(p, cap, s, a, env)
  {
    match a
    case Claim => s.(caller := Claimed)
    case Reject => s.(caller := Failing(true))
    case Spawn => s.(caller := Waiting, worker := Opening)
    case RecvOk => s.(caller := Opened(Idle))
    case RecvErr => s.(caller := Failing(p.Posix?))
    case CloseRead =>
      s.(caller := if s.caller.Failing? && s.caller.ownsWrite then FailingWrite else Releasing(s.caller.Opened?))
    case CloseWrite => s.(caller := Releasing(false))
    case GiveBack =>
      s.(caller := if s.claim.Some? && env.lastClaim then Deleting(s.caller.ok) else Done(s.caller.ok))
    case Unlink => s.(caller := Done(s.caller.ok))
    case OpenOk => s.(message := SentOk, worker := Granted)
    case OpenErr => s.(message := SentErr, worker := if p.Posix? then Exited else Dropping)
    case Panic => s.(worker := if p.Posix? then Exited else Dropping)
    case TakeFd => s.(worker := Decoding)
    case Write(k) =>
      s.(pipe := s.pipe + s.script.content[s.emitted..s.emitted + k], emitted := s.emitted + k)
    case Finish => s.(worker := Dropping)
    case BreakPipe => s.(worker := Dropping)
    case LoseFile => s.(worker := Dropping, cut := s.cut || s.readOpen)
    case DropWrite => s.(worker := Exited)
    case Call(want, exact) => s.(caller := Opened(Reading(want, exact)))
    case Fetch(k) => s.(ahead := s.ahead + s.pipe[..k], pipe := s.pipe[k..])
    case Return(m) =>
      var want, total := s.caller.reader.want, |s.taken| + m;
      var o := Outcome(want, s.ahead[..m], total, Truncated(s.expected, total, Exhausted(want, m)));
      s.(caller := Opened(Idle), ahead := s.ahead[m..], taken := s.taken + s.ahead[..m], log := s.log + [o])
  }

  function Cleared(s: Stream, side: Side): Stream {
    match side
    case ReadSide => s.(readOpen := false)
    case WriteSide => s.(writeOpen := false)
  }

  /** An act together with the kernel closing the end it meant to close. */
  function Next(p: Platform, cap: nat, s: Stream, a: Act, env: Env): Stream
    requires CanAct(p, cap, s, a, env)
  {
    var s' := Moved(p, cap, s, a, env);
    match Closes(s, a)
    case None => s'
    case Some((_, side)) => Cleared(s', side)
  }

  // ── who owns what ───────────────────────────────────────────────────────

  predicate CallerHasRead(s: Stream) {
    s.caller.Piped? || s.caller.Claimed? || s.caller.Waiting? || s.caller.Failing? || s.caller.Opened?
  }

  predicate CallerHasWrite(p: Platform, s: Stream) {
    || s.caller.Piped? || s.caller.Claimed? || s.caller.FailingWrite? || (s.caller.Failing? && s.caller.ownsWrite)
    || (p.Posix? && s.caller.Waiting? && !s.message.SentOk?)
  }

  predicate WorkerHasWrite(p: Platform, s: Stream) {
    s.worker.Granted? || s.worker.Decoding? || s.worker.Dropping? || (p.Windows? && s.worker.Opening?)
  }

  /** Between `hold` and `release`: the stream counts in `_holders` of the file it claims, if it claims one. */
  predicate HasClaim(s: Stream) {
    || s.caller.Claimed? || s.caller.Waiting? || s.caller.Opened?
    || s.caller.Failing? || s.caller.FailingWrite? || s.caller.Releasing?
  }

  predicate TornDown(c: Caller, ok: bool) {
    (c.Releasing? || c.Deleting? || c.Done?) && c.ok == ok
  }

  /** The call has succeeded. */
  predicate Succeeded(s: Stream) {
    s.caller.Opened? || TornDown(s.caller, true)
  }

  /** The call has failed. */
  predicate Refused(s: Stream) {
    s.caller.Failing? || s.caller.FailingWrite? || TornDown(s.caller, false)
  }

  predicate Early(c: Caller) {
    c.Piped? || c.Claimed?
  }

  predicate Leaving(w: Worker) {
    w.Dropping? || w.Exited?
  }

  // ── invariants of one stream ────────────────────────────────────────────

  predicate PhaseInv(p: Platform, s: Stream) {
    && (Early(s.caller) ==> s.worker.Unborn? && s.message.Silent?)
    && (s.worker.Unborn? ==> s.message.Silent? && (Early(s.caller) || Refused(s)))
    && (s.worker.Opening? ==> s.caller.Waiting? && s.message.Silent?)
    && (s.worker.Granted? || s.worker.Decoding? ==> s.message.SentOk?)
    && (s.message.SentOk? ==> !s.worker.Unborn? && !s.worker.Opening?)
    && (s.message.SentOk? ==> s.caller.Waiting? || Succeeded(s))
    && (Succeeded(s) ==> s.message.SentOk?)
    && (p.Posix? && s.worker.Dropping? ==> s.message.SentOk?)
    && (p.Windows? ==> s.file.None? && s.claim.None?)
    && (s.caller.Failing? && !s.caller.ownsWrite ==> p.Windows?)
  }

  /** Each end is open exactly while somebody owns it, and nobody shares it. */
  predicate OwnershipInv(p: Platform, s: Stream) {
    && (s.readOpen <==> CallerHasRead(s))
    && (s.writeOpen <==> CallerHasWrite(p, s) || WorkerHasWrite(p, s))
    && !(CallerHasWrite(p, s) && WorkerHasWrite(p, s))
  }

  /** Where the data ends: where the engine breaks off, or where it lost its file. */
  function StopsAt(s: Stream): nat {
    if s.cut then s.emitted else s.script.breakAt
  }

  /** The end of the data has been seen, and everything before it was handed over. */
  predicate Drained(s: Stream) {
    AtEof(s) && s.ahead == [] && s.emitted == StopsAt(s)
  }

  predicate DataInv(cap: nat, s: Stream) {
    && s.emitted <= s.script.breakAt
    && |s.pipe| <= cap
    && s.taken + s.ahead + s.pipe == s.script.content[..s.emitted]
    && (s.emitted > 0 ==> s.message.SentOk? && !s.worker.Granted?)
    && (s.message.SentOk? && Leaving(s.worker) && s.readOpen ==> s.emitted == StopsAt(s))
    && (s.cut ==> s.message.SentOk? && Leaving(s.worker))
  }

  /** The bytes every read so far took out of the pipe. */
  ghost function AllData(log: seq<Outcome>): Bytes {
    if log == [] then [] else AllData(log[..|log| - 1]) + log[|log| - 1].data
  }

  /** The bytes the user got: a read that raises returns none. */
  ghost function Returned(log: seq<Outcome>): Bytes {
    if log == [] then []
    else Returned(log[..|log| - 1]) + if log[|log| - 1].corrupt then [] else log[|log| - 1].data
  }

  /** A read that saw the end of the data; one of size 0 says nothing about it. */
  predicate SawEnd(o: Outcome) {
    o.want != 0 && Exhausted(o.want, |o.data|)
  }

  /** The stream was read to the end of its data. */
  ghost predicate HasEnded(s: Stream) {
    exists o :: o in s.log && SawEnd(o)
  }

  /** A read that reached the end of the data raised. */
  ghost predicate EndedBadly(s: Stream) {
    exists o :: o in s.log && SawEnd(o) && o.corrupt
  }

  ghost predicate LogInv(s: Stream) {
    && AllData(s.log) == s.taken
    && Returned(s.log) <= s.taken
    && (Returned(s.log) != s.taken ==> Drained(s))
    && (forall o :: o in s.log ==> o.corrupt == Truncated(s.expected, o.total, Exhausted(o.want, |o.data|)))
    && (forall o :: o in s.log ==> o.total <= |s.taken| && (o.want >= 0 ==> |o.data| <= o.want))
    && (forall o :: o in s.log && SawEnd(o) ==> Drained(s) && o.total == StopsAt(s))
  }

  ghost predicate StreamInv(p: Platform, cap: nat, s: Stream) {
    PhaseInv(p, s) && OwnershipInv(p, s) && DataInv(cap, s) && LogInv(s)
  }
}
