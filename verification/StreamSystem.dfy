/**
 * The whole process: one archive, any number of streams with their workers,
 * the descriptor table, and every temporary file ever spilled. Threads
 * interleave freely, one atomic step at a time.
 */
module StreamSystem {
  import opened Base
  import opened Streams
  import T = TempFiles

  datatype Source =
    | OnDisk(data: Bytes)      // a path
    | InMemory(data: Bytes)    // bytes
    | FileObject(data: Bytes)  // a stream, read once

  /**
   * Who drives the archive. `Sync`: one thread, so nothing of the archive
   * happens between the looking up and the claiming of an `open`. `Asyncio`:
   * `_AsyncStreamCtx.__aenter__` runs in a thread of its own, and asks for
   * nothing but a path that was set once. `entryFirst` is the user's discipline
   * that makes up for it: streams are entered while the archive is.
   */
  datatype Front = Sync | Asyncio(entryFirst: bool)

  datatype Config = Config(
    platform: Platform, capacity: nat, source: Source, password: Password, front: Front,
    decode: (Bytes, Password, nat) -> Decoded)

  predicate Ordered(c: Config) {
    c.front.Sync? || c.front.entryFirst
  }

  /**
   * `claim` is `_tempfile`; `deleting` is a file whose last claim the archive
   * dropped and has not deleted yet. `path` is the temp file behind `_path` of
   * an asyncio front, and stays once the front has been `entered`.
   */
  datatype ArchiveState = ArchiveState(
    password: Password, unread: Bytes, claim: Option<nat>, deleting: Option<nat>, closed: bool,
    entered: bool, path: Option<nat>)

  datatype End = End(stream: nat, side: Side)

  datatype State = State(archive: ArchiveState, files: seq<T.Spilled>, fds: map<nat, End>, streams: seq<Stream>)

  datatype Step =
    | Spill                                               // `_backing_path` writes a temp file
    | DropClaim                                           // a failed open, or `close`: release, locked half
    | UnlinkDropped                                       // release, the half outside the lock
    | SetPassword(password: Password)
    | CloseArchive
    | Enter                                               // an asyncio front has its path and its listing
    | Begin(entry: nat, readFd: nat, writeFd: nat)        // a new `open(stream=True)` has made its pipe
    | OfStream(id: nat, act: Act)

  function Init(c: Config): State {
    var unread := if c.source.FileObject? then c.source.data else [];
    State(ArchiveState(c.password, unread, None, None, false, false, None), [], map[], [])
  }

  // ── shared resources ────────────────────────────────────────────────────

  function FdOf(s: Stream, side: Side): nat {
    if side == ReadSide then s.readFd else s.writeFd
  }

  predicate IsOpen(s: Stream, side: Side) {
    if side == ReadSide then s.readOpen else s.writeOpen
  }

  /** `close(fd)`: closes whatever the number stands for now, right or wrong. */
  function KernelClose(st: State, fd: nat): State {
    if fd in st.fds && st.fds[fd].stream < |st.streams| then
      var e := st.fds[fd];
      st.(fds := st.fds - {fd}, streams := st.streams[e.stream := Cleared(st.streams[e.stream], e.side)])
    else st
  }

  predicate IsSpilled(files: seq<T.Spilled>, file: Option<nat>) {
    file.Some? && file.value < |files|
  }

  function EnvOf(files: seq<T.Spilled>, s: Stream): Env {
    Env(IsSpilled(files, s.file) && !files[s.file.value].onDisk,
        IsSpilled(files, s.claim) && T.LastOut(files[s.claim.value]))
  }

  /** What an act does to the temp file the stream claims, if it claims one. */
  function FilesAfter(files: seq<T.Spilled>, s: Stream, a: Act): seq<T.Spilled> {
    if !IsSpilled(files, s.claim) then files
    else
      var f := s.claim.value;
      match a
      case Claim => files[f := T.Held(files[f])]
      case GiveBack => files[f := T.Dropped(files[f])]
      case Unlink => files[f := T.Deleted(files[f])]
      case _ => files
  }

  /** The bytes behind the archive: the temp file's, or the user's own file. */
  function BackingData(c: Config, st: State, file: Option<nat>): Bytes {
    if IsSpilled(st.files, file) then st.files[file.value].data else c.source.data
  }

  predicate BetweenLookupAndClaim(st: State) {
    exists i :: 0 <= i < |st.streams| && st.streams[i].caller == Piped
  }

  // ── steps ───────────────────────────────────────────────────────────────

  /** The temp file whose path a new stream is given. */
  function PathOf(c: Config, a: ArchiveState): Option<nat> {
    if c.front.Sync? then a.claim else a.path
  }

  /**
   * `_open_pipe_*` may be entered: by an open synchronous archive, or by any
   * context an asyncio front gave out, be it closed by now or not. On Windows
   * only a path source streams.
   */
  predicate MayBegin(c: Config, a: ArchiveState) {
    && (c.source.OnDisk? || (c.platform == Posix && PathOf(c, a).Some?))
    && match c.front
       case Sync => !a.closed && a.deleting == None
       case Asyncio(entryFirst) => a.entered && (entryFirst ==> a.claim == a.path)
  }

  /**
   * `Spill` does not ask for the closed flag, since `AsyncArchive.__aenter__`
   * does not either. A lookup that comes between the decrement of `DropClaim`
   * and the clearing of `_tempfile` is one that came just before.
   */
  predicate Enabled(c: Config, st: State, step: Step) {
    match step
    case Spill => !c.source.OnDisk? && st.archive.claim == None && st.archive.deleting == None
    case DropClaim =>
      && IsSpilled(st.files, st.archive.claim)
      && (Ordered(c) ==> !BetweenLookupAndClaim(st))
    case UnlinkDropped => IsSpilled(st.files, st.archive.deleting)
    case SetPassword(_) => c.front.Sync?
    case CloseArchive => true
    case Enter => c.front.Asyncio? && (c.source.OnDisk? || st.archive.claim.Some?)
    case Begin(_, r, w) => MayBegin(c, st.archive) && r != w && r !in st.fds && w !in st.fds
    case OfStream(id, a) =>
      id < |st.streams| && CanAct(c.platform, c.capacity, st.streams[id], a, EnvOf(st.files, st.streams[id]))
  }

  function Apply(c: Config, st: State, step: Step): State
    requires Enabled(c, st, step)
  {
    match step
    case Spill =>
      var data := if c.source.FileObject? then st.archive.unread else c.source.data;
      st.(files := st.files + [T.Fresh(data)],
          archive := st.archive.(claim := Some(|st.files|), unread := []))
    case DropClaim =>
      var f := st.archive.claim.value;
      st.(files := st.files[f := T.Dropped(st.files[f])],
          archive := st.archive.(claim := None,
                                 deleting := if T.LastOut(st.files[f]) then Some(f) else st.archive.deleting))
    case UnlinkDropped =>
      var f := st.archive.deleting.value;
      st.(files := st.files[f := T.Deleted(st.files[f])], archive := st.archive.(deleting := None))
    case SetPassword(p) => st.(archive := st.archive.(password := p))
    case CloseArchive => st.(archive := st.archive.(closed := true))
    case Enter => st.(archive := st.archive.(entered := true, path := st.archive.claim))
    case Begin(entry, r, w) =>
      var file := PathOf(c, st.archive);
      var script := c.decode(BackingData(c, st, file), st.archive.password, entry);
      var s := NewStream(entry, st.archive.password, script, file, st.archive.claim, r, w);
      var i := |st.streams|;
      st.(streams := st.streams + [s], fds := st.fds[r := End(i, ReadSide)][w := End(i, WriteSide)])
    case OfStream(id, a) =>
      var s := st.streams[id];
      var moved := st.(streams := st.streams[id := Moved(c.platform, c.capacity, s, a, EnvOf(st.files, s))],
                       files := FilesAfter(st.files, s, a));
      match Closes(s, a)
      case None => moved
      case Some((fd, _)) => KernelClose(moved, fd)
  }

  // ── runs ────────────────────────────────────────────────────────────────

  ghost predicate CanRun(c: Config, st: State, run: seq<Step>)
    decreases |run|
  {
    run == [] || (Enabled(c, st, run[0]) && CanRun(c, Apply(c, st, run[0]), run[1..]))
  }

  ghost function After(c: Config, st: State, run: seq<Step>): State
    requires CanRun(c, st, run)
    decreases |run|
  {
    if run == [] then st else After(c, Apply(c, st, run[0]), run[1..])
  }

  // ── the invariant ───────────────────────────────────────────────────────

  ghost predicate StreamsInv(c: Config, st: State) {
    forall i :: 0 <= i < |st.streams| ==> StreamInv(c.platform, c.capacity, st.streams[i])
  }

  ghost predicate IndexInv(c: Config, st: State) {
    && (st.archive.claim.Some? ==> st.archive.claim.value < |st.files| && st.archive.deleting == None)
    && (st.archive.deleting.Some? ==> st.archive.deleting.value < |st.files|)
    && (st.archive.path.Some? ==> st.archive.path.value < |st.files|)
    && (st.archive.entered && !c.source.OnDisk? ==> st.archive.path.Some?)
    && (forall i :: 0 <= i < |st.streams| && st.streams[i].file.Some? ==> st.streams[i].file.value < |st.files|)
    && (forall i :: 0 <= i < |st.streams| && st.streams[i].claim.Some? ==> st.streams[i].claim.value < |st.files|)
  }

  /** The descriptor table and the open ends of all pipes match one to one. */
  ghost predicate FdTable(fds: map<nat, End>, streams: seq<Stream>) {
    && (forall n :: n in fds ==>
          && fds[n].stream < |streams|
          && FdOf(streams[fds[n].stream], fds[n].side) == n
          && IsOpen(streams[fds[n].stream], fds[n].side))
    && (forall i, side :: 0 <= i < |streams| && IsOpen(streams[i], side) ==>
          FdOf(streams[i], side) in fds && fds[FdOf(streams[i], side)] == End(i, side))
  }

  ghost predicate FdInv(st: State) {
    FdTable(st.fds, st.streams)
  }

  ghost function Claimants(streams: seq<Stream>, f: nat): set<nat> {
    set i | 0 <= i < |streams| && streams[i].claim == Some(f) && HasClaim(streams[i])
  }

  ghost function Deleters(streams: seq<Stream>, f: nat): set<nat> {
    set i | 0 <= i < |streams| && streams[i].claim == Some(f) && streams[i].caller.Deleting?
  }

  function Ours(owner: Option<nat>, f: nat): nat {
    if owner == Some(f) then 1 else 0
  }

  /** How many threads have dropped the last claim on a file and not deleted it yet. */
  ghost function Pending(st: State, f: nat): nat {
    Ours(st.archive.deleting, f) + |Deleters(st.streams, f)|
  }

  /** The count is exactly the claims out on the file; a file without claims is gone or about to go. */
  ghost predicate FileInv(st: State, f: nat)
    requires f < |st.files|
  {
    var file := st.files[f];
    && file.holders == Ours(st.archive.claim, f) + |Claimants(st.streams, f)|
    && (file.onDisk ==> file.holders > 0 || Pending(st, f) > 0)
    && file.armed == file.onDisk
    && file.unlinks == if file.onDisk then 0 else 1
  }

  ghost predicate FilesInv(st: State) {
    forall f :: 0 <= f < |st.files| ==> FileInv(st, f)
  }

  /** Every spilled file holds what the source had to give when it was written. */
  ghost predicate BackingInv(c: Config, st: State) {
    match c.source
    case OnDisk(_) => |st.files| == 0
    case InMemory(data) => forall f :: 0 <= f < |st.files| ==> st.files[f].data == data
    case FileObject(data) =>
      && (|st.files| == 0 ==> st.archive.unread == data)
      && (|st.files| > 0 ==> st.archive.unread == [] && st.files[0].data == data)
      && (forall f :: 1 <= f < |st.files| ==> st.files[f].data == [])
  }

  ghost predicate ScriptInv(c: Config, st: State) {
    forall i :: 0 <= i < |st.streams| ==>
      var s := st.streams[i];
      && s.file.None? == c.source.OnDisk?
      && s.script == c.decode(BackingData(c, st, s.file), s.password, s.entry)
      && s.expected == Some(s.script.size)
  }

  /** What holds in every run whatsoever. */
  ghost predicate Core(c: Config, st: State) {
    && StreamsInv(c, st) && IndexInv(c, st) && FdInv(st) && FilesInv(st)
    && BackingInv(c, st) && ScriptInv(c, st)
  }

  // ── and under the discipline ────────────────────────────────────────────

  /** A claimed file is on disk, and nobody is on the way to delete it. */
  ghost predicate Sheltered(st: State, f: nat)
    requires f < |st.files|
  {
    st.files[f].holders > 0 ==> st.files[f].onDisk && Pending(st, f) == 0
  }

  /** Every stream has its claim on the very file it reads, and never lost it. */
  ghost predicate Secure(st: State) {
    && (forall f :: 0 <= f < |st.files| ==> Sheltered(st, f))
    && (forall i :: 0 <= i < |st.streams| ==>
          !st.streams[i].cut && (HasClaim(st.streams[i]) ==> st.streams[i].claim == st.streams[i].file))
  }

  /** A stream that has looked up and not claimed yet is covered by the archive's own claim. */
  ghost predicate WindowInv(st: State) {
    forall i :: 0 <= i < |st.streams| && st.streams[i].caller == Piped ==>
      st.archive.claim == st.streams[i].claim == st.streams[i].file
  }

  ghost predicate Inv(c: Config, st: State) {
    Core(c, st) && Secure(st) && WindowInv(st)
  }

  /**
   * If this step is a stream's claiming, it is in time: the stream claims the
   * very file it will read (its lookup found the archive's own claim still
   * out), and some claim, the archive's or another stream's, is out on it now.
   */
  predicate InTime(st: State, step: Step) {
    step.OfStream? && step.act == Claim && step.id < |st.streams| ==>
      var s := st.streams[step.id];
      s.claim == s.file && (IsSpilled(st.files, s.claim) ==> st.files[s.claim.value].holders > 0)
  }
}
