/**
 * The asyncio objects on the machine: a session whose archive is driven by an
 * `AsyncArchive`. Its calls are runs of the system with an asyncio front, so
 * what `AsyncRace` says of runs is said of these objects.
 */
module AsyncSessions {
  import opened Base
  import opened StreamSystem
  import opened SystemProofs
  import opened EntryStreams
  import opened ArchiveObject
  import opened AsyncFront
  import opened Sessions
  import Calls
  import G = Guarantees
  import L = Lifecycle
  import Lookup
  import Modes
  import Race = AsyncRace
  import S = Streams
  import T = TempFiles

  /** What holds of every state between calls of such a session: no claim on any file but the one that is read. */
  ghost predicate ClaimsFollowPaths(st: State) {
    && (st.archive.claim == None || st.archive.claim == st.archive.path)
    && forall i :: 0 <= i < |st.streams| ==> st.streams[i].claim == None || st.streams[i].claim == st.streams[i].file
  }

  /** The entries are the listing of that file. */
  predicate ListsIt(eng: L.Engine, data: Bytes, password: Password, entries: seq<Lookup.Entry>) {
    eng(data, password).Success? && entries == Lookup.EntriesOf(eng(data, password).value)
  }

  class AsyncSession {
    const s: Session
    const front: AsyncArchive
    var behind: Bytes  // what the file at `_path` held when the front was entered

    ghost predicate Valid()
      reads this, front, s, s.ar, s.ar.tempfile, s.ar.spilled, s.fds
      reads set h: PipeStream | h in s.handles :: h, set h: PipeStream | h in s.handles :: h.backing
    {
      && s.Valid() && s.c.front.Asyncio? && front.sync == s.ar && front.Valid() && s.ar.password == s.c.password
      && InStep(s.Now())
    }

    /** The front knows what the state has: the path, the claim until the exit, the entries of the file behind. */
    ghost predicate InStep(st: State)
      reads this, front, s.ar
    {
      && ClaimsFollowPaths(st) && (front.located <==> st.archive.entered)
      && (front.located && !s.ar.closed ==> st.archive.claim == st.archive.path)
      && (front.entries != [] ==>
            && BackingData(s.c, st, st.archive.path) == behind
            && ListsIt(s.ar.engine, behind, s.c.password, front.entries))
    }

    constructor (c: Config, engine: L.Engine)
      requires c.front.Asyncio? && c.capacity > 0 && Agrees(c, engine)
      ensures Valid() && fresh(s) && fresh(s.ar) && fresh(s.fds) && fresh(front)
      ensures s.c == c && s.ar.engine == engine && s.run == [] && s.handles == [] && s.ar.spilled == []
      ensures !front.located && !front.closed && front.entries == []
      ensures s.ar.View() == L.New(c.source, c.password)
    {
      var f := new AsyncArchive(c.source, engine, c.password);
      front := f;
      s := new Session.Over(c, f.sync);
      behind := [];
    }

    // ── entering and leaving ──────────────────────────────────────────────

    /** The run of a first `__aenter__`, from the start. */
    lemma EnterRuns(failed: bool) returns (more: seq<Step>)
      requires s.c.front.Asyncio? && s.run == []
      ensures CanRun(s.c, Init(s.c), more)
      ensures var e := After(s.c, Init(s.c), more);
              && e.streams == [] && e.fds == map[] && e.archive.entered && e.archive.password == s.c.password
              && e.archive.closed == failed && e.archive.deleting == None && e.archive.unread == []
              && (if s.c.source.OnDisk? then e.files == [] && e.archive.claim == e.archive.path == None
                  else
                    && e.archive.path == Some(0) && e.archive.claim == (if failed then None else Some(0))
                    && e.files == [if failed then T.Released(T.Fresh(s.c.source.data)) else T.Fresh(s.c.source.data)])
    {
      var c := s.c;
      var st1 := if c.source.OnDisk? then Init(c) else Apply(c, Init(c), Spill);
      var st2 := Apply(c, st1, StreamSystem.Enter);
      var last := Apply(c, st2, CloseArchive);
      more := [];
      assert CanRun(c, if failed then last else st2, []);
      if failed {
        if !c.source.OnDisk? {
          Calls.ReleaseRuns(c, last);
          more := Calls.ReleaseSteps(last);
        }
        StepThenRun(c, st2, CloseArchive, more);
        more := [CloseArchive] + more;
      }
      StepThenRun(c, st1, StreamSystem.Enter, more);
      more := [StreamSystem.Enter] + more;
      if !c.source.OnDisk? {
        StepThenRun(c, Init(c), Spill, more);
        more := [Spill] + more;
      }
    }

    /** The temp file and the fields are as that run has them. */
    twostate lemma EnteredMirrors(new e: State, new failed: bool)
      requires old(s.ar.View()) == L.New(s.c.source, s.c.password) && old(s.ar.spilled) == []
      requires s.ar.Valid() && s.ar.FilesMoved() && s.ar.source == s.c.source
      requires !s.c.source.OnDisk? ==> |s.ar.spilled| == 1
      requires if failed then s.ar.closed && s.ar.tempfile == null
               else !s.ar.closed && (!s.c.source.OnDisk? ==> s.ar.tempfile != null)
      requires s.ar.reader == None && s.ar.password == s.c.password
      requires e.archive.password == s.c.password && e.archive.closed == failed
      requires e.archive.deleting == None && e.archive.unread == []
      requires if s.c.source.OnDisk? then e.files == [] && e.archive.claim == None
               else
                 && e.archive.claim == (if failed then None else Some(0))
                 && e.files == [if failed then T.Released(T.Fresh(s.c.source.data)) else T.Fresh(s.c.source.data)]
      ensures ArchiveMirrors(s.c, e, s.ar)
    {}

    /** From there the session goes on. */
    ghost method Arrive(more: seq<Step>)
      requires s.c.front.Asyncio? && front.sync == s.ar && front.Valid() && s.ar.password == s.c.password
      requires s.c.capacity > 0 && Agrees(s.c, s.ar.engine) && CanRun(s.c, Init(s.c), more) && s.run == []
      requires var e := After(s.c, Init(s.c), more);
               ArchiveMirrors(s.c, e, s.ar) && HandlesMirror(e, s.ar.spilled, s.fds, s.handles) && InStep(e)
      modifies s`run
      ensures Valid() && s.run == more
    {
      assert s.run + more == more;
      s.GoOn(more);
    }

    /** A first `__aenter__`. */
    method Enter(disk: Option<Bytes>) returns (r: Result<(), L.OpenError>)
      requires Valid() && IsStill(s.c, disk) && s.run == [] && !front.located && !front.closed && front.entries == []
      requires s.ar.View() == L.New(s.c.source, s.c.password) && s.ar.spilled == []
      modifies this, front, s`run, s.ar, s.ar.tempfile
      ensures Valid() && s.handles == [] && s.Now().fds == map[]
      ensures front.Ready() && !front.closed
      ensures match Entering(s.ar.engine, old(s.ar.View()), disk)
              case Failure(e) => r == Failure(e) && s.ar.closed && s.ar.tempfile == null
              case Success(list) => r == Success(()) && front.entries == list && !s.ar.closed
      ensures r.Success? && !s.c.source.OnDisk? ==>
                && s.ar.tempfile != null && s.ar.spilled == [s.ar.tempfile]
                && s.ar.tempfile.View() == T.Fresh(s.c.source.data)
      ensures s.ar.tempfile == null || fresh(s.ar.tempfile)
    {
      r := front.Enter(disk);
      behind := s.c.source.data;
      ghost var more := EnterRuns(r.Failure?);
      EnteredMirrors(After(s.c, Init(s.c), more), r.Failure?);
      Arrive(more);
    }

    /** `__aexit__`. */
    method Exit()
      requires Valid() && front.located
      modifies front, s`run, s.ar, s.ar.tempfile
      ensures Valid() && s.GoesOn({}) && front.closed && s.ar.closed && s.ar.tempfile == null
      ensures front.entries == old(front.entries) && front.located && behind == old(behind)
      ensures s.ar.spilled == old(s.ar.spilled) && s.Now().archive.path == old(s.Now()).archive.path
      ensures old(s.ar.tempfile) != null ==> old(s.ar.tempfile).View() == T.Released(old(s.ar.tempfile.View()))
    {
      ghost var more := s.ArchiveCloseRuns();
      front.Exit();
      s.GoOn(more);
    }

    // ── entering streams ──────────────────────────────────────────────────

    /** `open` gave this context out. */
    predicate HandedOut(ctx: StreamCtx)
      reads front
    {
      ctx.index < |front.entries| && ctx.size == front.entries[ctx.index].size
    }

    /** The file at `_path` is on disk, as far as temp files go. */
    ghost predicate PathIsThere()
      requires s.Valid()
      reads s, s.ar, s.ar.tempfile, s.ar.spilled, s.fds
      reads set h: PipeStream | h in s.handles :: h, set h: PipeStream | h in s.handles :: h.backing
    {
      var st := s.Now();
      IsSpilled(st.files, st.archive.path) ==> st.files[st.archive.path.value].onDisk
    }

    lemma MayStream(ctx: StreamCtx, rd: nat, wr: nat)
      requires Valid() && front.located && HandedOut(ctx) && s.AreFree(rd, wr)
      requires s.c.front.entryFirst ==> !s.ar.closed
      requires s.c.source.OnDisk? || s.c.platform == S.Posix
      ensures Enabled(s.c, s.Now(), Begin(ctx.index, rd, wr))
      ensures BackingData(s.c, s.Now(), PathOf(s.c, s.Now().archive)) == behind
      ensures s.c.decode(behind, s.c.password, ctx.index).size == ctx.size
    {
      G.ReachableCore(s.c, s.run);
    }

    /** One more stream, which claims what the archive claims and reads what is at the path. */
    lemma StaysInStep(st: State, e: State)
      requires InStep(st) && e.archive == st.archive && st.archive.entered
      requires |e.streams| == |st.streams| + 1 && e.streams[..|st.streams|] == st.streams
      requires e.streams[|st.streams|].claim == st.archive.claim
      requires e.streams[|st.streams|].file == st.archive.path
      requires |e.files| == |st.files| && forall f :: 0 <= f < |st.files| ==> e.files[f].data == st.files[f].data
      ensures InStep(e)
    {
      forall i | 0 <= i < |e.streams| ensures e.streams[i].claim == None || e.streams[i].claim == e.streams[i].file {
        assert i < |st.streams| ==> e.streams[i] == e.streams[..|st.streams|][i];
      }
    }

    /** A call on a new stream that comes to nothing, and one that the engine grants. */
    lemma RefusalRuns(ctx: StreamCtx, rd: nat, wr: nat) returns (more: seq<Step>)
      requires Valid() && front.located && HandedOut(ctx) && s.AreFree(rd, wr)
      requires s.c.front.entryFirst ==> !s.ar.closed
      requires s.c.source.OnDisk? || s.c.platform == S.Posix
      ensures CanRun(s.c, Init(s.c), s.run + more)
      ensures var st, e := s.Now(), After(s.c, Init(s.c), s.run + more);
              && e.files == st.files && e.fds == st.fds && e.archive == st.archive && InStep(e)
              && HandlesStand(e, s.ar.spilled, s.fds, s.handles + [null])
      ensures rd !in s.fds.owned && wr !in s.fds.owned
    {
      MayStream(ctx, rd, wr);
      more := s.RefusalRuns(ctx.index, rd, wr);
      StaysInStep(s.Now(), After(s.c, Init(s.c), s.run + more));
    }

    lemma GrantRuns(ctx: StreamCtx, rd: nat, wr: nat) returns (more: seq<Step>)
      requires Valid() && front.located && HandedOut(ctx) && s.AreFree(rd, wr) && PathIsThere()
      requires s.c.front.entryFirst ==> !s.ar.closed
      requires s.c.source.OnDisk? || s.c.platform == S.Posix
      ensures CanRun(s.c, Init(s.c), s.run + more)
      ensures var st, e := s.Now(), After(s.c, Init(s.c), s.run + more);
              && e.files == Calls.Claimed(st) && e.fds == Calls.WithPipe(st, rd, wr) && e.archive == st.archive
              && InStep(e) && |e.streams| == |st.streams| + 1 && e.streams[..|st.streams|] == st.streams
              && var x := e.streams[|st.streams|];
              && x.caller == S.Opened(S.Idle) && x.readFd == rd && x.claim == st.archive.claim && x.taken == []
              && x.expected == Some(ctx.size) && x.script == s.c.decode(behind, s.c.password, ctx.index)
      ensures rd !in s.fds.owned && wr !in s.fds.owned
    {
      MayStream(ctx, rd, wr);
      more := s.GrantRuns(ctx.index, rd, wr);
      StaysInStep(s.Now(), After(s.c, Init(s.c), s.run + more));
    }

    method Refuse(ctx: StreamCtx, rd: nat, wr: nat, error: string) returns (r: Result<PipeStream, StreamFailure>)
      requires Valid() && front.located && HandedOut(ctx) && s.AreFree(rd, wr)
      requires s.c.front.entryFirst ==> !s.ar.closed
      requires s.c.source.OnDisk? || s.c.platform == S.Posix
      modifies s, s.ar.tempfile, s.fds
      ensures Valid() && s.GoesOn({}) && s.handles == old(s.handles) + [null] && r == Failure(EngineRefused(error))
    {
      ghost var more := RefusalRuns(ctx, rd, wr);
      r := front.EnterStream(ctx, s.c.platform, s.fds, rd, wr, Failure(error));
      s.RefusedMirrors(After(s.c, Init(s.c), s.run + more));
      s.Admit(null, more);
    }

    method Grant(ctx: StreamCtx, rd: nat, wr: nat) returns (r: Result<PipeStream, StreamFailure>)
      requires Valid() && front.located && HandedOut(ctx) && s.AreFree(rd, wr) && PathIsThere()
      requires s.c.front.entryFirst ==> !s.ar.closed
      requires s.c.source.OnDisk? || s.c.platform == S.Posix
      modifies s, s.ar.tempfile, s.fds
      ensures Valid() && s.GoesOn({rd, wr}) && r.Success? && s.handles == old(s.handles) + [r.value]
      ensures s.Now().files == Calls.Claimed(old(s.Now())) && s.Now().archive == old(s.Now()).archive
      ensures fresh(r.value) && fresh(r.value.backing) && r.value.claim == s.ar.tempfile
      ensures Shows(r.value, Stream(ctx.size, [], Modes.Emits(s.c.decode(behind, s.c.password, ctx.index)), true))
    {
      ghost var st, was := s.Now(), s.fds.owned;
      ghost var more := GrantRuns(ctx, rd, wr);
      ghost var e := After(s.c, Init(s.c), s.run + more);
      var script := s.c.decode(behind, s.c.password, ctx.index);
      r := front.EnterStream(ctx, s.c.platform, s.fds, rd, wr, Success(Modes.Emits(script)));
      s.ClaimMirrorsArchive(e);
      s.Welcome(r.value, st, was, more);
    }

    /** What `_AsyncStreamCtx.__aenter__` comes to; `refusal` is what the engine says, if it does not grant it. */
    function Entered(ctx: StreamCtx, refusal: Option<string>): Result<Record, StreamFailure>
      reads this
    {
      if s.c.platform == S.Windows && !s.c.source.OnDisk? then Failure(Unsupported)
      else if refusal.Some? then Failure(EngineRefused(refusal.value))
      else Success(Stream(ctx.size, [], Modes.Emits(s.c.decode(behind, s.c.password, ctx.index)), true))
    }

    /**
     * Entering a context that `open` gave out, before the exit or after it. The
     * engine cannot open a file that is gone; while it is there, the stream is
     * made just as before the exit, but claims what is left to claim.
     */
    method EnterStream(ctx: StreamCtx, rd: nat, wr: nat, refusal: Option<string>)
      returns (r: Result<PipeStream, StreamFailure>)
      requires Valid() && front.located && HandedOut(ctx) && s.AreFree(rd, wr)
      requires s.c.front.entryFirst ==> !s.ar.closed
      requires refusal.None? ==> PathIsThere()
      modifies s, s.ar.tempfile, s.fds
      ensures Valid() && s.GoesOn({rd, wr}) && s.handles == old(s.handles) + Handle(r)
      ensures Returned(r, Entered(ctx, refusal))
      ensures r.Success? ==>
                var d := s.c.decode(behind, s.c.password, ctx.index);
                && r.value.expected == Some(ctx.size) && !r.value.closed
                && r.value.backing.given == [] && r.value.backing.rest == d.content[..d.breakAt]
      ensures r.Success? ==> r.value.claim == s.ar.tempfile && s.Now().files == Calls.Claimed(old(s.Now()))
      ensures r.Success? ==> s.Now().archive == old(s.Now()).archive
    {
      if s.c.platform == S.Windows && !s.c.source.OnDisk? {
        return Failure(Unsupported);
      }
      match refusal
      case Some(error) => r := Refuse(ctx, rd, wr, error);
      case None => r := Grant(ctx, rd, wr);
    }

    method CloseStream(k: nat)
      requires Valid() && IsOpenHandle(s, k)
      modifies s`run, s.handles[k], s.handles[k].backing, s.handles[k].claim, s.fds
      ensures Valid() && s.GoesOn({}) && s.handles[k].closed && s.Now() == Calls.Shut(old(s.Now()), k)
    {
      ghost var st := s.Now();
      s.CloseStream(k);
      ShutStaysInStep(st, k);
    }

    lemma ShutStaysInStep(st: State, k: nat)
      requires InStep(st) && k < |st.streams|
      ensures InStep(Calls.Shut(st, k))
    {}

    // ── what the race comes to for the objects ────────────────────────────

    lemma BetweenCallsNobodyDeletes(f: nat)
      requires s.Valid() && f < |s.Now().files|
      ensures Sheltered(s.Now(), f)
    {
      var st := s.Now();
      forall i | 0 <= i < |st.streams| ensures !st.streams[i].caller.Deleting? {
        assert HandleMirrors(st, s.ar.spilled, s.fds, s.handles[i], i);
      }
      assert Deleters(st.streams, f) == {};
    }

    /**
     * Between any calls of an undisciplined front: an open stream object is
     * sure of its file, whatever any thread does from now on, if and only if it
     * got a claim when it was entered, or has the user's own file to read.
     */
    lemma OpenStreamIsSafeIff(k: nat)
      requires Valid() && !Ordered(s.c) && IsOpenHandle(s, k)
      ensures Race.Safe(s.c, s.Now(), k) <==> (s.handles[k].claim != null || s.c.source.OnDisk?)
    {
      var st := s.Now();
      s.OpenHandle(k);
      var x := st.streams[k];
      assert x.file.None? == s.c.source.OnDisk?;
      if x.claim == x.file {
        if x.file.Some? {
          BetweenCallsNobodyDeletes(x.file.value);
        }
        forall more | CanRun(s.c, st, more) ensures Race.FindsItsFile(After(s.c, st, more), k) {
          Race.ClaimedFileStays(s.c, st, more, k);
        }
      } else {
        var more := Race.UnclaimedFileCanGo(s.c, st, k);
        assert !Race.FindsItsFile(After(s.c, st, more), k);
      }
    }
  }

  // ── the late entry, on the objects ──────────────────────────────────────

  /** An archive of `bytes` with two entries or more. */
  predicate HasTwo(c: Config, engine: L.Engine) {
    && c.source.InMemory? && c.platform == S.Posix && c.front.Asyncio? && c.capacity > 0
    && engine(c.source.data, c.password).Success? && |engine(c.source.data, c.password).value| >= 2
  }

  lemma TwoEntriesAreListed(c: Config, engine: L.Engine)
    requires HasTwo(c, engine)
    ensures var listing := engine(c.source.data, c.password).value;
            Entering(engine, L.New(c.source, c.password), None) == Success(Lookup.EntriesOf(listing))
  {}

  /** The archive is entered, with its one temp file; the session has made no stream. */
  ghost predicate IsEntered(a: AsyncSession)
    reads a, a.front, a.s, a.s.ar, a.s.ar.tempfile, a.s.ar.spilled, a.s.fds
    reads set h: PipeStream | h in a.s.handles :: h, set h: PipeStream | h in a.s.handles :: h.backing
  {
    && a.Valid() && a.front.Ready() && !a.s.ar.closed && a.s.c.platform == S.Posix && a.s.handles == []
    && |a.front.entries| >= 2 && a.s.Now().fds == map[]
    && a.s.ar.tempfile != null && a.s.ar.spilled == [a.s.ar.tempfile]
    && a.s.ar.tempfile.View() == T.Fresh(a.s.c.source.data)
  }

  method EnterTwo(c: Config, engine: L.Engine) returns (a: AsyncSession)
    requires HasTwo(c, engine) && Agrees(c, engine)
    ensures IsEntered(a) && a.s.c == c && a.s.ar.engine == engine
    ensures fresh(a) && fresh(a.s) && fresh(a.s.ar) && fresh(a.s.fds) && fresh(a.front) && fresh(a.s.ar.tempfile)
  {
    a := new AsyncSession(c, engine);
    TwoEntriesAreListed(c, engine);
    var entered := a.Enter(None);
  }

  /** The one temp file, in that state; and streams that are open, of which the first has a claim on it. */
  ghost predicate IsShared(a: AsyncSession, t: T.TempFile, view: T.Spilled, streams: nat)
    reads a, a.front, a.s, a.s.ar, a.s.ar.tempfile, a.s.ar.spilled, a.s.fds, t
    reads set h: PipeStream | h in a.s.handles :: h, set h: PipeStream | h in a.s.handles :: h.backing
  {
    && a.Valid() && a.front.located && a.s.c.platform == S.Posix && a.s.ar.spilled == [t] && t.View() == view
    && a.s.Now().archive.path == Some(0) && |a.s.handles| == streams && a.s.Now().fds.Keys <= {3, 4, 5, 6}
    && (forall k :: 0 <= k < streams ==>
          IsOpenHandle(a.s, k) && a.s.handles[k].claim == if k == 0 then t else null)
  }

  method TwoContexts(a: AsyncSession) returns (first: StreamCtx, second: StreamCtx)
    requires IsEntered(a)
    ensures a.HandedOut(first) && a.HandedOut(second)
  {
    var one := a.front.Open(Lookup.Position(0));
    var two := a.front.Open(Lookup.Position(1));
    return one.value, two.value;
  }

  /** Contexts for the first two entries, and the first of them entered. */
  method EnterFirst(a: AsyncSession) returns (second: StreamCtx)
    requires IsEntered(a)
    modifies a.s, a.s.ar.tempfile, a.s.fds
    ensures IsShared(a, a.s.ar.tempfile, T.Held(T.Fresh(a.s.c.source.data)), 1) && a.s.Now().fds.Keys <= {3, 4}
    ensures a.HandedOut(second) && a.s.ar.tempfile == old(a.s.ar.tempfile)
    ensures forall h: PipeStream :: h in a.s.handles ==> fresh(h) && fresh(h.backing)
  {
    var first;
    first, second := TwoContexts(a);
    assert a.PathIsThere();
    var r := a.EnterStream(first, 3, 4, None);
  }

  method ExitShared(a: AsyncSession)
    requires a.s.ar.tempfile != null && IsShared(a, a.s.ar.tempfile, T.Held(T.Fresh(a.s.c.source.data)), 1)
    requires a.s.Now().fds.Keys <= {3, 4}
    modifies a.front, a.s`run, a.s.ar, a.s.ar.tempfile
    ensures IsShared(a, old(a.s.ar.tempfile), T.Fresh(a.s.c.source.data), 1) && a.s.Now().fds.Keys <= {3, 4}
    ensures a.s.ar.closed && a.s.ar.tempfile == null && a.front.entries == old(a.front.entries)
  {
    assert IsOpenHandle(a.s, 0);
    a.Exit();
    assert IsOpenHandle(a.s, 0);
  }

  /** After the exit, the second context is entered all the same. */
  method EnterLate(a: AsyncSession, t: T.TempFile, second: StreamCtx)
    requires a.s.c.front == Asyncio(false) && a.HandedOut(second) && a.s.ar.tempfile == null
    requires IsShared(a, t, T.Fresh(a.s.c.source.data), 1) && a.s.Now().fds.Keys <= {3, 4}
    modifies a.s, a.s.fds
    ensures IsShared(a, t, T.Fresh(a.s.c.source.data), 2) && a.s.handles[0] == old(a.s.handles[0])
    ensures fresh(a.s.handles[1]) && fresh(a.s.handles[1].backing)
  {
    assert a.PathIsThere();
    var r := a.EnterStream(second, 5, 6, None);
  }

  /** The second stream is open without a claim, and the file is gone. */
  ghost predicate LeftAlone(a: AsyncSession, t: T.TempFile)
    reads a, a.front, a.s, a.s.ar, a.s.ar.tempfile, a.s.ar.spilled, a.s.fds, t
    reads set h: PipeStream | h in a.s.handles :: h, set h: PipeStream | h in a.s.handles :: h.backing
  {
    && a.Valid() && |a.s.handles| == 2 && a.s.handles[0] != null && a.s.handles[0].closed
    && IsOpenHandle(a.s, 1) && a.s.handles[1].claim == null && a.s.ar.spilled == [t] && !t.onDisk
  }

  /** The first stream is closed, and takes the file along. */
  method CloseFirst(a: AsyncSession, t: T.TempFile)
    requires IsOpenHandle(a.s, 0) && IsShared(a, t, T.Fresh(a.s.c.source.data), 2)
    modifies a.s`run, a.s.handles[0], a.s.handles[0].backing, t, a.s.fds
    ensures LeftAlone(a, t)
  {
    assert IsOpenHandle(a.s, 0) && IsOpenHandle(a.s, 1);
    assert a.s.handles[0] != a.s.handles[1];
    a.CloseStream(0);
    assert t.View() == a.s.Now().files[0];
  }

  /** The three calls after which the second stream is left alone. */
  method ExitEnterClose(a: AsyncSession, second: StreamCtx)
    requires a.s.ar.tempfile != null && a.s.c.front == Asyncio(false) && a.HandedOut(second)
    requires IsShared(a, a.s.ar.tempfile, T.Held(T.Fresh(a.s.c.source.data)), 1) && a.s.Now().fds.Keys <= {3, 4}
    requires IsOpenHandle(a.s, 0)
    modifies a.front, a.s, a.s.ar, a.s.ar.tempfile, a.s.fds, a.s.handles[0], a.s.handles[0].backing
    ensures LeftAlone(a, old(a.s.ar.tempfile))
  {
    var t := a.s.ar.tempfile;
    ExitShared(a);
    EnterLate(a, t, second);
    assert IsOpenHandle(a.s, 0);
    CloseFirst(a, t);
  }

  /**
   * The late entry, call by call on the objects: an archive of `bytes` is
   * entered, a stream opened, the archive exited; a second stream is entered
   * after that and opens just as well; the first is closed. Now the second is
   * open and the file it reads is gone, although each of these calls was made
   * in peace and returned what its user hoped for.
   */
  method LateEntry(c: Config, engine: L.Engine) returns (a: AsyncSession)
    requires HasTwo(c, engine) && Agrees(c, engine) && c.front == Asyncio(false)
    ensures a.Valid() && a.s.c == c && G.IsRun(c, a.s.run) && |a.s.handles| == 2
    ensures a.s.handles[0] != null && a.s.handles[0].closed
    ensures IsOpenHandle(a.s, 1) && a.s.handles[1].claim == null
    ensures |a.s.ar.spilled| == 1 && !a.s.ar.spilled[0].onDisk && !Race.Safe(c, a.s.Now(), 1)
  {
    a := EnterTwo(c, engine);
    var second := EnterFirst(a);
    assert IsOpenHandle(a.s, 0) && a.s.handles[0] in a.s.handles;
    ExitEnterClose(a, second);
    a.OpenStreamIsSafeIff(1);
  }
}
