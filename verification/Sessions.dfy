/**
 * The objects on the machine. A session makes calls on an archive and on the
 * streams it gave out, and keeps the run of the system that these calls are;
 * so what is proved of all runs holds of the classes.
 */
module Sessions {
  import opened Base
  import opened StreamSystem
  import opened SystemProofs
  import T = TempFiles
  import opened EntryStreams
  import opened ArchiveObject
  import Calls
  import G = Guarantees
  import L = Lifecycle
  import Lookup
  import Modes
  import S = Streams

  // ── the archive and its temp files ──────────────────────────────────────

  /** Every object stands for its part of the state: the archive for its fields, each temp file for its own. */
  ghost predicate ArchiveMirrors(c: Config, st: State, ar: Archive)
    reads ar, ar.tempfile, ar.spilled
  {
    && ar.Valid() && ar.source == c.source
    && st.archive.password == ar.password && st.archive.closed == ar.closed && st.archive.unread == ar.unread
    && st.archive.deleting == None
    && |st.files| == |ar.spilled| && (forall f :: 0 <= f < |ar.spilled| ==> ar.spilled[f].View() == st.files[f])
    && (forall f :: 0 <= f < |st.files| && st.files[f].holders > 0 ==> st.files[f].onDisk)
    && (if ar.tempfile == null then st.archive.claim == None
        else IsSpilled(st.files, st.archive.claim) && ar.spilled[st.archive.claim.value] == ar.tempfile)
    && ReadsStill(c, ar.View())
  }

  /** A user's own file is as it was, or gone. */
  predicate IsStill(c: Config, disk: Option<Bytes>) {
    c.source.OnDisk? && disk.Some? ==> disk.value == c.source.data
  }

  /** The engine lists the size it decodes by. */
  ghost predicate Agrees(c: Config, eng: L.Engine) {
    forall data, password, i: nat ::
      eng(data, password).Success? && i < |eng(data, password).value| ==>
        c.decode(data, password, i).size == eng(data, password).value[i].size
  }

  predicate ReadsStill(c: Config, a: L.Fields) {
    a.reader.Some? && c.source.OnDisk? ==> a.reader.value.data == c.source.data
  }

  lemma OpeningKeeps(c: Config, eng: L.Engine, a: L.Fields, disk: Option<Bytes>, b: L.Fields)
    requires a.source == c.source && IsStill(c, disk) && ReadsStill(c, a)
    requires b == L.Listed(eng, a, disk).0 || b == L.Opened(eng, a, disk).0
    ensures ReadsStill(c, b) && b.password == a.password && b.closed == a.closed
  {}

  /** A position and a size out of the listing of an archive that is open. */
  predicate IsListed(a: L.Fields, t: (nat, nat)) {
    a.reader.Some? && t.0 < |a.reader.value.listing| && t.1 == a.reader.value.listing[t.0].size
  }

  /** A new temp file is a spill, and if it was given back at once, a release after it. */
  twostate lemma SpillingRuns(new c: Config, new st: State, ar: Archive) returns (more: seq<Step>)
    requires old(ArchiveMirrors(c, st, ar)) && !BetweenLookupAndClaim(st)
    requires ar.Valid() && ar.FilesMoved() && ar.password == old(ar.password) && ar.closed == old(ar.closed)
    requires old(ar.tempfile) == null && |ar.spilled| != old(|ar.spilled|)
    requires forall t :: t in old(ar.spilled) ==> t.View() == old(t.View())
    requires ReadsStill(c, ar.View())
    ensures CanRun(c, st, more) && ArchiveMirrors(c, After(c, st, more), ar)
    ensures After(c, st, more).streams == st.streams && After(c, st, more).fds == st.fds
    ensures |After(c, st, more).files| >= |st.files|
  {
    var st' := Apply(c, st, Spill);
    more := [];
    if ar.tempfile == null {
      Calls.ReleaseRuns(c, st');
      more := Calls.ReleaseSteps(st');
    }
    StepThenRun(c, st, Spill, more);
    more := [Spill] + more;
  }

  /** What opening did to the temp files is a run of spilling and releasing. */
  twostate lemma OpeningRuns(new c: Config, new st: State, ar: Archive) returns (more: seq<Step>)
    requires old(ArchiveMirrors(c, st, ar)) && !BetweenLookupAndClaim(st)
    requires ar.Valid() && ar.FilesMoved() && ar.password == old(ar.password) && ar.closed == old(ar.closed)
    requires forall t :: t in old(ar.spilled) && t != old(ar.tempfile) ==> t.View() == old(t.View())
    requires ReadsStill(c, ar.View())
    ensures CanRun(c, st, more) && ArchiveMirrors(c, After(c, st, more), ar)
    ensures After(c, st, more).streams == st.streams && After(c, st, more).fds == st.fds
    ensures |After(c, st, more).files| >= |st.files|
  {
    if old(ar.tempfile) == null && |ar.spilled| != old(|ar.spilled|) {
      more := SpillingRuns(c, st, ar);
    } else if old(ar.tempfile) != null && ar.tempfile == null {
      Calls.ReleaseRuns(c, st);
      more := Calls.ReleaseSteps(st);
    } else {
      more := [];
    }
  }

  // ── the streams ─────────────────────────────────────────────────────────

  /** A file object stands for a stream its user has open or has closed; a refused call left none. */
  ghost predicate HandleMirrors(st: State, spilled: seq<T.TempFile>, fds: Descriptors, h: PipeStream?, i: nat)
    requires i < |st.streams|
    reads if h == null then {} else {h, h.backing}
  {
    var s := st.streams[i];
    if h == null then s.caller == S.Done(false)
    else
      && h.Valid() && h.table == fds && h.fd == s.readFd && h.expected == s.expected
      && (if h.claim == null then s.claim == None
          else s.claim.Some? && s.claim.value < |spilled| && spilled[s.claim.value] == h.claim)
      && s.caller == (if h.closed then S.Done(true) else S.Opened(S.Idle))
      && (!h.closed ==> h.backing.given == s.taken && h.backing.given + h.backing.rest == Modes.Emits(s.script))
  }

  ghost predicate HandlesStand(st: State, spilled: seq<T.TempFile>, fds: Descriptors, handles: seq<PipeStream?>)
    reads set h: PipeStream | h in handles :: h, set h: PipeStream | h in handles :: h.backing
  {
    && |handles| == |st.streams|
    && (forall i :: 0 <= i < |handles| ==> HandleMirrors(st, spilled, fds, handles[i], i))
    && (forall i, j :: 0 <= i < j < |handles| && handles[i] != null && handles[j] != null ==>
          handles[i] != handles[j] && handles[i].backing != handles[j].backing)
  }

  /** The descriptors in Python's care are the read ends of the streams that are open, and no others. */
  ghost predicate OwnedByHandles(fds: Descriptors, handles: seq<PipeStream?>)
    reads fds, set h: PipeStream | h in handles :: h
  {
    forall n :: n in fds.owned <==> exists h: PipeStream :: h in handles && Owns(h, n)
  }

  ghost predicate HandlesMirror(st: State, spilled: seq<T.TempFile>, fds: Descriptors, handles: seq<PipeStream?>)
    reads fds, set h: PipeStream | h in handles :: h, set h: PipeStream | h in handles :: h.backing
  {
    HandlesStand(st, spilled, fds, handles) && OwnedByHandles(fds, handles)
  }

  predicate Owns(h: PipeStream, n: nat)
    reads h
  {
    !h.closed && h.fd == n
  }

  /** Between calls nobody stands between looking up and claiming. */
  lemma NobodyInTheWindow(st: State, spilled: seq<T.TempFile>, fds: Descriptors, handles: seq<PipeStream?>)
    requires HandlesStand(st, spilled, fds, handles)
    ensures !BetweenLookupAndClaim(st)
  {
    forall i | 0 <= i < |st.streams| ensures st.streams[i].caller != S.Piped {
      assert HandleMirrors(st, spilled, fds, handles[i], i);
    }
  }

  /** What the archive does to itself is nothing to the streams. */
  lemma HandlesStay(st: State, st': State, spilled: seq<T.TempFile>, spilled': seq<T.TempFile>, fds: Descriptors,
                    handles: seq<PipeStream?>)
    requires HandlesMirror(st, spilled, fds, handles)
    requires st'.streams == st.streams && spilled <= spilled'
    ensures HandlesMirror(st', spilled', fds, handles)
  {
    forall i | 0 <= i < |handles| ensures HandleMirrors(st', spilled', fds, handles[i], i) {
      assert HandleMirrors(st, spilled, fds, handles[i], i);
    }
  }

  lemma NothingOwnsNothing(fds: Descriptors, handles: seq<PipeStream?>)
    requires OwnedByHandles(fds, handles)
    ensures OwnedByHandles(fds, handles + [null])
  {
    assert forall h: PipeStream :: h in handles + [null] <==> h in handles;
  }

  lemma NewHandleOwns(fds: Descriptors, was: set<nat>, handles: seq<PipeStream?>, h: PipeStream)
    requires forall n :: n in was <==> exists g: PipeStream :: g in handles && Owns(g, n)
    requires fds.owned == was + {h.fd} && !h.closed
    ensures OwnedByHandles(fds, handles + [h])
  {
    assert forall g: PipeStream :: g in handles + [h] <==> g in handles || g == h;
    assert Owns(h, h.fd);
  }

  lemma ShutHandleOwns(fds: Descriptors, was: set<nat>, handles: seq<PipeStream?>, h: PipeStream)
    requires forall n :: n in was <==> n == h.fd || exists g: PipeStream :: g in handles && g != h && Owns(g, n)
    requires forall g: PipeStream :: g in handles && g != h && !g.closed ==> g.fd != h.fd
    requires fds.owned == was - {h.fd} && h.closed
    ensures OwnedByHandles(fds, handles)
  {}

  lemma OpenEndIsOurs(c: Config, st: State, k: nat)
    requires Core(c, st) && k < |st.streams| && st.streams[k].caller.Opened?
    ensures S.StreamInv(c.platform, c.capacity, st.streams[k])
    ensures var fd := st.streams[k].readFd; fd in st.fds && st.fds[fd] == End(k, S.ReadSide)
  {
    assert S.StreamInv(c.platform, c.capacity, st.streams[k]);
    assert IsOpen(st.streams[k], S.ReadSide) && FdOf(st.streams[k], S.ReadSide) == st.streams[k].readFd;
  }

  lemma ClaimIsOut(c: Config, st: State, k: nat, f: nat)
    requires Core(c, st) && k < |st.streams| && f < |st.files|
    requires st.streams[k].claim == Some(f) && st.streams[k].caller.Opened?
    ensures st.files[f].holders > 0
  {
    assert FileInv(st, f) && k in Claimants(st.streams, f);
  }

  lemma TwoClaimsOut(c: Config, st: State, k: nat, f: nat)
    requires Core(c, st) && k < |st.streams| && f < |st.files| && st.archive.claim == Some(f)
    requires st.streams[k].claim == Some(f) && st.streams[k].caller.Opened?
    ensures st.files[f].holders > 1
  {
    assert FileInv(st, f) && k in Claimants(st.streams, f);
  }

  /** One more stream, or the trace of one that was refused. */
  lemma HandleJoins(st: State, st': State, spilled: seq<T.TempFile>, fds: Descriptors, handles: seq<PipeStream?>,
                    h: PipeStream?)
    requires HandlesStand(st, spilled, fds, handles)
    requires |st'.streams| == |st.streams| + 1 && st'.streams[..|st.streams|] == st.streams
    requires HandleMirrors(st', spilled, fds, h, |handles|)
    requires h != null ==> h !in handles && forall g: PipeStream :: g in handles ==> g.backing != h.backing
    ensures HandlesStand(st', spilled, fds, handles + [h])
  {
    var joined := handles + [h];
    forall i | 0 <= i < |joined| ensures HandleMirrors(st', spilled, fds, joined[i], i) {
      if i < |handles| {
        assert HandleMirrors(st, spilled, fds, handles[i], i);
        assert st'.streams[i] == st'.streams[..|st.streams|][i];
      }
    }
  }

  /** One stream moves, and its handle with it. */
  lemma HandleMoves(st: State, st': State, spilled: seq<T.TempFile>, fds: Descriptors, handles: seq<PipeStream?>,
                    k: nat)
    requires OnlyMoved(st, st', k) && |handles| == |st.streams| && k < |handles|
    requires forall i :: 0 <= i < |handles| && i != k ==> HandleMirrors(st, spilled, fds, handles[i], i)
    requires HandleMirrors(st', spilled, fds, handles[k], k)
    requires forall i, j :: 0 <= i < j < |handles| && handles[i] != null && handles[j] != null ==>
               handles[i] != handles[j] && handles[i].backing != handles[j].backing
    ensures HandlesStand(st', spilled, fds, handles)
  {
    forall i | 0 <= i < |handles| ensures HandleMirrors(st', spilled, fds, handles[i], i) {
      if i != k {
        assert HandleMirrors(st, spilled, fds, handles[i], i) && st'.streams[i] == st.streams[i];
      }
    }
  }

  // ── what the user has to show for it ────────────────────────────────────

  /** A stream as its user knows it: the listed size, the bytes it gave, those it has still to give. */
  datatype Record = Refused | Stream(size: nat, given: Bytes, rest: Bytes, open: bool)

  /** The file object is in that state; a refused call left none. */
  ghost predicate Shows(h: PipeStream?, x: Record)
    reads if h == null then {} else {h, h.backing}
  {
    if h == null then x == Refused
    else
      x.Stream? && h.expected == Some(x.size) && h.closed == !x.open
      && h.backing.given == x.given && h.backing.rest == x.rest
  }

  /** The bytes behind an archive that is open. */
  function DataOf(a: L.Fields): Bytes {
    if a.reader.Some? then a.reader.value.data else []
  }

  /** A stream at its start, with all that the engine makes of the entry before it. */
  function Begun(c: Config, a: L.Fields, t: (nat, nat)): Record {
    Stream(t.1, [], Modes.Emits(c.decode(DataOf(a), a.password, t.0)), true)
  }

  /** What `_open_pipe` comes to, when `refusal` is what the engine has to say against it. */
  function Shaken(c: Config, a: L.Fields, t: (nat, nat), refusal: Option<string>): Result<Record, StreamFailure> {
    if c.platform == S.Windows && !c.source.OnDisk? then Failure(Unsupported)
    else if refusal.Some? then Failure(EngineRefused(refusal.value))
    else Success(Begun(c, a, t))
  }

  /** The stream has before it all that the engine emits of the entry the reference means, and its listed size. */
  ghost predicate IsStreamOf(c: Config, a: L.Fields, ref: Lookup.Ref, s: PipeStream)
    requires a.reader.Some?
    reads s, s.backing
  {
    exists i :: 0 <= i < |a.reader.value.listing|
             && Lookup.Means(Lookup.EntriesOf(a.reader.value.listing), ref, i)
             && s.expected == Some(a.reader.value.listing[i].size) && s.backing.given == [] && !s.closed
             && var d := c.decode(a.reader.value.data, a.password, i);
                s.backing.rest == d.content[..d.breakAt]
  }

  lemma BegunIsStreamOf(c: Config, a: L.Fields, ref: Lookup.Ref, t: (nat, nat), s: PipeStream)
    requires IsListed(a, t) && IsPlace(Lookup.EntriesOf(a.reader.value.listing), ref, Success(t))
    requires Shows(s, Begun(c, a, t))
    ensures IsStreamOf(c, a, ref, s)
  {}

  /** What `open(ref, stream=True)` comes to. */
  function Asked(c: Config, eng: L.Engine, a: L.Fields, ref: Lookup.Ref, disk: Option<Bytes>, refusal: Option<string>)
    : Result<Record, StreamFailure>
  {
    match Found(eng, a, ref, disk)
    case Failure(e) => Failure(e)
    case Success(t) => Shaken(c, L.Listed(eng, a, disk).0, t, refusal)
  }

  /** The call returned that, and if it is a stream, a new one. */
  twostate predicate Returned(new r: Result<PipeStream, StreamFailure>, x: Result<Record, StreamFailure>)
    reads if r.Success? then {r.value, r.value.backing} else {}
  {
    match x
    case Failure(e) => r == Failure(e)
    case Success(record) => r.Success? && fresh(r.value) && fresh(r.value.backing) && Shows(r.value, record)
  }

  lemma RestAfter(data: Bytes, rest: Bytes, before: Bytes)
    requires data + rest == before
    ensures rest == before[|data|..]
  {}

  /** What an `open` adds to the handles; nothing if it never got to make a pipe. */
  function Handle(r: Result<PipeStream, StreamFailure>): seq<PipeStream?> {
    match r
    case Success(stream) => [stream]
    case Failure(e) => if e.EngineRefused? then [null] else []
  }

  class Session {
    const c: Config
    const ar: Archive
    const fds: Descriptors
    var handles: seq<PipeStream?>  // one for each `open` that got as far as its pipe; null if it was refused
    ghost var run: seq<Step>

    ghost predicate Valid()
      reads this, ar, ar.tempfile, ar.spilled, fds
      reads set h: PipeStream | h in handles :: h, set h: PipeStream | h in handles :: h.backing
    {
      && c.capacity > 0 && Agrees(c, ar.engine) && CanRun(c, Init(c), run)
      && ArchiveMirrors(c, Now(), ar) && HandlesMirror(Now(), ar.spilled, fds, handles)
    }

    ghost function Now(): State
      requires CanRun(c, Init(c), run)
      reads this
    {
      After(c, Init(c), run)
    }

    /** The run goes on; of new things there are only temp files just made, and perhaps two descriptors. */
    twostate predicate GoesOn(new numbers: set<nat>)
      requires old(CanRun(c, Init(c), run)) && CanRun(c, Init(c), run)
      reads this, ar
    {
      && old(run) <= run && Now().fds.Keys <= old(Now().fds.Keys) + numbers
      && forall t :: t in ar.spilled ==> t in old(ar.spilled) || fresh(t)
    }

    constructor (c: Config, engine: L.Engine)
      requires c.capacity > 0 && Agrees(c, engine)
      ensures Valid() && this.c == c && run == [] && fresh(ar) && fresh(fds) && handles == [] && ar.spilled == []
      ensures ar.engine == engine && ar.View() == L.New(c.source, c.password)
    {
      this.c := c;
      ar := new Archive(c.source, engine, c.password);
      fds := new Descriptors();
      handles, run := [], [];
    }

    /** A session over an archive that is new. */
    constructor Over(c: Config, ar: Archive)
      requires c.capacity > 0 && Agrees(c, ar.engine)
      requires ar.Valid() && ar.View() == L.New(c.source, c.password) && ar.spilled == []
      ensures Valid() && this.c == c && this.ar == ar && run == [] && fresh(fds) && handles == []
    {
      this.c, this.ar := c, ar;
      fds := new Descriptors();
      handles, run := [], [];
    }

    ghost method GoOn(more: seq<Step>)
      requires c.capacity > 0 && Agrees(c, ar.engine) && CanRun(c, Init(c), run + more)
      requires ArchiveMirrors(c, After(c, Init(c), run + more), ar)
      requires HandlesMirror(After(c, Init(c), run + more), ar.spilled, fds, handles)
      modifies this`run
      ensures Valid() && run == old(run) + more
    {
      run := run + more;
    }

    // ── calls on the archive ──────────────────────────────────────────────

    /** When the archive has been opened, or not, and nothing else was touched, the run goes on accordingly. */
    twostate lemma OpeningGoesOn() returns (more: seq<Step>)
      requires old(Valid()) && run == old(run) && HandlesMirror(Now(), old(ar.spilled), fds, handles)
      requires ar.Valid() && ar.FilesMoved() && ar.password == old(ar.password) && ar.closed == old(ar.closed)
      requires forall t :: t in old(ar.spilled) && t != old(ar.tempfile) ==> t.View() == old(t.View())
      requires ReadsStill(c, ar.View())
      ensures CanRun(c, Init(c), run + more)
      ensures ArchiveMirrors(c, After(c, Init(c), run + more), ar)
      ensures HandlesMirror(After(c, Init(c), run + more), ar.spilled, fds, handles)
      ensures After(c, Init(c), run + more).fds == Now().fds
    {
      NobodyInTheWindow(Now(), old(ar.spilled), fds, handles);
      more := OpeningRuns(c, Now(), ar);
      RunsCompose(c, Init(c), run, more);
      HandlesStay(Now(), After(c, Now(), more), old(ar.spilled), ar.spilled, fds, handles);
    }

    /** Any call that needs the archive open. */
    method Use(disk: Option<Bytes>) returns (r: Result<L.Reader, L.OpenError>)
      requires Valid() && IsStill(c, disk)
      modifies this`run, ar, ar.tempfile
      ensures Valid() && GoesOn({})
      ensures (ar.View(), r) == L.Opened(ar.engine, old(ar.View()), disk)
    {
      ghost var before := ar.View();
      r := ar.Open(disk);
      OpeningKeeps(c, ar.engine, before, disk, ar.View());
      ghost var more := OpeningGoesOn();
      GoOn(more);
    }

    /** Any call that needs the entries. */
    method List(disk: Option<Bytes>) returns (r: Result<seq<Lookup.Entry>, L.OpenError>)
      requires Valid() && IsStill(c, disk)
      modifies this`run, ar, ar.tempfile
      ensures Valid() && GoesOn({})
      ensures (ar.View(), r) == L.Listed(ar.engine, old(ar.View()), disk)
    {
      ghost var before := ar.View();
      r := ar.Listing(disk);
      OpeningKeeps(c, ar.engine, before, disk, ar.View());
      ghost var more := OpeningGoesOn();
      GoOn(more);
    }

    method SetPassword(password: Password)
      requires Valid() && c.front.Sync?
      modifies this`run, ar
      ensures Valid() && GoesOn({}) && ar.View() == L.WithPassword(old(ar.View()), password)
    {
      ghost var st := Now();
      ar.SetPassword(password);
      RunThenStep(c, Init(c), run, StreamSystem.SetPassword(password));
      HandlesStay(st, Apply(c, st, StreamSystem.SetPassword(password)), ar.spilled, ar.spilled, fds, handles);
      GoOn([StreamSystem.SetPassword(password)]);
    }

    /** Closing the archive: the flag, and then the claim, if it has one. */
    lemma ArchiveCloseRuns() returns (more: seq<Step>)
      requires Valid()
      ensures CanRun(c, Init(c), run + more)
      ensures var shut := Now().(archive := Now().archive.(closed := true));
              After(c, Init(c), run + more) == if ar.tempfile == null then shut else Calls.LetGo(shut)
      ensures HandlesMirror(After(c, Init(c), run + more), ar.spilled, fds, handles)
    {
      var st := Now();
      NobodyInTheWindow(st, ar.spilled, fds, handles);
      var shut := Apply(c, st, CloseArchive);
      more := [];
      if ar.tempfile != null {
        Calls.ReleaseRuns(c, shut);
        more := Calls.ReleaseSteps(shut);
      }
      StepThenRun(c, st, CloseArchive, more);
      RunsCompose(c, Init(c), run, [CloseArchive] + more);
      HandlesStay(st, After(c, shut, more), ar.spilled, ar.spilled, fds, handles);
      more := [CloseArchive] + more;
    }

    method Close()
      requires Valid()
      modifies this`run, ar, ar.tempfile
      ensures Valid() && GoesOn({}) && ar.View() == L.Closed(old(ar.View()))
    {
      ghost var more := ArchiveCloseRuns();
      ar.Close();
      GoOn(more);
    }

    // ── opening a stream ──────────────────────────────────────────────────

    /** The first half of `open(ref, stream=True)`. */
    method Find(ref: Lookup.Ref, disk: Option<Bytes>) returns (r: Result<(nat, nat), StreamFailure>)
      requires Valid() && IsStill(c, disk)
      modifies this`run, ar, ar.tempfile
      ensures Valid() && GoesOn({}) && Now().fds == old(Now()).fds
      ensures ar.View() == L.Listed(ar.engine, old(ar.View()), disk).0
      ensures r == Found(ar.engine, old(ar.View()), ref, disk)
      ensures ar.tempfile == null || ar.tempfile == old(ar.tempfile) || fresh(ar.tempfile)
      ensures r.Success? ==>
                && IsListed(ar.View(), r.value)
                && IsPlace(Lookup.EntriesOf(ar.reader.value.listing), ref, Success(r.value))
      ensures r.Failure? ==> !r.error.EngineRefused?
    {
      ghost var before := ar.View();
      r := ar.Locate(ref, disk);
      OpeningKeeps(c, ar.engine, before, disk, ar.View());
      ghost var more := OpeningGoesOn();
      GoOn(more);
    }

    /** `os.pipe`, or the compiled module, comes up with numbers that nobody uses. */
    ghost predicate AreFree(rd: nat, wr: nat)
      requires CanRun(c, Init(c), run)
      reads this
    {
      rd != wr && rd !in Now().fds && wr !in Now().fds
    }

    /** What is in Python's care is in use. */
    lemma OwnedIsOpen(n: nat)
      requires Valid() && n in fds.owned
      ensures n in Now().fds
    {
      var st := Now();
      G.ReachableCore(c, run);
      var h: PipeStream :| h in handles && Owns(h, n);
      var i :| 0 <= i < |handles| && handles[i] == h;
      assert HandleMirrors(st, ar.spilled, fds, handles[i], i);
      assert S.StreamInv(c.platform, c.capacity, st.streams[i]);
      assert IsOpen(st.streams[i], S.ReadSide) && FdOf(st.streams[i], S.ReadSide) == n;
    }

    /** An archive that is open can be streamed from, where the platform can do it at all. */
    lemma MayStream(t: (nat, nat), rd: nat, wr: nat)
      requires c.front.Sync? && Valid() && IsListed(ar.View(), t) && AreFree(rd, wr)
      requires c.source.OnDisk? || c.platform == S.Posix
      ensures Enabled(c, Now(), Begin(t.0, rd, wr))
      ensures BackingData(c, Now(), Now().archive.claim) == ar.reader.value.data
      ensures c.decode(ar.reader.value.data, ar.password, t.0).size == t.1
    {}

    lemma NumbersAreNotOwned(rd: nat, wr: nat)
      requires Valid() && AreFree(rd, wr)
      ensures rd !in fds.owned && wr !in fds.owned
    {
      if rd in fds.owned { OwnedIsOpen(rd); }
      if wr in fds.owned { OwnedIsOpen(wr); }
    }

    /** A call on a new stream that comes to nothing. */
    lemma RefusalRuns(entry: nat, rd: nat, wr: nat) returns (more: seq<Step>)
      requires Valid() && Enabled(c, Now(), Begin(entry, rd, wr))
      ensures CanRun(c, Init(c), run + more)
      ensures var st, e := Now(), After(c, Init(c), run + more);
              && e.files == st.files && e.fds == st.fds && e.archive == st.archive
              && |e.streams| == |st.streams| + 1 && e.streams[..|st.streams|] == st.streams
              && e.streams[|st.streams|].claim == st.archive.claim
              && e.streams[|st.streams|].file == PathOf(c, st.archive)
              && HandlesStand(e, ar.spilled, fds, handles + [null])
      ensures rd !in fds.owned && wr !in fds.owned
    {
      var st := Now();
      NumbersAreNotOwned(rd, wr);
      Calls.FailRuns(c, st, entry, rd, wr, S.OpenErr);
      more := Calls.CallSteps(st, entry, rd, wr, Calls.Refusal(c.platform, S.OpenErr));
      RunsCompose(c, Init(c), run, more);
      HandleJoins(st, After(c, st, more), ar.spilled, fds, handles, null);
    }

    /** A claim laid on the archive's temp file is one laid on the file it stands for. */
    twostate lemma ClaimMirrorsArchive(new e: State)
      requires old(Valid()) && unchanged(this) && unchanged(ar) && ar.Valid()
      requires e.archive == Now().archive && e.files == Calls.Claimed(Now())
      requires ar.tempfile != null ==> ar.tempfile.View() == T.Held(old(ar.tempfile.View()))
      requires forall t :: t in ar.spilled && t != ar.tempfile ==> t.View() == old(t.View())
      ensures ArchiveMirrors(c, e, ar)
    {}

    /** And one laid and given back leaves everything as it was. */
    twostate lemma NothingMirrorsArchive(new e: State)
      requires old(Valid()) && unchanged(this) && unchanged(ar) && ar.Valid()
      requires e.archive == Now().archive && e.files == Now().files
      requires forall t :: t in ar.spilled ==> t.View() == old(t.View())
      ensures ArchiveMirrors(c, e, ar)
    {}

    /** A refused call leaves the objects as they were. */
    twostate lemma RefusedMirrors(new e: State)
      requires old(Valid()) && unchanged(this) && unchanged(ar) && ar.Valid()
      requires e.archive == Now().archive && e.files == Now().files
      requires old(HandlesStand(e, ar.spilled, fds, handles + [null])) && fds.owned == old(fds.owned)
      requires forall t :: t in ar.spilled ==> t.View() == old(t.View())
      requires forall h: PipeStream :: h in handles ==> unchanged(h) && unchanged(h.backing)
      ensures ArchiveMirrors(c, e, ar) && HandlesStand(e, ar.spilled, fds, handles + [null])
      ensures OwnedByHandles(fds, handles + [null])
    {
      NothingMirrorsArchive(e);
      NothingOwnsNothing(fds, handles);
    }

    /** Enters what a call came to. */
    method Admit(h: PipeStream?, ghost more: seq<Step>)
      requires c.capacity > 0 && Agrees(c, ar.engine) && CanRun(c, Init(c), run + more)
      requires ArchiveMirrors(c, After(c, Init(c), run + more), ar)
      requires HandlesStand(After(c, Init(c), run + more), ar.spilled, fds, handles + [h])
      requires OwnedByHandles(fds, handles + [h])
      modifies this
      ensures Valid() && run == old(run) + more && handles == old(handles) + [h]
    {
      handles := handles + [h];
      run := run + more;
    }

    /** Enters a new stream, with the descriptor that is its own. */
    method Welcome(h: PipeStream, ghost st: State, ghost was: set<nat>, ghost more: seq<Step>)
      requires c.capacity > 0 && Agrees(c, ar.engine) && CanRun(c, Init(c), run + more)
      requires ArchiveMirrors(c, After(c, Init(c), run + more), ar)
      requires HandlesStand(st, ar.spilled, fds, handles)
      requires var e := After(c, Init(c), run + more);
               && |e.streams| == |st.streams| + 1 && e.streams[..|st.streams|] == st.streams
               && HandleMirrors(e, ar.spilled, fds, h, |handles|)
      requires h !in handles && forall g: PipeStream :: g in handles ==> g.backing != h.backing
      requires forall n :: n in was <==> exists g: PipeStream :: g in handles && Owns(g, n)
      requires fds.owned == was + {h.fd} && !h.closed
      modifies this
      ensures Valid() && run == old(run) + more && handles == old(handles) + [h]
    {
      HandleJoins(st, After(c, Init(c), run + more), ar.spilled, fds, handles, h);
      NewHandleOwns(fds, was, handles, h);
      Admit(h, more);
    }

    /** The second half, when the engine refuses: the pipe comes and goes, and so does the claim. */
    method Refuse(t: (nat, nat), rd: nat, wr: nat, error: string) returns (r: Result<PipeStream, StreamFailure>)
      requires c.front.Sync? && Valid() && IsListed(ar.View(), t) && AreFree(rd, wr)
      requires c.source.OnDisk? || c.platform == S.Posix
      modifies this, ar.tempfile, fds
      ensures Valid() && GoesOn({}) && handles == old(handles) + [null] && ar.View() == old(ar.View())
      ensures Now().files == old(Now()).files && Now().fds == old(Now()).fds
      ensures r == Failure(EngineRefused(error))
    {
      MayStream(t, rd, wr);
      ghost var more := RefusalRuns(t.0, rd, wr);
      r := ar.OpenPipe(t.1, c.platform, fds, rd, wr, Failure(error));
      RefusedMirrors(After(c, Init(c), run + more));
      Admit(null, more);
    }

    /** A call on a new stream that the engine grants; the file at the path has to be there for that. */
    lemma GrantRuns(entry: nat, rd: nat, wr: nat) returns (more: seq<Step>)
      requires Valid() && Enabled(c, Now(), Begin(entry, rd, wr))
      requires var path := PathOf(c, Now().archive); IsSpilled(Now().files, path) ==> Now().files[path.value].onDisk
      ensures CanRun(c, Init(c), run + more)
      ensures var st, e := Now(), After(c, Init(c), run + more);
              && e.files == Calls.Claimed(st) && e.fds == Calls.WithPipe(st, rd, wr) && e.archive == st.archive
              && |e.streams| == |st.streams| + 1 && e.streams[..|st.streams|] == st.streams
              && var x := e.streams[|st.streams|];
              && x.caller == S.Opened(S.Idle) && x.readFd == rd && x.claim == st.archive.claim && x.taken == []
              && x.file == PathOf(c, st.archive) && x.expected == Some(x.script.size)
              && x.script == c.decode(BackingData(c, st, x.file), st.archive.password, entry)
      ensures rd !in fds.owned && wr !in fds.owned
    {
      var st := Now();
      NumbersAreNotOwned(rd, wr);
      Calls.OpenRuns(c, st, entry, rd, wr);
      more := Calls.CallSteps(st, entry, rd, wr, Calls.GRANT);
      RunsCompose(c, Init(c), run, more);
    }

    /** The second half, when the engine can open the archive: a stream with a claim of its own. */
    method Grant(t: (nat, nat), rd: nat, wr: nat) returns (r: Result<PipeStream, StreamFailure>)
      requires c.front.Sync? && Valid() && IsListed(ar.View(), t) && AreFree(rd, wr)
      requires c.source.OnDisk? || c.platform == S.Posix
      modifies this, ar.tempfile, fds
      ensures Valid() && GoesOn({rd, wr}) && ar.View() == old(ar.View())
      ensures Returned(r, Success(Begun(c, ar.View(), t))) && handles == old(handles) + [r.value]
      ensures Now().files == Calls.Claimed(old(Now())) && Now().fds == Calls.WithPipe(old(Now()), rd, wr)
    {
      ghost var st, was := Now(), fds.owned;
      MayStream(t, rd, wr);
      ghost var more := GrantRuns(t.0, rd, wr);
      var script := c.decode(ar.reader.value.data, ar.password, t.0);
      r := ar.OpenPipe(t.1, c.platform, fds, rd, wr, Success(Modes.Emits(script)));
      ClaimMirrorsArchive(After(c, Init(c), run + more));
      Welcome(r.value, st, was, more);
    }

    /** `_open_pipe`; `refusal` is what the engine says in the handshake, if it does not grant it. */
    method OpenPipe(t: (nat, nat), rd: nat, wr: nat, refusal: Option<string>)
      returns (r: Result<PipeStream, StreamFailure>)
      requires c.front.Sync? && Valid() && IsListed(ar.View(), t) && AreFree(rd, wr)
      modifies this, ar.tempfile, fds
      ensures Valid() && GoesOn({rd, wr}) && ar.View() == old(ar.View())
      ensures Returned(r, Shaken(c, ar.View(), t, refusal)) && handles == old(handles) + Handle(r)
    {
      if c.platform == S.Windows && !c.source.OnDisk? {
        return Failure(Unsupported);
      }
      match refusal
      case Some(error) => r := Refuse(t, rd, wr, error);
      case None => r := Grant(t, rd, wr);
    }

    method OpenFound(ref: Lookup.Ref, t: (nat, nat), rd: nat, wr: nat, refusal: Option<string>)
      returns (r: Result<PipeStream, StreamFailure>)
      requires c.front.Sync? && Valid() && IsListed(ar.View(), t) && AreFree(rd, wr)
      requires IsPlace(Lookup.EntriesOf(ar.reader.value.listing), ref, Success(t))
      modifies this, ar.tempfile, fds
      ensures Valid() && GoesOn({rd, wr}) && ar.View() == old(ar.View())
      ensures Returned(r, Shaken(c, ar.View(), t, refusal)) && handles == old(handles) + Handle(r)
      ensures r.Success? ==> IsStreamOf(c, ar.View(), ref, r.value)
    {
      r := OpenPipe(t, rd, wr, refusal);
      if r.Success? {
        BegunIsStreamOf(c, ar.View(), ref, t, r.value);
      }
    }

    /** `open(ref, stream=True)`. */
    method OpenStream(ref: Lookup.Ref, disk: Option<Bytes>, rd: nat, wr: nat, refusal: Option<string>)
      returns (r: Result<PipeStream, StreamFailure>)
      requires c.front.Sync? && Valid() && IsStill(c, disk) && AreFree(rd, wr)
      modifies this, ar, ar.tempfile, fds
      ensures Valid() && GoesOn({rd, wr}) && ar.View() == L.Listed(ar.engine, old(ar.View()), disk).0
      ensures Returned(r, Asked(c, ar.engine, old(ar.View()), ref, disk, refusal))
      ensures r.Success? ==> ar.reader.Some? && IsStreamOf(c, ar.View(), ref, r.value)
      ensures handles == old(handles) + Handle(r)
    {
      var found := Find(ref, disk);
      if found.Failure? {
        return Failure(found.error);
      }
      r := OpenFound(ref, found.value, rd, wr, refusal);
    }

    // ── calls on a stream ─────────────────────────────────────────────────

    /** The stream behind an open handle, as the system knows it. */
    lemma OpenHandle(k: nat)
      requires Valid() && k < |handles| && handles[k] != null && !handles[k].closed
      ensures var st := Now(); var s := st.streams[k];
              && Core(c, st) && S.StreamInv(c.platform, c.capacity, s)
              && HandleMirrors(st, ar.spilled, fds, handles[k], k)
              && s.readFd in st.fds && st.fds[s.readFd] == End(k, S.ReadSide) && handles[k].fd in fds.owned
    {
      G.ReachableCore(c, run);
      var st := Now();
      assert HandleMirrors(st, ar.spilled, fds, handles[k], k);
      OpenEndIsOurs(c, st, k);
      assert handles[k] in handles && Owns(handles[k], handles[k].fd);
    }

    /** The archive's claim and this stream's are two different ones. */
    lemma ArchiveKeepsItsClaim(k: nat)
      requires Valid() && k < |handles| && handles[k] != null && !handles[k].closed
      ensures handles[k].claim != null && handles[k].claim == ar.tempfile ==> ar.tempfile.holders > 1
    {
      G.ReachableCore(c, run);
      assert HandleMirrors(Now(), ar.spilled, fds, handles[k], k);
      if handles[k].claim != null && handles[k].claim == ar.tempfile {
        TwoClaimsOut(c, Now(), k, Now().archive.claim.value);
      }
    }

    lemma ReadGoesOn(k: nat, size: int) returns (more: seq<Step>)
      requires Ordered(c) && Valid() && k < |handles| && handles[k] != null && !handles[k].closed
      ensures CanRun(c, Init(c), run + more)
      ensures var h, st, e := handles[k], Now(), After(c, Init(c), run + more);
              var data := h.backing.rest[..Share(size, |h.backing.rest|)];
              && OnlyMoved(st, e, k) && e.files == st.files
              && var s, t := st.streams[k], e.streams[k];
              && t.caller == S.Opened(S.Idle) && t.script == s.script && t.expected == s.expected
              && t.claim == s.claim && t.readFd == s.readFd && t.taken == h.backing.given + data
              && t.log == s.log + [S.Outcome(size, data, |t.taken|, Answer(h.expected, |t.taken|, size, data).Failure?)]
    {
      OpenHandle(k);
      G.ReachableInv(c, run);
      more := Modes.StoredReadRuns(c, Now(), k, size, handles[k].backing.given, handles[k].backing.rest);
      RunsCompose(c, Init(c), run, more);
    }

    twostate lemma ReadMirrorsHandles(k: nat, new e: State)
      requires old(Valid()) && unchanged(this) && unchanged(ar)
      requires k < |handles| && handles[k] != null && !old(handles[k].closed)
      requires !handles[k].closed && handles[k].Valid()
      requires forall g: PipeStream :: g in handles && g != handles[k] ==> unchanged(g) && unchanged(g.backing)
      requires OnlyMoved(Now(), e, k)
      requires var s, t, b := Now().streams[k], e.streams[k], handles[k].backing;
               && t.caller == S.Opened(S.Idle) && t.script == s.script && t.expected == s.expected
               && t.claim == s.claim && t.readFd == s.readFd && t.taken == b.given
               && b.given + b.rest == old(handles[k].backing.given + handles[k].backing.rest)
      ensures HandlesStand(e, ar.spilled, fds, handles)
    {
      assert old(HandleMirrors(Now(), ar.spilled, fds, handles[k], k));
      forall i | 0 <= i < |handles| && i != k ensures HandleMirrors(Now(), ar.spilled, fds, handles[i], i) {
        assert old(HandleMirrors(Now(), ar.spilled, fds, handles[i], i));
      }
      HandleMoves(Now(), e, ar.spilled, fds, handles, k);
    }

    /** `read(size)`: the run has the same read in it, with the same bytes and the same verdict. */
    method ReadStream(k: nat, size: int) returns (r: Result<Bytes, StreamError>)
      requires Ordered(c) && Valid() && k < |handles| && handles[k] != null && !handles[k].closed
      modifies this`run, handles[k], handles[k].backing
      ensures Valid() && GoesOn({}) && !handles[k].closed
      ensures var data := old(handles[k].backing.rest)[..Share(size, |old(handles[k].backing.rest)|)];
              var given := old(handles[k].backing.given) + data;
              && handles[k].backing.given == given
              && handles[k].backing.rest == old(handles[k].backing.rest)[|data|..]
              && r == Answer(handles[k].expected, |given|, size, data)
              && (r.Failure? <==>
                    (size < 0 || data == []) && handles[k].expected.Some?
                    && 0 < handles[k].expected.value && |given| < handles[k].expected.value)
              && (r.Success? ==> r.value == data)
              && (r.Failure? ==> r.error == CorruptArchive(|given|, handles[k].expected.value))
              && Now().streams[k].log == old(Now().streams[k].log) + [S.Outcome(size, data, |given|, r.Failure?)]
    {
      ghost var before := handles[k].backing.rest;
      ghost var more := ReadGoesOn(k, size);
      r := handles[k].Read(size);
      RestAfter(before[..Share(size, |before|)], handles[k].backing.rest, before);
      ReadMirrorsHandles(k, After(c, Init(c), run + more));
      GoOn(more);
    }

    /** No two streams that are open own the same descriptor. */
    lemma OpenHandlesDiffer(k: nat, j: nat)
      requires Valid() && k < |handles| && handles[k] != null && !handles[k].closed
      requires j < |handles| && handles[j] != null && !handles[j].closed && j != k
      ensures handles[j].fd != handles[k].fd
    {
      OpenHandle(k);
      OpenHandle(j);
    }

    lemma CloseGoesOn(k: nat) returns (more: seq<Step>)
      requires Valid() && k < |handles| && handles[k] != null && !handles[k].closed
      ensures CanRun(c, Init(c), run + more) && After(c, Init(c), run + more) == Calls.Shut(Now(), k)
      ensures handles[k].fd in fds.owned
      ensures handles[k].claim != null && handles[k].claim == ar.tempfile ==> ar.tempfile.holders > 1
      ensures forall g: PipeStream :: g in handles && g != handles[k] && !g.closed ==> g.fd != handles[k].fd
    {
      OpenHandle(k);
      Calls.CloseRuns(c, Now(), k);
      more := Calls.Acts(k, Calls.CloseActs(Now(), k));
      RunsCompose(c, Init(c), run, more);
      ArchiveKeepsItsClaim(k);
      forall g: PipeStream | g in handles && g != handles[k] && !g.closed ensures g.fd != handles[k].fd {
        var j :| 0 <= j < |handles| && handles[j] == g;
        OpenHandlesDiffer(k, j);
      }
    }

    /** What a released claim does to the temp file it was on is what the run does to it. */
    twostate lemma ShutMirrorsArchive(k: nat)
      requires old(Valid()) && unchanged(this) && unchanged(ar)
      requires k < |handles| && handles[k] != null && !old(handles[k].closed)
      requires handles[k].claim != null ==> handles[k].claim.View() == T.Released(old(handles[k].claim.View()))
      requires handles[k].claim != null && handles[k].claim == ar.tempfile ==> old(ar.tempfile.holders) > 1
      requires forall t :: t in ar.spilled && t != handles[k].claim ==> t.View() == old(t.View())
      ensures ArchiveMirrors(c, Calls.Shut(Now(), k), ar)
    {
      assert old(HandleMirrors(Now(), ar.spilled, fds, handles[k], k));
    }

    twostate lemma ShutMirrorsHandles(k: nat)
      requires old(Valid()) && unchanged(this) && unchanged(ar)
      requires k < |handles| && handles[k] != null && !old(handles[k].closed)
      requires handles[k].closed && handles[k].Valid()
      requires forall g: PipeStream :: g in handles && g != handles[k] ==> unchanged(g) && unchanged(g.backing)
      ensures HandlesStand(Calls.Shut(Now(), k), ar.spilled, fds, handles)
    {
      assert old(HandleMirrors(Now(), ar.spilled, fds, handles[k], k));
      forall i | 0 <= i < |handles| && i != k ensures HandleMirrors(Now(), ar.spilled, fds, handles[i], i) {
        assert old(HandleMirrors(Now(), ar.spilled, fds, handles[i], i));
      }
      HandleMoves(Now(), Calls.Shut(Now(), k), ar.spilled, fds, handles, k);
    }

    /** `close` of a stream that is open, by whoever holds it. */
    method CloseStream(k: nat)
      requires Valid() && k < |handles| && handles[k] != null && !handles[k].closed
      modifies this`run, handles[k], handles[k].backing, handles[k].claim, fds
      ensures Valid() && GoesOn({}) && handles[k].closed && Now() == Calls.Shut(old(Now()), k)
      ensures handles[k].backing.given == old(handles[k].backing.given)
      ensures handles[k].backing.rest == old(handles[k].backing.rest)
    {
      ghost var was := fds.owned;
      ghost var more := CloseGoesOn(k);
      handles[k].Close(false);
      ShutMirrorsArchive(k);
      ShutMirrorsHandles(k);
      ShutHandleOwns(fds, was, handles, handles[k]);
      GoOn(more);
    }

    // ── calls on a stream that is closed ──────────────────────────────────

    twostate lemma ShutHandleStays(k: nat)
      requires old(Valid()) && unchanged(this) && unchanged(ar)
      requires k < |handles| && handles[k] != null && old(handles[k].closed) && handles[k].closed && handles[k].Valid()
      requires fds.owned == old(fds.owned)
      requires forall g: PipeStream :: g in handles && g != handles[k] ==> unchanged(g) && unchanged(g.backing)
      ensures HandlesMirror(Now(), ar.spilled, fds, handles)
    {
      assert old(HandleMirrors(Now(), ar.spilled, fds, handles[k], k));
      forall i | 0 <= i < |handles| && i != k ensures HandleMirrors(Now(), ar.spilled, fds, handles[i], i) {
        assert old(HandleMirrors(Now(), ar.spilled, fds, handles[i], i));
      }
      HandleMoves(Now(), Now(), ar.spilled, fds, handles, k);
      forall h: PipeStream | h in handles ensures h.closed == old(h.closed) {
        assert h != handles[k] ==> unchanged(h);
      }
    }

    method ReadShut(k: nat, size: int) returns (r: Result<Bytes, StreamError>)
      requires Valid() && k < |handles| && handles[k] != null && handles[k].closed
      modifies handles[k], handles[k].backing
      ensures Valid() && handles[k].closed && r == Failure(ClosedFile)
      ensures handles[k].backing.given == old(handles[k].backing.given)
      ensures handles[k].backing.rest == old(handles[k].backing.rest)
    {
      assert HandleMirrors(Now(), ar.spilled, fds, handles[k], k);
      r := handles[k].Read(size);
      ShutHandleStays(k);
    }

    /** A second `close` finds nothing to do. */
    method CloseShut(k: nat)
      requires Valid() && k < |handles| && handles[k] != null && handles[k].closed
      modifies handles[k], handles[k].backing, handles[k].claim, fds
      ensures Valid() && handles[k].closed && fds.owned == old(fds.owned)
      ensures handles[k].claim != null ==> handles[k].claim.View() == old(handles[k].claim.View())
      ensures handles[k].backing.given == old(handles[k].backing.given)
      ensures handles[k].backing.rest == old(handles[k].backing.rest)
    {
      assert HandleMirrors(Now(), ar.spilled, fds, handles[k], k);
      handles[k].Close(false);
      ShutHandleStays(k);
    }
  }

  // ── what the system's guarantees come to for the objects ────────────────

  predicate IsOpenHandle(s: Session, k: nat)
    reads s, set h: PipeStream | h in s.handles :: h
  {
    k < |s.handles| && s.handles[k] != null && s.handles[k] in s.handles && !s.handles[k].closed
  }

  /** With the archive closed and every stream closed, no temp file and no descriptor is left. */
  lemma ClosedSessionLeavesNothing(s: Session)
    requires s.Valid() && s.ar.tempfile == null && forall h: PipeStream :: h in s.handles ==> h.closed
    ensures forall t :: t in s.ar.spilled ==> !t.onDisk && t.unlinks == 1
    ensures s.fds.owned == {}
  {
    var st := s.Now();
    forall i | 0 <= i < |st.streams| ensures st.streams[i].caller.Done? {
      assert HandleMirrors(st, s.ar.spilled, s.fds, s.handles[i], i);
      assert s.handles[i] != null ==> s.handles[i] in s.handles;
    }
    forall t | t in s.ar.spilled ensures !t.onDisk && t.unlinks == 1 {
      var f :| 0 <= f < |s.ar.spilled| && s.ar.spilled[f] == t;
      G.NothingLeaks(s.c, s.run, f);
      assert t.View() == st.files[f];
    }
  }

  /** A stream that is open and holds a claim has its temp file on disk, whatever became of the archive. */
  lemma OpenStreamHasItsFile(s: Session, k: nat)
    requires s.Valid() && IsOpenHandle(s, k) && s.handles[k].claim != null
    ensures s.handles[k].claim.onDisk && s.handles[k].claim.holders > 0
  {
    var st := s.Now();
    G.ReachableCore(s.c, s.run);
    assert HandleMirrors(st, s.ar.spilled, s.fds, s.handles[k], k);
    ClaimIsOut(s.c, st, k, st.streams[k].claim.value);
    assert s.ar.spilled[st.streams[k].claim.value].View() == st.files[st.streams[k].claim.value];
  }
}
