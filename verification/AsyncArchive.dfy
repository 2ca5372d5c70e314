/**
 * The asyncio front (python/newtua/_async.py): metadata cached on entry, a
 * synchronous archive for the temp file only.
 */
module AsyncFront {
  import opened Base
  import opened Lookup
  import opened TempFiles
  import opened ArchiveObject
  import opened EntryStreams
  import Streams
  import L = Lifecycle
  import S = StreamSystem

  datatype OpenFailure = NotReady | BadRef(error: LookupError)

  /** `_AsyncStreamCtx`: what `open` hands out. Nothing is opened until it is entered. */
  datatype StreamCtx = StreamCtx(index: nat, size: nat)

  /** What entering comes to: the listing of the file behind the archive, closed or not. */
  function Entering(eng: L.Engine, a: L.Fields, disk: Option<Bytes>): Result<seq<Entry>, L.OpenError> {
    var data := L.Backing(a, disk).1;
    if data.None? then Failure(L.FileNotFound)
    else
      match eng(data.value, a.password)
      case Success(listing) => Success(EntriesOf(listing))
      case Failure(e) => Failure(L.EngineFailed(e))
  }

  /** For an archive that is neither open nor closed, it is what listing it would come to. */
  lemma EnteringIsListing(eng: L.Engine, a: L.Fields, disk: Option<Bytes>)
    requires !a.closed && a.reader == None && a.entries == None
    ensures Entering(eng, a, disk) == L.Listed(eng, a, disk).1
  {}

  /** What `open` answers when the front is ready. */
  function Context(entries: seq<Entry>, ref: Ref): Result<StreamCtx, OpenFailure> {
    match Target(entries, ref)
    case Success(t) => Success(StreamCtx(t.0, t.1))
    case Failure(e) => Failure(BadRef(e))
  }

  /** The context is for the very entry that the reference means; the error is that of one that means nothing. */
  ghost predicate IsContext(entries: seq<Entry>, ref: Ref, r: Result<StreamCtx, OpenFailure>) {
    match r
    case Success(ctx) => Means(entries, ref, ctx.index) && ctx.size == entries[ctx.index].size
    case Failure(e) => MeansNothing(entries, ref) && e == BadRef(NotFound(ref))
  }

  lemma ContextIsMeant(entries: seq<Entry>, ref: Ref)
    requires forall i :: 0 <= i < |entries| ==> entries[i].index == i
    ensures IsContext(entries, ref, Context(entries, ref))
    ensures !ref.Itself? ==>
              match Lookup.GetItem(entries, NameIndex(entries), ref)
              case Success(e) => Context(entries, ref) == Success(StreamCtx(e.index, e.size))
              case Failure(e) => Context(entries, ref) == Failure(BadRef(e))
  {
    TargetIsTheItem(entries, ref);
  }

  class AsyncArchive {
    const sync: Archive
    var located: bool  // `_path` is set; whether there is a file behind it is another matter
    var entries: seq<Entry>
    var byName: map<Path, Entry>
    var closed: bool

    ghost predicate Valid()
      reads this, sync, sync.tempfile
    {
      && sync.Valid()
      && sync.reader.None? && sync.entries.None?
      && byName == NameIndex(entries)
      && forall i :: 0 <= i < |entries| ==> entries[i].index == i
    }

    /** `_ensure_ready`. */
    predicate Ready()
      reads this
    {
      located && !closed
    }

    constructor (source: S.Source, engine: L.Engine, password: Password)
      ensures Valid() && fresh(sync) && !Ready() && !closed && entries == []
      ensures sync.View() == L.New(source, password) && sync.engine == engine && sync.spilled == [] && !located
    {
      sync := new Archive(source, engine, password);
      located, entries, byName, closed := false, [], map[], false;
    }

    /**
     * `__aenter__`: succeeds and fails as the synchronous listing of the same
     * archive would, with the same entries, except that it does not ask whether
     * the archive is closed. A failure closes the synchronous archive, so its
     * temp file is given back; but the path has been set by then, so the front
     * counts as ready all the same.
     */
    method Enter(disk: Option<Bytes>) returns (r: Result<(), L.OpenError>)
      requires Valid()
      modifies this, sync, sync.tempfile
      ensures Valid() && located && closed == old(closed) && (Ready() <==> !old(closed))
      ensures match Entering(sync.engine, old(sync.View()), disk)
              case Success(list) =>
                r == Success(()) && entries == list && sync.View() == L.Backing(old(sync.View()), disk).0
              case Failure(e) =>
                r == Failure(e) && entries == old(entries)
                && sync.View() == L.Closed(L.Backing(old(sync.View()), disk).0)
      ensures var file := L.FileBehind(old(sync.View()), disk);
              if file.None? then r == Failure(L.FileNotFound)
              else
                match sync.engine(file.value, old(sync.password))
                case Failure(e) => r == Failure(L.EngineFailed(e))
                case Success(raw) =>
                  && r == Success(()) && |entries| == |raw|
                  && forall i :: 0 <= i < |raw| ==> entries[i] == Entry(i, raw[i].path, raw[i].size)
      ensures sync.FilesMoved()
      ensures old(sync.tempfile) == null && !sync.source.OnDisk? ==> |sync.spilled| == |old(sync.spilled)| + 1
    {
      var path := sync.BackingPath(disk);
      located := true;
      if path.None? {
        sync.Close();
        return Failure(L.FileNotFound);
      }
      var answer := sync.engine(path.value, sync.password);
      match answer {
        case Failure(e) =>
          sync.Close();
          return Failure(L.EngineFailed(e));
        case Success(listing) =>
          entries, byName := EntriesFromRaw(listing);
          return Success(());
      }
    }

    /** `__aexit__`. */
    method Exit()
      requires Valid()
      modifies this, sync, sync.tempfile
      ensures Valid() && !Ready() && sync.View() == L.Closed(old(sync.View()))
      ensures entries == old(entries) && byName == old(byName) && located == old(located)
      ensures sync.spilled == old(sync.spilled)
      ensures old(sync.tempfile) != null ==> old(sync.tempfile).View() == Released(old(sync.tempfile.View()))
    {
      sync.Close();
      closed := true;
    }

    /** `archive[ref]`, over the cached fields; unlike `open`, it does not ask whether the front is ready. */
    method GetItem(ref: Ref) returns (r: Result<Entry, LookupError>)
      requires Valid() && !ref.Itself?
      ensures r == Lookup.GetItem(entries, NameIndex(entries), ref)
    {
      r := Lookup.GetItem(entries, byName, ref);
    }

    /** `open`: the only place that asks whether the front is ready. */
    method Open(ref: Ref) returns (r: Result<StreamCtx, OpenFailure>)
      requires Valid()
      ensures !Ready() ==> r == Failure(NotReady)
      ensures Ready() ==> r == Context(entries, ref) && IsContext(entries, ref, r)
    {
      if !located || closed {
        return Failure(NotReady);
      }
      var place := Place(entries, ref);
      return if place.Success? then Success(StreamCtx(place.value.0, place.value.1)) else Failure(BadRef(place.error));
    }

    /**
     * `_AsyncStreamCtx.__aenter__`, that is `_open_pipe_sync`. All it asks for
     * is a path that was set once: an archive exited since the context was
     * handed out is streamed from just the same, only that there is no claim
     * left to share (`AsyncRace` says what comes of it).
     */
    method EnterStream(ctx: StreamCtx, platform: Streams.Platform, fds: Descriptors, rd: nat, wr: nat,
                       handshake: Result<Bytes, string>)
      returns (r: Result<PipeStream, StreamFailure>)
      requires Valid() && located && rd != wr && rd !in fds.owned && wr !in fds.owned
      modifies sync.tempfile, fds
      ensures Valid() && sync.View() == old(sync.View())
      ensures if platform.Windows? && !sync.source.OnDisk? then r == Failure(Unsupported)
              else if handshake.Failure? then r == Failure(EngineRefused(handshake.error))
              else r.Success? && r.value.expected == Some(ctx.size)
      ensures r.Success? ==> Delivered(r.value, handshake.value, sync.tempfile, fds, rd)
      ensures r.Success? ==> fresh(r.value) && fresh(r.value.backing)
      ensures fds.owned == old(fds.owned) + if r.Success? then {rd} else {}
      ensures sync.tempfile != null ==>
                var before := old(sync.tempfile.View());
                sync.tempfile.View() == if r.Success? then Held(before) else before
    {
      r := sync.OpenPipe(ctx.size, platform, fds, rd, wr, handshake);
    }
  }

  /**
   * After a first `__aenter__` that failed, every `open` passes the check for
   * readiness and then fails to find its entry, whatever it asks for: the user
   * sees a lookup error, never the error of a closed archive. After one that
   * succeeded, `open` answers out of the listing.
   */
  method OpenAfterFirstEnter(front: AsyncArchive, disk: Option<Bytes>, ref: Ref)
    returns (entered: Result<(), L.OpenError>, r: Result<StreamCtx, OpenFailure>)
    requires front.Valid() && !front.closed && front.entries == []
    modifies front, front.sync, front.sync.tempfile
    ensures front.Ready()
    ensures match Entering(front.sync.engine, old(front.sync.View()), disk)
            case Failure(e) =>
              entered == Failure(e) && front.sync.closed && r == Failure(BadRef(NotFound(ref)))
            case Success(list) => entered == Success(()) && r == Context(list, ref) && IsContext(list, ref, r)
  {
    entered := front.Enter(disk);
    r := front.Open(ref);
  }

  // ── the two fronts side by side ─────────────────────────────────────────

  /** The two fronts give the same answer to the same question. */
  predicate SameAnswers(theirs: Result<Entry, LookupError>, ours: Result<Result<Entry, LookupError>, L.OpenError>) {
    ours == Success(theirs)
  }

  predicate SameTargets(theirs: Result<StreamCtx, OpenFailure>, ours: Result<(nat, nat), StreamFailure>) {
    match theirs
    case Success(ctx) => ours == Success((ctx.index, ctx.size))
    case Failure(e) => e.BadRef? && ours == Failure(NoEntry(e.error))
  }

  /** The front is entered, both archives know the same entries, and they share no temp file. */
  ghost predicate InStep(front: AsyncArchive, ar: Archive)
    reads front, front.sync, front.sync.tempfile, ar, ar.tempfile
  {
    && front.Valid() && ar.Valid() && front.sync != ar && front.Ready() && ar.entries == Some(front.entries)
    && (ar.tempfile == null || ar.tempfile != front.sync.tempfile)
  }

  /** A question got the answer that the entries have to it, and got it twice, to a lookup and to an `open`. */
  ghost predicate AnsweredAt(entries: seq<Entry>, ref: Ref,
                             item: (Result<Entry, LookupError>, Result<Result<Entry, LookupError>, L.OpenError>),
                             opening: (Result<StreamCtx, OpenFailure>, Result<(nat, nat), StreamFailure>))
    requires !ref.Itself?
  {
    && item.0 == Lookup.GetItem(entries, NameIndex(entries), ref) && SameAnswers(item.0, item.1)
    && opening.0 == Context(entries, ref) && SameTargets(opening.0, opening.1)
    && match item.0
       case Success(e) =>
         && Means(entries, ref, e.index) && e == entries[e.index]
         && opening.0 == Success(StreamCtx(e.index, e.size))
       case Failure(e) => MeansNothing(entries, ref) && e == NotFound(ref) && opening.0 == Failure(BadRef(e))
  }

  lemma BothAnswer(entries: seq<Entry>, ref: Ref, ours: Result<(nat, nat), StreamFailure>)
    requires !ref.Itself? && SameTargets(Context(entries, ref), ours)
    requires forall i :: 0 <= i < |entries| ==> entries[i].index == i
    ensures var item := Lookup.GetItem(entries, NameIndex(entries), ref);
            AnsweredAt(entries, ref, (item, Success(item)), (Context(entries, ref), ours))
  {
    ContextIsMeant(entries, ref);
    FoundIsMeant(entries, ref);
  }

  method AskForItem(front: AsyncArchive, ar: Archive, ref: Ref, disk: Option<Bytes>)
    returns (item: (Result<Entry, LookupError>, Result<Result<Entry, LookupError>, L.OpenError>))
    requires InStep(front, ar) && !ref.Itself?
    modifies ar, ar.tempfile
    ensures InStep(front, ar) && ar.tempfile == old(ar.tempfile) && ar.View() == old(ar.View())
    ensures item.0 == Lookup.GetItem(front.entries, NameIndex(front.entries), ref) && item.1 == Success(item.0)
  {
    var theirs := front.GetItem(ref);
    var ours := ar.GetItem(ref, disk);
    item := (theirs, ours);
  }

  method AskForOpening(front: AsyncArchive, ar: Archive, ref: Ref, disk: Option<Bytes>)
    returns (opening: (Result<StreamCtx, OpenFailure>, Result<(nat, nat), StreamFailure>))
    requires InStep(front, ar)
    modifies ar, ar.tempfile
    ensures InStep(front, ar) && ar.tempfile == old(ar.tempfile) && ar.View() == old(ar.View())
    ensures opening.0 == Context(front.entries, ref) && SameTargets(opening.0, opening.1)
  {
    var theirs := front.Open(ref);
    var ours := ar.Locate(ref, disk);
    opening := (theirs, ours);
  }

  /** One question put to both. */
  method AskBoth(front: AsyncArchive, ar: Archive, ref: Ref, disk: Option<Bytes>)
    returns (item: (Result<Entry, LookupError>, Result<Result<Entry, LookupError>, L.OpenError>),
             opening: (Result<StreamCtx, OpenFailure>, Result<(nat, nat), StreamFailure>))
    requires InStep(front, ar) && !ref.Itself?
    modifies ar, ar.tempfile
    ensures InStep(front, ar) && ar.tempfile == old(ar.tempfile) && ar.View() == old(ar.View())
    ensures AnsweredAt(front.entries, ref, item, opening)
  {
    item := AskForItem(front, ar, ref, disk);
    opening := AskForOpening(front, ar, ref, disk);
    BothAnswer(front.entries, ref, opening.1);
  }

  ghost predicate Answered(entries: seq<Entry>, refs: seq<(Ref, Option<Bytes>)>,
                           items: seq<(Result<Entry, LookupError>, Result<Result<Entry, LookupError>, L.OpenError>)>,
                           opens: seq<(Result<StreamCtx, OpenFailure>, Result<(nat, nat), StreamFailure>)>)
    requires forall k :: 0 <= k < |refs| ==> !refs[k].0.Itself?
  {
    && |items| == |opens| == |refs|
    && forall k :: 0 <= k < |refs| ==> AnsweredAt(entries, refs[k].0, items[k], opens[k])
  }

  method AskAll(front: AsyncArchive, ar: Archive, refs: seq<(Ref, Option<Bytes>)>)
    returns (items: seq<(Result<Entry, LookupError>, Result<Result<Entry, LookupError>, L.OpenError>)>,
             opens: seq<(Result<StreamCtx, OpenFailure>, Result<(nat, nat), StreamFailure>)>)
    requires InStep(front, ar)
    requires forall k :: 0 <= k < |refs| ==> !refs[k].0.Itself?
    modifies ar, ar.tempfile
    ensures InStep(front, ar) && ar.View() == old(ar.View())
    ensures Answered(front.entries, refs, items, opens)
  {
    items, opens := [], [];
    for k := 0 to |refs|
      invariant InStep(front, ar) && ar.View() == old(ar.View()) && ar.tempfile == old(ar.tempfile)
      invariant |items| == |opens| == k
      invariant forall j :: 0 <= j < k ==> AnsweredAt(front.entries, refs[j].0, items[j], opens[j])
    {
      var item, opening := AskBoth(front, ar, refs[k].0, refs[k].1);
      items, opens := items + [item], opens + [opening];
    }
  }

  /**
   * Two archives of one source, one entered by the asyncio front and one used
   * as it is. Entering succeeds exactly when listing does, with the same
   * entries or the same error; and then, until the front is exited, every
   * lookup and every `open`, in any number and order, comes out as those
   * entries have it, and the same on both, whatever becomes of the user's file
   * meanwhile.
   */
  method LookupsCoincide(front: AsyncArchive, ar: Archive, disk: Option<Bytes>, refs: seq<(Ref, Option<Bytes>)>)
    returns (entered: Result<(), L.OpenError>, listed: Result<seq<Entry>, L.OpenError>,
             items: seq<(Result<Entry, LookupError>, Result<Result<Entry, LookupError>, L.OpenError>)>,
             opens: seq<(Result<StreamCtx, OpenFailure>, Result<(nat, nat), StreamFailure>)>)
    requires front.Valid() && ar.Valid() && front.sync != ar && !front.closed && !front.sync.closed
    requires front.sync.View() == ar.View() && front.sync.engine == ar.engine
    requires ar.tempfile == null || ar.tempfile != front.sync.tempfile
    requires forall k :: 0 <= k < |refs| ==> !refs[k].0.Itself?
    modifies front, front.sync, front.sync.tempfile, ar, ar.tempfile
    ensures (ar.View(), listed) == L.Listed(ar.engine, old(ar.View()), disk)
    ensures match listed
            case Failure(e) => entered == Failure(e) && items == [] && opens == []
            case Success(list) =>
              && entered == Success(()) && front.Ready() && front.entries == list
              && Answered(list, refs, items, opens)
  {
    EnteringIsListing(front.sync.engine, front.sync.View(), disk);
    items, opens := [], [];
    entered := front.Enter(disk);
    listed := ar.Listing(disk);
    if entered.Success? {
      items, opens := AskAll(front, ar, refs);
    }
  }
}
