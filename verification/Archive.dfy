/** The archive object itself, method by method (python/newtua/_archive.py, `Archive`). */
module ArchiveObject {
  import opened Base
  import opened Lookup
  import opened TempFiles
  import opened EntryStreams
  import L = Lifecycle
  import S = StreamSystem
  import Streams

  datatype StreamFailure =
    | NotOpened(reason: L.OpenError) | NoEntry(lookup: LookupError) | Unsupported | EngineRefused(error: string)

  /** The position and the listed size of what `open(ref, stream=True)` will decode. */
  function Target(list: seq<Entry>, ref: Ref): Result<(nat, nat), LookupError> {
    match Resolve(list, ref)
    case Failure(e) => Failure(e)
    case Success(i) => if i < |list| then Success((i, list[i].size)) else Failure(IndexError(i))
  }

  /** A new stream: open, at its start, with the data to come, the claim and the descriptor it was made for. */
  ghost predicate Delivered(s: PipeStream, data: Bytes, claim: TempFile?, fds: Descriptors, rd: nat)
    reads s, s.backing
  {
    && s.Valid() && !s.closed && s.readTotal == 0 && !s.backing.closed
    && s.backing.given == [] && s.backing.rest == data && s.claim == claim && s.table == fds && s.fd == rd
  }

  /** The answer to `archive[ref]`, over the raw entries that the engine lists. */
  ghost predicate IsItem(raw: seq<RawEntry>, ref: Ref, r: Result<Entry, LookupError>) {
    match r
    case Success(e) =>
      && e.index < |raw| && e.path == raw[e.index].path && e.size == raw[e.index].size
      && Means(EntriesOf(raw), ref, e.index)
      && (ref.Named? ==> e.path == ref.path && forall j :: 0 <= j < e.index ==> raw[j].path != ref.path)
    case Failure(e) =>
      && e == NotFound(ref) && MeansNothing(EntriesOf(raw), ref)
      && (ref.Named? ==> forall j :: 0 <= j < |raw| ==> raw[j].path != ref.path)
  }

  lemma ItemIsMeant(raw: seq<RawEntry>, ref: Ref)
    requires !ref.Itself?
    ensures IsItem(raw, ref, Lookup.GetItem(EntriesOf(raw), NameIndex(EntriesOf(raw)), ref))
  {
    FoundIsMeant(EntriesOf(raw), ref);
    if ref.Named? {
      FirstNamedInRaw(raw, ref.path);
      assert ref.path in NameIndex(EntriesOf(raw)) <==> FirstNamed(EntriesOf(raw), ref.path).Some?;
    }
  }

  /** The place and the size of what the reference means, or the error of one that means nothing. */
  ghost predicate IsPlace(entries: seq<Entry>, ref: Ref, r: Result<(nat, nat), LookupError>) {
    match r
    case Success(t) => Means(entries, ref, t.0) && t.1 == entries[t.0].size
    case Failure(e) => MeansNothing(entries, ref) && e == NotFound(ref)
  }

  /** What the first half of `open` comes to: listing, and looking up. */
  function Found(eng: L.Engine, a: L.Fields, ref: Ref, disk: Option<Bytes>): Result<(nat, nat), StreamFailure> {
    match L.Listed(eng, a, disk).1
    case Failure(e) => Failure(NotOpened(e))
    case Success(list) =>
      match Target(list, ref)
      case Failure(e) => Failure(NoEntry(e))
      case Success(t) => Success(t)
  }

  lemma TargetIsPlace(entries: seq<Entry>, ref: Ref)
    requires forall i :: 0 <= i < |entries| ==> entries[i].index == i
    ensures IsPlace(entries, ref, Target(entries, ref))
  {
    ResolveIsMeant(entries, ref);
  }

  /** `_resolve_index`, and the size of the entry at that index, if there is one. */
  method Place(entries: seq<Entry>, ref: Ref) returns (r: Result<(nat, nat), LookupError>)
    requires forall i :: 0 <= i < |entries| ==> entries[i].index == i
    ensures r == Target(entries, ref) && IsPlace(entries, ref, r)
  {
    TargetIsPlace(entries, ref);
    var index := ResolveIndex(entries, ref);
    if index.Failure? {
      return Failure(index.error);
    }
    if index.value >= |entries| {
      return Failure(IndexError(index.value));
    }
    return Success((index.value, entries[index.value].size));
  }

  /** `open(ref, stream=True)` is about the very entry that `archive[ref]` gives, or fails as that does. */
  lemma TargetIsTheItem(entries: seq<Entry>, ref: Ref)
    requires forall i :: 0 <= i < |entries| ==> entries[i].index == i
    ensures IsPlace(entries, ref, Target(entries, ref))
    ensures !ref.Itself? ==>
              match Lookup.GetItem(entries, NameIndex(entries), ref)
              case Success(e) => Target(entries, ref) == Success((e.index, e.size))
              case Failure(e) => Target(entries, ref) == Failure(e)
    ensures ref.Itself? ==>
              Target(entries, ref) == if ref.entry.index < |entries| then
                                        Success((ref.entry.index, entries[ref.entry.index].size))
                                      else Failure(IndexError(ref.entry.index))
  {
    ResolveIsMeant(entries, ref);
    if !ref.Itself? {
      IndexAgreesWithScan(entries, NameIndex(entries), ref);
    }
  }

  class Archive {
    const source: S.Source
    const engine: L.Engine
    var unread: Bytes
    var password: Password
    var reader: Option<L.Reader>
    var entries: Option<seq<Entry>>
    var byName: Option<map<Path, Entry>>
    var tempfile: TempFile?
    var closed: bool
    ghost var spilled: seq<TempFile>  // every file this object ever spilled

    ghost function View(): L.Fields
      reads this
    {
      L.Fields(source, unread, password, reader, entries, byName,
               if tempfile == null then None else Some(tempfile.data), closed)
    }

    /** The fields are in step, and the file our own claim stands for is on disk. */
    ghost predicate Valid()
      reads this, tempfile
    {
      && L.Inv(engine, View())
      && (tempfile != null ==> tempfile in spilled && tempfile.holders > 0 && tempfile.armed && tempfile.onDisk)
      && (forall i, j :: 0 <= i < j < |spilled| ==> spilled[i] != spilled[j])
    }

    /**
     * What opening may do to the temp files: nothing, or give the one there is
     * back, or spill a new one, or spill one and give it back at once.
     */
    twostate predicate FilesMoved()
      reads this, spilled
    {
      if old(tempfile) != null then
        && spilled == old(spilled) && old(tempfile) in spilled && (tempfile == old(tempfile) || tempfile == null)
        && old(tempfile).View() == (if tempfile == null then Released(old(tempfile.View())) else old(tempfile.View()))
        && unread == old(unread)
      else if |spilled| == |old(spilled)| then spilled == old(spilled) && tempfile == null && unread == old(unread)
      else
        && !source.OnDisk? && |spilled| == |old(spilled)| + 1 && old(spilled) <= spilled
        && var file := spilled[|old(spilled)|];
        && fresh(file) && (tempfile == null || tempfile == file)
        && file.data == (if source.FileObject? then old(unread) else source.data) && unread == []
        && file.View() == if tempfile == file then Fresh(file.data) else Released(Fresh(file.data))
    }

    constructor (source: S.Source, engine: L.Engine, password: Password)
      ensures Valid() && View() == L.New(source, password) && this.engine == engine && spilled == []
      ensures this.source == source && this.password == password && !closed && tempfile == null
    {
      this.source := source;
      this.engine := engine;
      this.password := password;
      unread := if source.FileObject? then source.data else [];
      reader, entries, byName, tempfile, closed := None, None, None, null, false;
      spilled := [];
    }

    /**
     * `_backing_path`: a spilled file is reused while it is there; otherwise
     * the source is spilled, and be the archive closed by now.
     */
    method BackingPath(disk: Option<Bytes>) returns (data: Option<Bytes>)
      requires Valid()
      modifies this
      ensures Valid()
      ensures (View(), data) == L.Backing(old(View()), disk) && data == L.FileBehind(old(View()), disk)
      ensures tempfile == old(tempfile) ==> spilled == old(spilled)
      ensures tempfile != old(tempfile) ==>
                && old(tempfile) == null && fresh(tempfile) && tempfile.View() == Fresh(tempfile.data)
                && spilled == old(spilled) + [tempfile]
    {
      if source.OnDisk? {
        return disk;
      }
      if tempfile != null && tempfile.onDisk {
        return Some(tempfile.data);
      }
      var bytes := if source.FileObject? then unread else source.data;
      unread := [];
      tempfile := new TempFile(bytes);
      spilled := spilled + [tempfile];
      return Some(bytes);
    }

    /** `_open`. A refusal gives the claim back at once. */
    method Open(disk: Option<Bytes>) returns (r: Result<L.Reader, L.OpenError>)
      requires Valid()
      modifies this, tempfile
      ensures Valid()
      ensures (View(), r) == L.Opened(engine, old(View()), disk)
      ensures old(closed) ==> r == Failure(L.ClosedArchive) && View() == old(View())
      ensures !old(closed) && old(reader).Some? ==> r == Success(old(reader).value) && View() == old(View())
      ensures !old(closed) && old(reader).None? ==>
                var file := L.FileBehind(old(View()), disk);
                match r
                case Success(x) =>
                  && file == Some(x.data) && x.password == old(password) == password
                  && engine(x.data, password) == Success(x.listing) && reader == Some(x)
                case Failure(e) =>
                  if file.None? then e == L.FileNotFound
                  else e.EngineFailed? && engine(file.value, old(password)) == Failure(e.error) && tempfile == null
      ensures FilesMoved()
    {
      if closed {
        return Failure(L.ClosedArchive);
      }
      if reader.None? {
        var path := BackingPath(disk);
        if path.None? {
          return Failure(L.FileNotFound);
        }
        var answer := engine(path.value, password);
        match answer {
          case Success(listing) =>
            reader := Some(L.Reader(path.value, password, listing));
          case Failure(e) =>
            if tempfile != null {
              tempfile.Release();
              tempfile := null;
            }
            return Failure(L.EngineFailed(e));
        }
      }
      return Success(reader.value);
    }

    /** `_listing`: opens on first use, then answers from the cache. */
    method Listing(disk: Option<Bytes>) returns (r: Result<seq<Entry>, L.OpenError>)
      requires Valid()
      modifies this, tempfile
      ensures Valid()
      ensures (View(), r) == L.Listed(engine, old(View()), disk)
      ensures FilesMoved()
      ensures r.Success? ==> byName.Some? && reader.Some? && r.value == EntriesOf(reader.value.listing)
      ensures !old(closed) && old(reader).Some? ==> r.Success? && reader == old(reader)
    {
      if entries.None? {
        var opening := Open(disk);
        match opening {
          case Failure(e) =>
            return Failure(e);
          case Success(reader) =>
            var list, names := EntriesFromRaw(reader.listing);
            entries, byName := Some(list), Some(names);
        }
      }
      return Success(entries.value);
    }

    /** `archive[ref]`. The lookup never meets a missing name index. */
    method GetItem(ref: Ref, disk: Option<Bytes>) returns (r: Result<Result<Entry, LookupError>, L.OpenError>)
      requires Valid() && !ref.Itself?
      modifies this, tempfile
      ensures Valid() && View() == L.Listed(engine, old(View()), disk).0
      ensures match L.Listed(engine, old(View()), disk).1
              case Failure(e) => r == Failure(e)
              case Success(list) => r == Success(Lookup.GetItem(list, NameIndex(list), ref))
      ensures r.Success? ==>
                && reader.Some? && engine(reader.value.data, password) == Success(reader.value.listing)
                && IsItem(reader.value.listing, ref, r.value)
      ensures !old(closed) && old(reader).Some? ==> r.Success? && reader == old(reader)
      ensures FilesMoved()
    {
      var list := Listing(disk);
      if list.Failure? {
        return Failure(list.error);
      }
      NameIndexIsUnique(entries.value, byName.value);
      ItemIsMeant(reader.value.listing, ref);
      return Success(Lookup.GetItem(list.value, byName.value, ref));
    }

    /** The password setter. The spilled file stays. */
    method SetPassword(password: Password)
      requires Valid()
      modifies this
      ensures Valid() && View() == L.WithPassword(old(View()), password)
      ensures this.password == password && reader == None && unread == old(unread) && closed == old(closed)
      ensures tempfile == old(tempfile) && spilled == old(spilled)
    {
      this.password := password;
      reader, entries, byName := None, None, None;
    }

    method Close()
      requires Valid()
      modifies this, tempfile
      ensures Valid() && View() == L.Closed(old(View())) && spilled == old(spilled)
      ensures closed && reader == None && tempfile == null && password == old(password) && unread == old(unread)
      ensures old(tempfile) != null ==> old(tempfile).View() == Released(old(tempfile.View()))
    {
      reader, entries, byName, closed := None, None, None, true;
      if tempfile != null {
        tempfile.Release();
        tempfile := null;
      }
    }

    /** The first half of `open`: list, resolve, and look the size up. */
    method Locate(ref: Ref, disk: Option<Bytes>) returns (r: Result<(nat, nat), StreamFailure>)
      requires Valid()
      modifies this, tempfile
      ensures Valid() && View() == L.Listed(engine, old(View()), disk).0
      ensures r == Found(engine, old(View()), ref, disk)
      ensures match r
              case Success(t) =>
                && reader.Some? && t.0 < |reader.value.listing| && t.1 == reader.value.listing[t.0].size
                && IsPlace(EntriesOf(reader.value.listing), ref, Success(t))
              case Failure(e) =>
                if e.NoEntry? then
                  reader.Some? && IsPlace(EntriesOf(reader.value.listing), ref, Failure(e.lookup))
                else e.NotOpened?
      ensures !old(closed) && old(reader).Some? ==> reader == old(reader) && (r.Failure? ==> r.error.NoEntry?)
      ensures FilesMoved()
    {
      var list := Listing(disk);
      if list.Failure? {
        return Failure(NotOpened(list.error));
      }
      var place := Place(list.value, ref);
      return if place.Success? then Success(place.value) else Failure(NoEntry(place.error));
    }

    /**
     * `open(ref, stream=True)`, on the caller's thread. `handshake` is what the
     * compiled module answers: the bytes its worker will send, or its refusal.
     * A stream that opens owns the read end and one more claim on the temp
     * file; one that does not leaves descriptors and claims as they were.
     */
    method OpenStream(ref: Ref, disk: Option<Bytes>, platform: Streams.Platform, fds: Descriptors, rd: nat, wr: nat,
                      handshake: Result<Bytes, string>)
      returns (r: Result<PipeStream, StreamFailure>)
      requires Valid() && rd != wr && rd !in fds.owned && wr !in fds.owned
      modifies this, tempfile, fds
      ensures Valid() && View() == L.Listed(engine, old(View()), disk).0
      ensures match L.Listed(engine, old(View()), disk).1
              case Failure(e) => r == Failure(NotOpened(e))
              case Success(list) =>
                match Target(list, ref)
                case Failure(e) => r == Failure(NoEntry(e))
                case Success(t) =>
                  if platform == Streams.Windows && !source.OnDisk? then r == Failure(Unsupported)
                  else if handshake.Failure? then r == Failure(EngineRefused(handshake.error))
                  else r.Success? && r.value.expected == Some(t.1)
      ensures r.Success? ==> Delivered(r.value, handshake.value, tempfile, fds, rd)
      ensures r.Success? ==>
                && reader.Some?
                && exists i :: 0 <= i < |reader.value.listing| && Means(EntriesOf(reader.value.listing), ref, i)
                               && r.value.expected == Some(reader.value.listing[i].size)
      ensures r.Success? ==> fresh(r.value) && fresh(r.value.backing)
      ensures fds.owned == old(fds.owned) + if r.Success? then {rd} else {}
      ensures tempfile != null ==>
                var before := if tempfile == old(tempfile) then old(tempfile.View()) else Fresh(tempfile.data);
                tempfile.View() == if r.Success? then Held(before) else before
    {
      var target := Locate(ref, disk);
      if target.Failure? {
        return Failure(target.error);
      }
      r := OpenPipe(target.value.1, platform, fds, rd, wr, handshake);
    }

    /** `_open_pipe`: what no platform can do is refused before anything is made. */
    method OpenPipe(size: nat, platform: Streams.Platform, fds: Descriptors, rd: nat, wr: nat,
                    handshake: Result<Bytes, string>)
      returns (r: Result<PipeStream, StreamFailure>)
      requires Valid() && rd != wr && rd !in fds.owned && wr !in fds.owned
      modifies tempfile, fds
      ensures Valid() && View() == old(View())
      ensures if platform.Windows? && !source.OnDisk? then r == Failure(Unsupported)
              else if handshake.Failure? then r == Failure(EngineRefused(handshake.error))
              else r.Success? && r.value.expected == Some(size)
      ensures r.Success? ==> Delivered(r.value, handshake.value, tempfile, fds, rd)
      ensures r.Success? ==> fresh(r.value) && fresh(r.value.backing)
      ensures fds.owned == old(fds.owned) + if r.Success? then {rd} else {}
      ensures tempfile != null ==>
                tempfile.View() == if r.Success? then Held(old(tempfile.View())) else old(tempfile.View())
    {
      if platform == Streams.Posix {
        r := OpenPipePosix(size, fds, rd, wr, handshake);
      } else {
        r := OpenPipeWindows(size, fds, rd, handshake);
      }
    }

    method OpenPipePosix(size: nat, fds: Descriptors, rd: nat, wr: nat, handshake: Result<Bytes, string>)
      returns (r: Result<PipeStream, StreamFailure>)
      requires Valid() && rd != wr && rd !in fds.owned && wr !in fds.owned
      modifies tempfile, fds
      ensures Valid() && View() == old(View())
      ensures handshake.Failure? ==> r == Failure(EngineRefused(handshake.error))
      ensures handshake.Success? ==> r.Success? && r.value.expected == Some(size)
      ensures r.Success? ==> Delivered(r.value, handshake.value, tempfile, fds, rd)
      ensures r.Success? ==> fresh(r.value) && fresh(r.value.backing)
      ensures fds.owned == old(fds.owned) + if r.Success? then {rd} else {}
      ensures tempfile != null ==>
                tempfile.View() == if r.Success? then Held(old(tempfile.View())) else old(tempfile.View())
    {
      fds.Pipe(rd, wr);
      var claim := tempfile;
      if claim != null {
        claim.HoldOne();
      }
      if handshake.Failure? {
        fds.Close(rd);
        fds.Close(wr);
        if claim != null {
          claim.Release();
        }
        return Failure(EngineRefused(handshake.error));
      }
      fds.HandOver(wr);
      var backing := new Backing(handshake.value);
      var stream := new PipeStream(backing, Some(size), claim, fds, rd);
      return Success(stream);
    }

    /** Here the compiled module makes the pipe, and keeps both ends until it succeeds. */
    method OpenPipeWindows(size: nat, fds: Descriptors, rd: nat, handshake: Result<Bytes, string>)
      returns (r: Result<PipeStream, StreamFailure>)
      requires Valid() && rd !in fds.owned
      modifies fds
      ensures if !source.OnDisk? then r == Failure(Unsupported)
              else if handshake.Failure? then r == Failure(EngineRefused(handshake.error))
              else r.Success? && r.value.expected == Some(size)
      ensures r.Success? ==> Delivered(r.value, handshake.value, tempfile, fds, rd)
      ensures r.Success? ==> fresh(r.value) && fresh(r.value.backing)
      ensures fds.owned == old(fds.owned) + if r.Success? then {rd} else {}
    {
      if !source.OnDisk? {
        return Failure(Unsupported);
      }
      if handshake.Failure? {
        return Failure(EngineRefused(handshake.error));
      }
      fds.Adopt(rd);
      var backing := new Backing(handshake.value);
      var stream := new PipeStream(backing, Some(size), null, fds, rd);
      return Success(stream);
    }
  }
}
