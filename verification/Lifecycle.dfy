/**
 * The archive object: opened lazily, reopened after a password change, its
 * bytes spilled to a temp file when the source is no path
 * (python/newtua/_archive.py, `Archive`).
 */
module Lifecycle {
  import opened Base
  import opened Lookup
  import opened StreamSystem

  /** The engine's `open`: it either lists the archive's entries or says why not. */
  type EngineError = string
  type Engine = (Bytes, Password) -> Result<seq<RawEntry>, EngineError>

  datatype Reader = Reader(data: Bytes, password: Password, listing: seq<RawEntry>)

  datatype OpenError = ClosedArchive | FileNotFound | EngineFailed(error: EngineError)

  /** The object's fields. `temp` is the content of `_tempfile`; `unread` is what a file object has left. */
  datatype Fields = Fields(
    source: Source, unread: Bytes, password: Password,
    reader: Option<Reader>, entries: Option<seq<Entry>>, byName: Option<map<Path, Entry>>,
    temp: Option<Bytes>, closed: bool)

  function New(source: Source, password: Password): Fields {
    Fields(source, if source.FileObject? then source.data else [], password, None, None, None, None, false)
  }

  // ── the methods, as functions ───────────────────────────────────────────

  /** `_backing_path`: the file behind the archive; `disk` is what the user's own path holds now. */
  function Backing(a: Fields, disk: Option<Bytes>): (Fields, Option<Bytes>) {
    if a.source.OnDisk? then (a, disk)
    else if a.temp.Some? then (a, a.temp)
    else
      var data := if a.source.FileObject? then a.unread else a.source.data;
      (a.(temp := Some(data), unread := []), Some(data))
  }

  /** `_open`. */
  function Opened(eng: Engine, a: Fields, disk: Option<Bytes>): (Fields, Result<Reader, OpenError>) {
    if a.closed then (a, Failure(ClosedArchive))
    else if a.reader.Some? then (a, Success(a.reader.value))
    else
      var (b, data) := Backing(a, disk);
      if data.None? then (b, Failure(FileNotFound))
      else
        match eng(data.value, b.password)
        case Success(listing) =>
          var reader := Reader(data.value, b.password, listing);
          (b.(reader := Some(reader)), Success(reader))
        case Failure(e) => (b.(temp := None), Failure(EngineFailed(e)))
  }

  /** The password setter. */
  function WithPassword(a: Fields, password: Password): Fields {
    a.(password := password, reader := None, entries := None, byName := None)
  }

  /** `close`. */
  function Closed(a: Fields): Fields {
    a.(reader := None, entries := None, byName := None, temp := None, closed := true)
  }

  /** `_listing`: fills both caches from the reader's snapshot, once. */
  function Listed(eng: Engine, a: Fields, disk: Option<Bytes>): (Fields, Result<seq<Entry>, OpenError>) {
    if a.entries.Some? then (a, Success(a.entries.value))
    else
      var (b, r) := Opened(eng, a, disk);
      match r
      case Failure(e) => (b, Failure(e))
      case Success(reader) =>
        var entries := EntriesOf(reader.listing);
        (b.(entries := Some(entries), byName := Some(NameIndex(entries))), Success(entries))
  }

  /** Every method that lists, reads, opens or extracts goes through one of the first two. */
  datatype Op = Access(disk: Option<Bytes>) | List(disk: Option<Bytes>) | SetPassword(password: Password) | Close

  function Do(eng: Engine, a: Fields, op: Op): Fields {
    match op
    case Access(disk) => Opened(eng, a, disk).0
    case List(disk) => Listed(eng, a, disk).0
    case SetPassword(p) => WithPassword(a, p)
    case Close => Closed(a)
  }

  /** The object after a sequence of calls. */
  ghost function Life(eng: Engine, a: Fields, ops: seq<Op>): Fields {
    if ops == [] then a else Do(eng, Life(eng, a, ops[..|ops| - 1]), ops[|ops| - 1])
  }

  // ── the lifecycle invariant ─────────────────────────────────────────────

  ghost predicate Inv(eng: Engine, a: Fields) {
    && (a.entries.Some? <==> a.byName.Some?)
    && (a.entries.Some? ==>
          && a.reader.Some? && a.entries.value == EntriesOf(a.reader.value.listing)
          && IsNameIndex(a.entries.value, a.byName.value))
    && (a.reader.Some? ==>
          && a.reader.value.password == a.password
          && eng(a.reader.value.data, a.password) == Success(a.reader.value.listing)
          && (!a.source.OnDisk? ==> a.temp == Some(a.reader.value.data)))
    && (a.temp.Some? ==> !a.source.OnDisk?)
    && (a.closed ==> a.reader == None && a.entries == None && a.byName == None)
  }

  /** A closed object holds nothing. (One that an asyncio front enters again after an exit holds a temp file.) */
  predicate HoldsNothingClosed(a: Fields) {
    a.closed ==> a.reader == None && a.entries == None && a.byName == None && a.temp == None
  }

  lemma OpKeepsInv(eng: Engine, a: Fields, op: Op)
    requires Inv(eng, a) && HoldsNothingClosed(a)
    ensures var b := Do(eng, a, op);
            Inv(eng, b) && HoldsNothingClosed(b) && b.source == a.source && (a.closed ==> b.closed)
  {}

  /**
   * After any sequence of calls: entries and name index are loaded together
   * and only with a reader that was opened with the current password, a temp
   * file is kept only for a source without a path, and a closed object holds nothing.
   */
  lemma {:induction false} LifeKeepsInv(eng: Engine, source: Source, password: Password, ops: seq<Op>)
    ensures var a := Life(eng, New(source, password), ops); Inv(eng, a) && HoldsNothingClosed(a) && a.source == source
  {
    if ops != [] {
      LifeKeepsInv(eng, source, password, ops[..|ops| - 1]);
      OpKeepsInv(eng, Life(eng, New(source, password), ops[..|ops| - 1]), ops[|ops| - 1]);
    }
  }

  /** After a `close`, whatever else is called, every opening access raises and changes nothing. */
  lemma {:induction false} ClosedForGood(
      eng: Engine, source: Source, password: Password, ops: seq<Op>, disk: Option<Bytes>)
    requires Close in ops
    ensures var a := Life(eng, New(source, password), ops);
            && a.closed && a.temp == None
            && Opened(eng, a, disk) == (a, Failure(ClosedArchive))
            && Listed(eng, a, disk) == (a, Failure(ClosedArchive))
  {
    LifeKeepsInv(eng, source, password, ops);
    LifeKeepsInv(eng, source, password, ops[..|ops| - 1]);
    if ops[|ops| - 1] != Close {
      ClosedForGood(eng, source, password, ops[..|ops| - 1], disk);
      OpKeepsInv(eng, Life(eng, New(source, password), ops[..|ops| - 1]), ops[|ops| - 1]);
    }
  }

  // ── what an access answers ──────────────────────────────────────────────

  /** What is behind the archive now: the user's file, the spilled one, or what the source has left to spill. */
  function FileBehind(a: Fields, disk: Option<Bytes>): Option<Bytes> {
    if a.source.OnDisk? then disk
    else if a.temp.Some? then a.temp
    else Some(if a.source.FileObject? then a.unread else a.source.data)
  }

  /**
   * An access of an archive that is open answers with the reader there is and
   * changes nothing; of one that is neither open nor closed, it succeeds
   * exactly if there is a file and the engine lists it under the password; and
   * a closed one refuses.
   */
  lemma AccessAnswers(eng: Engine, a: Fields, disk: Option<Bytes>)
    ensures a.closed ==> Opened(eng, a, disk) == (a, Failure(ClosedArchive))
    ensures !a.closed && a.reader.Some? ==> Opened(eng, a, disk) == (a, Success(a.reader.value))
    ensures !a.closed && a.reader.None? ==>
              var (b, r) := Opened(eng, a, disk);
              var file := FileBehind(a, disk);
              && (r.Success? <==> file.Some? && eng(file.value, a.password).Success?)
              && (r.Success? ==>
                    && r.value == Reader(file.value, a.password, eng(file.value, a.password).value)
                    && b.reader == Some(r.value) && (!a.source.OnDisk? ==> b.temp == file))
              && (file.None? ==> r == Failure(FileNotFound))
              && (file.Some? && r.Failure? ==>
                    r == Failure(EngineFailed(eng(file.value, a.password).error)) && b.reader == None && b.temp == None)
  {}

  /** Listing answers with the entries of the reader that opening answers with, and fails as opening does. */
  lemma ListingAnswers(eng: Engine, a: Fields, disk: Option<Bytes>)
    requires Inv(eng, a)
    ensures match Opened(eng, a, disk).1
            case Failure(e) => Listed(eng, a, disk).1 == Failure(e)
            case Success(reader) =>
              && Listed(eng, a, disk).1 == Success(EntriesOf(reader.listing))
              && Listed(eng, a, disk).0.entries == Some(EntriesOf(reader.listing))
              && Listed(eng, a, disk).0.reader == Some(reader)
  {}

  /** Nothing in the calls resets the archive. */
  predicate OnlyAccesses(ops: seq<Op>) {
    forall op :: op in ops ==> op.Access? || op.List?
  }

  /**
   * Once an access has succeeded, every further one, up to a `close` or a new
   * password, answers with the very same reader, whatever becomes of the user's
   * file meanwhile.
   */
  lemma {:induction false} SameReaderUntilReset(
      eng: Engine, a: Fields, first: Option<Bytes>, ops: seq<Op>, disk: Option<Bytes>)
    requires Inv(eng, a) && Opened(eng, a, first).1.Success? && OnlyAccesses(ops)
    ensures var (b, r) := Opened(eng, a, first);
            var e := Life(eng, b, ops);
            && Opened(eng, e, disk) == (e, r)
            && Listed(eng, e, disk).1 == Success(EntriesOf(r.value.listing))
            && Inv(eng, e) && e.reader == Some(r.value) && !e.closed
  {
    if ops != [] {
      assert forall op :: op in ops[..|ops| - 1] ==> op in ops;
      assert ops[|ops| - 1] in ops;
      SameReaderUntilReset(eng, a, first, ops[..|ops| - 1], disk);
    }
  }

  /** The password last set, or the one at the start. */
  function LastPassword(ops: seq<Op>, start: Password): Password {
    if ops == [] then start
    else if ops[|ops| - 1].SetPassword? then ops[|ops| - 1].password
    else LastPassword(ops[..|ops| - 1], start)
  }

  /** An object has the password last set. */
  lemma {:induction false} PasswordIsTheLastSet(eng: Engine, a: Fields, ops: seq<Op>)
    ensures Life(eng, a, ops).password == LastPassword(ops, a.password)
  {
    if ops != [] {
      PasswordIsTheLastSet(eng, a, ops[..|ops| - 1]);
    }
  }

  /** So whatever reader an access answers with, the engine listed it under the password last set. */
  lemma OpensWithTheLastPassword(
      eng: Engine, source: Source, password: Password, ops: seq<Op>, disk: Option<Bytes>)
    ensures match Opened(eng, Life(eng, New(source, password), ops), disk).1
            case Success(x) => x.password == LastPassword(ops, password)
                               && eng(x.data, LastPassword(ops, password)) == Success(x.listing)
            case Failure(_) => true
  {
    LifeKeepsInv(eng, source, password, ops);
    PasswordIsTheLastSet(eng, New(source, password), ops);
    AccessAnswers(eng, Life(eng, New(source, password), ops), disk);
  }

  // ── the backing bytes ───────────────────────────────────────────────────

  /** A call in which the engine refuses to open the archive. */
  predicate Refused(eng: Engine, a: Fields, op: Op) {
    match op
    case Access(disk) => Opened(eng, a, disk).1.Failure? && Opened(eng, a, disk).1.error.EngineFailed?
    case List(disk) => Listed(eng, a, disk).1.Failure? && Listed(eng, a, disk).1.error.EngineFailed?
    case _ => false
  }

  ghost predicate EverRefused(eng: Engine, a: Fields, ops: seq<Op>) {
    ops != [] &&
    (EverRefused(eng, a, ops[..|ops| - 1]) || Refused(eng, Life(eng, a, ops[..|ops| - 1]), ops[|ops| - 1]))
  }

  lemma {:induction false} SpillHistory(eng: Engine, source: Source, password: Password, ops: seq<Op>)
    requires !Life(eng, New(source, password), ops).closed
    ensures var a := Life(eng, New(source, password), ops);
            match source
            case OnDisk(_) => true
            case InMemory(data) => a.temp == None || a.temp == Some(data)
            case FileObject(data) =>
              if EverRefused(eng, New(source, password), ops) then
                a.unread == [] && (a.temp == None || a.temp == Some([]))
              else
                (a.temp == None && a.unread == data) || (a.temp == Some(data) && a.unread == [])
  {
    if ops != [] {
      var before := Life(eng, New(source, password), ops[..|ops| - 1]);
      LifeKeepsInv(eng, source, password, ops[..|ops| - 1]);
      OpKeepsInv(eng, before, ops[|ops| - 1]);
      SpillHistory(eng, source, password, ops[..|ops| - 1]);
    }
  }

  /**
   * The file behind an open archive is the source, byte for byte: always for
   * `bytes`; for a file object exactly until the engine first refuses it,
   * because the refusal drops the only copy of bytes that are already read.
   */
  lemma BackingIsTheSource(eng: Engine, source: Source, password: Password, ops: seq<Op>, disk: Option<Bytes>)
    requires !source.OnDisk? && !Life(eng, New(source, password), ops).closed
    ensures Backing(Life(eng, New(source, password), ops), disk).1 == Some(source.data)
            <==> (source.FileObject? && EverRefused(eng, New(source, password), ops) ==> source.data == [])
  {
    SpillHistory(eng, source, password, ops);
    LifeKeepsInv(eng, source, password, ops);
  }

  /**
   * The failing case, call by call: a file object of one byte, an engine that
   * refuses it, and one access. The byte has been read, the copy on disk is
   * deleted, and what stands behind the archive from then on is an empty file.
   */
  lemma RefusedFileObjectIsLost(password: Password, b: Byte)
    ensures var eng: Engine := (_, _) => Failure("refused");
            var a := Life(eng, New(FileObject([b]), password), [Access(None)]);
            && !a.closed && a.temp == None && a.unread == []
            && Backing(a, None).1 == Some([]) && FileObject([b]).data == [b]
  {
    var eng: Engine := (_, _) => Failure("refused");
    assert [Access(None)][..0] == [];
    assert Life(eng, New(FileObject([b]), password), []) == New(FileObject([b]), password);
  }

  /** A password retry on a `bytes` or file source reuses the spilled file. */
  lemma RetryReusesTheSpill(eng: Engine, a: Fields, password: Password, disk: Option<Bytes>)
    requires Inv(eng, a) && !a.source.OnDisk? && a.reader.Some?
    ensures var (b, data) := Backing(WithPassword(a, password), disk);
            b == WithPassword(a, password) && data == Some(a.reader.value.data)
  {}
}
