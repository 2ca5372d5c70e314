/** The file objects the user reads from (python/newtua/_stream.py). */
module EntryStreams {
  import opened Base
  import opened Sinks
  import opened TempFiles
  import S = Streams

  datatype StreamError = ClosedFile | CorruptArchive(total: nat, expected: nat)

  /** How many of `available` bytes a buffered `read(size)` takes: all of them for a negative size. */
  function Share(size: int, available: nat): (n: nat)
    ensures n <= available
  {
    if size < 0 || size > available then available else size
  }

  /**
   * A store being read: a spool, or a buffered reader over a pipe. `rest` is
   * what it has still to give, `given` what it gave.
   */
  class Backing {
    var rest: Bytes
    ghost var given: Bytes
    var closed: bool

    constructor (content: Bytes)
      ensures rest == content && given == [] && !closed
    {
      rest, given, closed := content, [], false;
    }

    method Read(size: int) returns (data: Bytes)
      modifies this
      ensures data == old(rest)[..Share(size, |old(rest)|)]
      ensures given == old(given) + data && data + rest == old(rest) && closed == old(closed)
      ensures if size < 0 || size > |old(rest)| then rest == [] else |data| == size
    {
      data := rest[..Share(size, |rest|)];
      rest, given := rest[|data|..], given + data;
    }

    /** May stop short of the buffer, but brings something unless there is no room or no data. */
    method ReadInto(room: nat) returns (data: Bytes)
      modifies this
      ensures data <= old(rest) && |data| <= room && (data == [] ==> room == 0 || old(rest) == [])
      ensures given == old(given) + data && data + rest == old(rest) && closed == old(closed)
    {
      var n: nat :| n <= room && n <= |rest| && (n == 0 ==> room == 0 || rest == []);
      data := rest[..n];
      rest, given := rest[n..], given + data;
    }

    method Close()
      modifies this
      ensures closed && rest == old(rest) && given == old(given)
    {
      closed := true;
    }
  }

  // ── buffered mode ───────────────────────────────────────────────────────

  class EntryStream {
    const backing: Backing
    var closed: bool

    constructor (backing: Backing)
      ensures this.backing == backing && !closed
    {
      this.backing := backing;
      closed := false;
    }

    method Read(size: int) returns (r: Result<Bytes, StreamError>)
      modifies backing
      ensures closed ==> r == Failure(ClosedFile) && backing.rest == old(backing.rest)
      ensures !closed ==> r == Success(old(backing.rest)[..Share(size, |old(backing.rest)|)])
      ensures !closed ==> r.value + backing.rest == old(backing.rest)
      ensures !closed ==> if size < 0 || size > |old(backing.rest)| then backing.rest == [] else |r.value| == size
    {
      if closed {
        return Failure(ClosedFile);
      }
      var data := backing.Read(size);
      return Success(data);
    }

    method Close()
      modifies this, backing
      ensures closed && (!old(closed) ==> backing.closed)
    {
      if !closed {
        backing.Close();
      }
      closed := true;
    }
  }

  /**
   * `from_writer` over `write_entry_to`: the stream comes back filled and
   * rewound exactly when the engine finishes, and reads as the whole entry.
   */
  method FromWriter(chunks: seq<Bytes>, fate: Option<string>) returns (r: Result<EntryStream, PyError>)
    ensures r.Success? <==> fate == None
    ensures r.Success? ==> fresh(r.value) && fresh(r.value.backing) && !r.value.closed && !r.value.backing.closed
    ensures r.Success? ==> r.value.backing.rest == Flatten(chunks)
    ensures r.Failure? ==> r.error == FromEngine(fate.value)
  {
    var spool := new Sink(Spool);
    var written := WriteEntryTo(chunks, fate, spool);
    if written.Failure? {
      return Failure(written.error);
    }
    var backing := new Backing(spool.stored);
    var stream := new EntryStream(backing);
    return Success(stream);
  }

  // ── streamed mode ───────────────────────────────────────────────────────

  /** What a read hands to the user: the bytes, or the verdict on a stream that ended short. */
  function Answer(expected: Option<nat>, total: nat, want: int, data: Bytes): Result<Bytes, StreamError> {
    if S.Truncated(expected, total, S.Exhausted(want, |data|)) then Failure(CorruptArchive(total, expected.value))
    else Success(data)
  }

  /** A read raises exactly if it reached the end below the listed size, and otherwise hands over what it took. */
  lemma AnswerIs(expected: Option<nat>, total: nat, want: int, data: Bytes)
    ensures var r := Answer(expected, total, want, data);
            && (r.Failure? <==>
                  (want < 0 || data == []) && expected.Some? && 0 < expected.value && total < expected.value)
            && (r.Success? ==> r.value == data)
            && (r.Failure? ==> r.error == CorruptArchive(total, expected.value))
  {}

  /** The descriptors that Python code, and nobody else, has to close. The numbers are the kernel's choice. */
  class Descriptors {
    var owned: set<nat>

    constructor ()
      ensures owned == {}
    {
      owned := {};
    }

    /** `os.pipe`. */
    method Pipe(r: nat, w: nat)
      requires r != w && r !in owned && w !in owned
      modifies this
      ensures owned == old(owned) + {r, w}
    {
      owned := owned + {r, w};
    }

    /** A descriptor somebody else made: `msvcrt.open_osfhandle`. */
    method Adopt(fd: nat)
      requires fd !in owned
      modifies this
      ensures owned == old(owned) + {fd}
    {
      owned := owned + {fd};
    }

    /** A descriptor that somebody else closes from now on: `File::from_raw_fd`. */
    method HandOver(fd: nat)
      requires fd in owned
      modifies this
      ensures owned == old(owned) - {fd}
    {
      owned := owned - {fd};
    }

    /** `os.close`. */
    method Close(fd: nat)
      requires fd in owned
      modifies this
      ensures owned == old(owned) - {fd}
    {
      owned := owned - {fd};
    }
  }

  class PipeStream {
    const backing: Backing
    const expected: Option<nat>
    const claim: TempFile?  // `on_close` releases it
    const table: Descriptors
    const fd: nat           // the read end, closed with the backing
    var readTotal: nat
    var closed: bool

    ghost predicate Valid()
      reads this, backing
    {
      readTotal == |backing.given|
    }

    constructor (backing: Backing, expected: Option<nat>, claim: TempFile?, table: Descriptors, fd: nat)
      requires backing.given == []
      ensures this.backing == backing && this.expected == expected && this.claim == claim
      ensures this.table == table && this.fd == fd
      ensures Valid() && readTotal == 0 && !closed
    {
      this.backing, this.expected, this.claim, this.table, this.fd := backing, expected, claim, table, fd;
      readTotal, closed := 0, false;
    }

    /** `_took`: the tally, and the verdict once the data has run out. */
    method Took(want: int, data: Bytes) returns (r: Result<Bytes, StreamError>)
      modifies this
      ensures readTotal == old(readTotal) + |data| && closed == old(closed)
      ensures r == Answer(expected, readTotal, want, data)
    {
      readTotal := readTotal + |data|;
      if !(want < 0 || |data| == 0) {
        return Success(data);
      }
      if expected.Some? && expected.value > 0 && readTotal < expected.value {
        return Failure(CorruptArchive(readTotal, expected.value));
      }
      return Success(data);
    }

    /** `read` and `read1`. */
    method Read(size: int) returns (r: Result<Bytes, StreamError>)
      requires Valid()
      modifies this, backing
      ensures Valid() && closed == old(closed)
      ensures closed ==>
                r == Failure(ClosedFile) && backing.given == old(backing.given) && backing.rest == old(backing.rest)
      ensures !closed ==>
                var data := old(backing.rest)[..Share(size, |old(backing.rest)|)];
                && backing.given == old(backing.given) + data && data + backing.rest == old(backing.rest)
                && r == Answer(expected, readTotal, size, data)
                && (r.Failure? <==>
                      (size < 0 || data == [])
                      && expected.Some? && 0 < expected.value && |backing.given| < expected.value)
                && (r.Success? ==> r.value == data)
                && (r.Failure? ==> r.error == CorruptArchive(|backing.given|, expected.value))
    {
      if closed {
        return Failure(ClosedFile);
      }
      var data := backing.Read(size);
      r := Took(size, data);
    }

    method ReadInto(room: nat) returns (r: Result<Bytes, StreamError>)
      requires Valid()
      modifies this, backing
      ensures Valid() && closed == old(closed)
      ensures closed ==>
                r == Failure(ClosedFile) && backing.given == old(backing.given) && backing.rest == old(backing.rest)
      ensures !closed ==>
                exists data ::
                  && data <= old(backing.rest) && |data| <= room
                  && (data == [] ==> room == 0 || old(backing.rest) == [])
                  && backing.given == old(backing.given) + data && data + backing.rest == old(backing.rest)
                  && r == Answer(expected, readTotal, room, data)
                  && (r.Failure? <==>
                        data == [] && expected.Some? && 0 < expected.value && |backing.given| < expected.value)
                  && (r.Success? ==> r.value == data)
    {
      if closed {
        return Failure(ClosedFile);
      }
      var data := backing.ReadInto(room);
      r := Took(room, data);
    }

    /**
     * `close`. The read end is closed and the claim goes back on the first call
     * that finds the stream open; `raises` is whether the backing's own `close`
     * raises, in which case the stream stays open and the claim is gone all the
     * same.
     */
    method Close(raises: bool)
      requires Valid() && (!closed ==> fd in table.owned)
      modifies this, backing, claim, table
      ensures Valid() && closed == (old(closed) || !raises) && readTotal == old(readTotal)
      ensures backing.given == old(backing.given) && backing.rest == old(backing.rest)
      ensures table.owned == if old(closed) || raises then old(table.owned) else old(table.owned) - {fd}
      ensures claim != null ==> claim.View() == if old(closed) then old(claim.View()) else Released(old(claim.View()))
    {
      var alreadyClosed := closed;
      if !closed && !raises {
        backing.Close();
        table.Close(fd);
      }
      closed := closed || !raises;
      if !alreadyClosed && claim != null {
        claim.Release();
      }
    }
  }

  // ── iterating, as `async for` does ──────────────────────────────────────

  const CHUNK := 64 * 1024

  /** `AsyncEntryStream.__anext__`: one chunk, or none when the stream has ended well. */
  method NextChunk(stream: PipeStream) returns (r: Result<Option<Bytes>, StreamError>)
    requires stream.Valid()
    modifies stream, stream.backing
    ensures stream.Valid() && stream.closed == old(stream.closed)
    ensures stream.closed ==> r == Failure(ClosedFile)
    ensures !stream.closed ==>
              var data := old(stream.backing.rest)[..Share(CHUNK, |old(stream.backing.rest)|)];
              && data + stream.backing.rest == old(stream.backing.rest)
              && stream.backing.given == old(stream.backing.given) + data
              && (data != [] ==> r == Success(Some(data)))
              && (data == [] ==>
                    r == if S.Truncated(stream.expected, stream.readTotal, true)
                         then Failure(CorruptArchive(stream.readTotal, stream.expected.value)) else Success(None))
  {
    var chunk := stream.Read(CHUNK);
    match chunk {
      case Failure(e) => return Failure(e);
      case Success(data) => return Success(if data == [] then None else Some(data));
    }
  }

  /**
   * `async for` over an open stream ends, with the chunks adding up to all the
   * bytes there were; it ends in an error exactly when they fall short of the
   * listed size.
   */
  method Iterate(stream: PipeStream) returns (chunks: seq<Bytes>, error: Option<StreamError>)
    requires stream.Valid() && !stream.closed
    modifies stream, stream.backing
    ensures Flatten(chunks) == old(stream.backing.rest) && [] !in chunks
    ensures stream.Valid() && stream.backing.rest == []
    ensures error.Some?
            <==> S.Truncated(stream.expected, |old(stream.backing.given)| + |old(stream.backing.rest)|, true)
    ensures error.Some? ==> error.value.CorruptArchive?
  {
    chunks := [];
    while true
      invariant stream.Valid() && !stream.closed && [] !in chunks
      invariant Flatten(chunks) + stream.backing.rest == old(stream.backing.rest)
      invariant |stream.backing.given| + |stream.backing.rest|
                == |old(stream.backing.given)| + |old(stream.backing.rest)|
      decreases |stream.backing.rest|
    {
      var chunk := NextChunk(stream);
      match chunk {
        case Failure(e) => return chunks, Some(e);
        case Success(None) => return chunks, None;
        case Success(Some(data)) =>
          assert (chunks + [data])[..|chunks|] == chunks && (chunks + [data])[..|chunks| + 1] == chunks + [data];
          FlattenGrows(chunks + [data], |chunks|);
          chunks := chunks + [data];
      }
    }
  }

  // ── closing more than once ──────────────────────────────────────────────

  /** How often a series of `close` calls gives the claim back; `raises[k]` says the `k`-th backing close raises. */
  function TimesReleased(raises: seq<bool>): nat {
    if raises == [] then 0
    else if raises[0] then 1 + TimesReleased(raises[1..])
    else 1
  }

  /**
   * Closing again and again gives the claim back exactly once if and only if
   * the first close is the only one or does not raise.
   */
  lemma ClaimIsReleasedOnceIff(raises: seq<bool>)
    requires raises != []
    ensures TimesReleased(raises) == 1 <==> |raises| == 1 || !raises[0]
  {
    if |raises| > 1 {
      assert TimesReleased(raises[1..]) >= 1;
    }
  }

  /** A series of `close` calls, as the class runs it; the descriptor is closed once at most. */
  method CloseAgainAndAgain(stream: PipeStream, raises: seq<bool>)
    requires stream.Valid() && !stream.closed && stream.claim != null && stream.fd in stream.table.owned
    modifies stream, stream.backing, stream.claim, stream.table
    ensures stream.claim.holders == old(stream.claim.holders) - TimesReleased(raises)
    ensures stream.table.owned == old(stream.table.owned) - if false in raises then {stream.fd} else {}
  {
    ghost var before := stream.claim.holders;
    for k := 0 to |raises|
      invariant stream.Valid()
      invariant if stream.closed then stream.claim.holders == before - TimesReleased(raises)
                else stream.claim.holders - TimesReleased(raises[k..]) == before - TimesReleased(raises)
      invariant stream.closed <==> false in raises[..k]
      invariant stream.table.owned == old(stream.table.owned) - if stream.closed then {stream.fd} else {}
    {
      stream.Close(raises[k]);
      assert raises[k..][1..] == raises[k + 1..];
      assert raises[..k + 1] == raises[..k] + [raises[k]];
    }
    assert raises[..|raises|] == raises;
  }
}
