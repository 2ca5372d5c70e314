/**
 * The engine writing an entry into a Python object (src/lib.rs, `PySink` and
 * `write_entry_to`), under the standard library's write-all loop.
 */
module Sinks {
  import opened Base

  /** What the object's `write` came back with: an int of any sign and size, something else, or an exception. */
  datatype Reply = Count(n: int) | SomethingElse | Raised(error: string)

  /**
   * Spool: takes everything and says so. Steady: takes something of every chunk
   * and says how much. Honest: keeps what it reports, or raises. Wild: promises
   * nothing.
   */
  datatype Manners = Spool | Steady | Honest | Wild

  predicate Reliable(m: Manners) {
    m.Spool? || m.Steady?
  }

  datatype IoError = SinkRaised(text: string) | WriteZero

  datatype PyError = FromSink(error: string) | FromEngine(error: string)

  /** How much of a chunk the adapter takes as accepted: clamped, and everything when it cannot tell. */
  function Accepted(reply: Reply, length: nat): (n: nat)
    requires !reply.Raised?
    ensures n <= length
  {
    match reply
    case Count(n) => if 0 <= n <= length then n else length
    case SomethingElse => length
  }

  /**
   * What a sink that tells the truth has stored of a chunk when it answers
   * `reply`: a count it can mean, or everything.
   */
  function Kept(reply: Reply, chunk: Bytes): Bytes {
    if reply.Raised? then []
    else if reply.Count? && 0 <= reply.n < |chunk| then chunk[..reply.n]
    else chunk
  }

  /**
   * A count in range is believed, and then that much of the chunk is what a
   * truthful sink has; anything else it could say means the whole chunk.
   */
  lemma CountsInRangeAreBelieved(reply: Reply, chunk: Bytes)
    requires !reply.Raised?
    ensures |Kept(reply, chunk)| == Accepted(reply, |chunk|) && Kept(reply, chunk) <= chunk
    ensures reply.Count? && 0 <= reply.n <= |chunk| ==> Accepted(reply, |chunk|) == reply.n
    ensures reply.Count? && (reply.n < 0 || reply.n > |chunk|) ==> Accepted(reply, |chunk|) == |chunk|
    ensures reply.SomethingElse? ==> Kept(reply, chunk) == chunk
  {}

  function Flatten(chunks: seq<Bytes>): Bytes {
    if chunks == [] then [] else chunks[0] + Flatten(chunks[1..])
  }

  /** The Python object. Its replies are its own business. */
  class Sink {
    const manners: Manners
    var stored: Bytes
    ghost var raised: Option<string>  // the exception it raised, if it ever did
    ghost var stalled: bool           // it once said it took nothing of a chunk

    constructor (manners: Manners)
      ensures this.manners == manners && stored == [] && raised == None && !stalled
    {
      this.manners := manners;
      stored := [];
      raised, stalled := None, false;
    }

    method Take(chunk: Bytes) returns (reply: Reply)
      modifies this
      ensures raised == if reply.Raised? then Some(reply.error) else old(raised)
      ensures stalled == (old(stalled) || (chunk != [] && reply == Count(0)))
      ensures manners == Spool ==> reply == Count(|chunk|) && stored == old(stored) + chunk
      ensures manners == Steady ==> !reply.Raised? && (chunk != [] ==> Kept(reply, chunk) != [])
      ensures manners == Honest || manners == Steady ==> stored == old(stored) + Kept(reply, chunk)
    {
      reply := *;
      match manners {
        case Spool =>
          reply := Count(|chunk|);
          stored := stored + chunk;
        case Steady =>
          if reply.Raised? || Kept(reply, chunk) == [] {
            reply := SomethingElse;
          }
          stored := stored + Kept(reply, chunk);
        case Honest =>
          stored := stored + Kept(reply, chunk);
        case Wild =>
          stored := *;
      }
      if reply.Raised? {
        raised := Some(reply.error);
      }
      stalled := stalled || (chunk != [] && reply == Count(0));
    }
  }

  /** `PySink`: `err` keeps the sink's own exception for the way back. */
  class PySink {
    const obj: Sink
    var err: Option<string>

    constructor (obj: Sink)
      ensures this.obj == obj && err == None
    {
      this.obj := obj;
      err := None;
    }

    ghost predicate Behaved() {
      obj.manners != Wild
    }

    method Write(buf: Bytes) returns (r: Result<nat, IoError>)
      requires err == None
      modifies this, obj
      ensures r.Success? ==> r.value <= |buf| && err == None
      ensures r.Failure? ==> r.error.SinkRaised? && err == Some(r.error.text)
      ensures obj.raised == if r.Failure? then err else old(obj.raised)
      ensures obj.stalled == (old(obj.stalled) || (buf != [] && r == Success(0)))
      ensures Behaved() ==> obj.stored == old(obj.stored) + if r.Success? then buf[..r.value] else []
      ensures Reliable(obj.manners) ==> r.Success? && (buf != [] ==> r.value > 0)
    {
      var reply := obj.Take(buf);
      match reply {
        case Raised(e) =>
          err := Some(e);
          return Failure(SinkRaised(e));
        case _ =>
          return Success(Accepted(reply, |buf|));
      }
    }

    /** `Write::write_all`: the slice stays in bounds and the loop ends, whatever the sink reports. */
    method WriteAll(buf: Bytes) returns (r: Result<(), IoError>)
      requires err == None
      modifies this, obj
      ensures r.Success? ==> err == None
      ensures r.Failure? ==> err == if r.error.SinkRaised? then Some(r.error.text) else None
      ensures obj.raised == if err.Some? then err else old(obj.raised)
      ensures obj.stalled == (old(obj.stalled) || r == Failure(WriteZero))
      ensures Behaved() ==>
                if r.Success? then obj.stored == old(obj.stored) + buf
                else exists k :: 0 <= k < |buf| && obj.stored == old(obj.stored) + buf[..k]
      ensures Reliable(obj.manners) ==> r.Success?
    {
      var done := 0;
      while done < |buf|
        invariant 0 <= done <= |buf| && err == None && obj.raised == old(obj.raised)
        invariant obj.stalled == old(obj.stalled)
        invariant Behaved() ==> obj.stored == old(obj.stored) + buf[..done]
        decreases |buf| - done
      {
        var w := Write(buf[done..]);
        if w.Failure? {
          return Failure(w.error);
        }
        if w.value == 0 {
          return Failure(WriteZero);
        }
        assert buf[..done] + buf[done..][..w.value] == buf[..done + w.value];
        done := done + w.value;
      }
      assert buf[..done] == buf;
      return Success(());
    }
  }

  lemma FlattenGrows(chunks: seq<Bytes>, i: nat)
    requires i < |chunks|
    ensures Flatten(chunks[..i + 1]) == Flatten(chunks[..i]) + chunks[i]
  {
    if i == 0 {
      assert chunks[..1][1..] == [] && chunks[..0] == [];
    } else {
      FlattenGrows(chunks[1..], i - 1);
      assert chunks[..i + 1][1..] == chunks[1..][..i] && chunks[..i][1..] == chunks[1..][..i - 1];
    }
  }

  lemma FlattenPrefix(chunks: seq<Bytes>, i: nat)
    requires i <= |chunks|
    ensures Flatten(chunks[..i]) <= Flatten(chunks)
  {
    if i == 0 {
    } else {
      FlattenPrefix(chunks[1..], i - 1);
      assert chunks[..i][1..] == chunks[1..][..i - 1];
    }
  }

  /** What the standard library's write-all loop says of a writer that takes nothing. */
  const WRITE_ZERO := "failed to write whole buffer"

  /** The result, from what became of the sink and of the engine: the first trouble met. */
  function Verdict(raised: Option<string>, stalled: bool, fate: Option<string>): Result<(), PyError> {
    if raised.Some? then Failure(FromSink(raised.value))
    else if stalled then Failure(FromEngine(WRITE_ZERO))
    else if fate.Some? then Failure(FromEngine(fate.value))
    else Success(())
  }

  /**
   * `write_entry_to`: the engine emits `chunks` and then finishes, or fails
   * with `fate`. An exception of the sink comes out as itself; a sink that
   * stalls, or the engine's own failure, as the engine's error; and nothing
   * else fails. A sink that keeps what it reports has the entry's bytes exactly
   * once and in order unless it raised or stalled, and then a prefix of them.
   */
  method WriteEntryTo(chunks: seq<Bytes>, fate: Option<string>, obj: Sink) returns (r: Result<(), PyError>)
    requires obj.raised == None && !obj.stalled
    modifies obj
    ensures r == Verdict(obj.raised, obj.stalled, fate)
    ensures obj.raised.Some? ==> r == Failure(FromSink(obj.raised.value))
    ensures obj.raised.None? ==> !(r.Failure? && r.error.FromSink?) && (r.Success? <==> !obj.stalled && fate == None)
    ensures obj.raised.None? && obj.stalled ==> r == Failure(FromEngine(WRITE_ZERO))
    ensures obj.raised.None? && !obj.stalled && fate.Some? ==> r == Failure(FromEngine(fate.value))
    ensures obj.manners != Wild && obj.raised == None && !obj.stalled ==>
              obj.stored == old(obj.stored) + Flatten(chunks)
    ensures obj.manners != Wild ==>
              exists part :: part <= Flatten(chunks) && obj.stored == old(obj.stored) + part
    ensures Reliable(obj.manners) ==> obj.raised == None && !obj.stalled
  {
    var sink := new PySink(obj);
    for i := 0 to |chunks|
      invariant sink.err == None && sink.obj == obj && fresh(sink) && obj.raised == None && !obj.stalled
      invariant obj.manners != Wild ==> obj.stored == old(obj.stored) + Flatten(chunks[..i])
    {
      var w := sink.WriteAll(chunks[i]);
      FlattenGrows(chunks, i);
      FlattenPrefix(chunks, i + 1);
      if w.Failure? {
        if obj.manners != Wild {
          ghost var k :| 0 <= k < |chunks[i]|
                      && obj.stored == old(obj.stored) + Flatten(chunks[..i]) + chunks[i][..k];
          PartOf(Flatten(chunks[..i]), chunks[i], k, Flatten(chunks));
          assert obj.stored == old(obj.stored) + (Flatten(chunks[..i]) + chunks[i][..k]);
        }
        return Failure(if sink.err.Some? then FromSink(sink.err.value) else FromEngine(WRITE_ZERO));
      }
    }
    assert chunks[..|chunks|] == chunks;
    if fate.Some? {
      return Failure(FromEngine(fate.value));
    }
    return Success(());
  }

  /** `read`: the whole entry in memory, or the engine's error, whatever it had emitted by then. */
  method ReadEntry(chunks: seq<Bytes>, fate: Option<string>) returns (r: Result<Bytes, PyError>)
    ensures fate == None ==> r == Success(Flatten(chunks))
    ensures fate.Some? ==> r == Failure(FromEngine(fate.value))
  {
    var buf: Bytes := [];
    for i := 0 to |chunks|
      invariant buf == Flatten(chunks[..i])
    {
      FlattenGrows(chunks, i);
      buf := buf + chunks[i];
    }
    assert chunks[..|chunks|] == chunks;
    return if fate.Some? then Failure(FromEngine(fate.value)) else Success(buf);
  }

  lemma PartOf(a: Bytes, b: Bytes, k: nat, whole: Bytes)
    requires k <= |b| && a + b <= whole
    ensures a + b[..k] <= whole
  {}
}
