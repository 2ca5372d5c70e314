/**
 * Whole programs on one thread: what any sequence of calls on an archive and
 * its streams comes to, as a function of the calls; and the objects that come
 * to exactly that, by a run of the system.
 */
module Programs {
  import opened Base
  import opened StreamSystem
  import opened EntryStreams
  import opened ArchiveObject
  import opened Sessions
  import G = Guarantees
  import L = Lifecycle
  import Lookup

  // ── what calls come to ──────────────────────────────────────────────────

  datatype Call =
    | Use(disk: Option<Bytes>)                                                 // anything that needs the archive open
    | List(disk: Option<Bytes>)                                                // anything that needs its entries
    | SetPassword(password: Password)
    | Close
    | OpenStream(ref: Lookup.Ref, disk: Option<Bytes>, refusal: Option<string>)
    | ReadStream(k: nat, size: int)
    | CloseStream(k: nat)

  datatype Reply =
    | Nothing
    | UsedAs(reader: Result<L.Reader, L.OpenError>)
    | ListedAs(entries: Result<seq<Lookup.Entry>, L.OpenError>)
    | StreamedAs(outcome: Result<(), StreamFailure>)
    | ReadAs(data: Result<Bytes, StreamError>)

  /** The archive's fields, and a record for each call that got as far as a pipe. */
  datatype World = World(fields: L.Fields, streams: seq<Record>)

  function Started(c: Config): World {
    World(L.New(c.source, c.password), [])
  }

  /** What an `open` adds to the records. */
  function Trace(x: Result<Record, StreamFailure>): seq<Record> {
    match x
    case Success(record) => [record]
    case Failure(e) => if e.EngineRefused? then [Refused] else []
  }

  /** `read(size)` of one stream. */
  function ReadRecord(x: Record, size: int): (Record, Reply) {
    match x
    case Refused => (x, Nothing)
    case Stream(listed, given, rest, open) =>
      if !open then (x, ReadAs(Failure(ClosedFile)))
      else
        var data := rest[..Share(size, |rest|)];
        (Stream(listed, given + data, rest[|data|..], true),
         ReadAs(Answer(Some(listed), |given| + |data|, size, data)))
  }

  function CloseRecord(x: Record): Record {
    if x.Stream? then x.(open := false) else x
  }

  function Outcome(c: Config, eng: L.Engine, w: World, call: Call): (World, Reply) {
    match call
    case Use(disk) => var (b, r) := L.Opened(eng, w.fields, disk); (w.(fields := b), UsedAs(r))
    case List(disk) => var (b, r) := L.Listed(eng, w.fields, disk); (w.(fields := b), ListedAs(r))
    case SetPassword(password) => (w.(fields := L.WithPassword(w.fields, password)), Nothing)
    case Close => (w.(fields := L.Closed(w.fields)), Nothing)
    case OpenStream(ref, disk, refusal) =>
      var x := Asked(c, eng, w.fields, ref, disk, refusal);
      (World(L.Listed(eng, w.fields, disk).0, w.streams + Trace(x)),
       StreamedAs(if x.Success? then Success(()) else Failure(x.error)))
    case ReadStream(k, size) =>
      if k >= |w.streams| then (w, Nothing)
      else var (x, r) := ReadRecord(w.streams[k], size); (w.(streams := w.streams[k := x]), r)
    case CloseStream(k) =>
      if k >= |w.streams| then (w, Nothing)
      else (w.(streams := w.streams[k := CloseRecord(w.streams[k])]), Nothing)
  }

  /** The outcome of a whole program, and the replies it got. */
  function Outcomes(c: Config, eng: L.Engine, calls: seq<Call>): (World, seq<Reply>) {
    if calls == [] then (Started(c), [])
    else
      var (w, replies) := Outcomes(c, eng, calls[..|calls| - 1]);
      var (w', reply) := Outcome(c, eng, w, calls[|calls| - 1]);
      (w', replies + [reply])
  }

  lemma OneMoreCall(c: Config, eng: L.Engine, calls: seq<Call>, i: nat)
    requires i < |calls|
    ensures var (w, replies) := Outcomes(c, eng, calls[..i]);
            var (w', reply) := Outcome(c, eng, w, calls[i]);
            Outcomes(c, eng, calls[..i + 1]) == (w', replies + [reply])
  {
    assert calls[..i + 1][..i] == calls[..i];
  }

  predicate Sees(c: Config, call: Call) {
    call.Use? || call.List? || call.OpenStream? ==> IsStill(c, call.disk)
  }

  /** `y` is `x` after some more calls: the same bytes in all, some more of them given, and closed if it was. */
  predicate Later(x: Record, y: Record) {
    if x == Refused then y == Refused
    else
      && y.Stream? && y.size == x.size && x.given <= y.given && y.given + y.rest == x.given + x.rest
      && (y.open ==> x.open) && (!x.open ==> y == x)
  }

  lemma OutcomeIsLater(c: Config, eng: L.Engine, w: World, call: Call, k: nat)
    requires k < |w.streams|
    ensures var e := Outcome(c, eng, w, call).0; k < |e.streams| && Later(w.streams[k], e.streams[k])
  {
    var x := w.streams[k];
    if call.ReadStream? && call.k == k && x.Stream? && x.open {
      var data := x.rest[..Share(call.size, |x.rest|)];
      assert x.rest == data + x.rest[|data|..];
      assert (x.given + data) + x.rest[|data|..] == x.given + x.rest;
    }
  }

  /**
   * Whatever is called after a stream was opened, closing the archive, changing
   * its password, failing opens and other streams included: the stream goes on
   * giving its own bytes, each once and in order, until it is closed.
   */
  lemma {:induction false} StreamsGiveTheirBytes(c: Config, eng: L.Engine, calls: seq<Call>, i: nat, k: nat)
    requires i <= |calls| && k < |Outcomes(c, eng, calls[..i]).0.streams|
    ensures k < |Outcomes(c, eng, calls).0.streams|
    ensures Later(Outcomes(c, eng, calls[..i]).0.streams[k], Outcomes(c, eng, calls).0.streams[k])
    decreases |calls|
  {
    if i == |calls| {
      assert calls[..i] == calls;
    } else {
      var n := |calls| - 1;
      assert calls[..n][..i] == calls[..i];
      StreamsGiveTheirBytes(c, eng, calls[..n], i, k);
      OutcomeIsLater(c, eng, Outcomes(c, eng, calls[..n]).0, calls[n], k);
    }
  }

  // ── what the replies say ────────────────────────────────────────────────

  /** Each call has its own reply, out of what the calls before it left. */
  lemma {:induction false} ReplyAt(c: Config, eng: L.Engine, calls: seq<Call>, i: nat)
    ensures |Outcomes(c, eng, calls).1| == |calls|
    ensures i < |calls| ==>
              Outcomes(c, eng, calls).1[i] == Outcome(c, eng, Outcomes(c, eng, calls[..i]).0, calls[i]).1
  {
    if calls != [] {
      var n := |calls| - 1;
      ReplyAt(c, eng, calls[..n], i);
      if i < n {
        assert calls[..n][..i] == calls[..i];
      }
    }
  }

  /** What a call is to the archive: one on a stream is nothing to it. */
  function OpOf(call: Call): (ops: seq<L.Op>)
    ensures |ops| <= 1
  {
    match call
    case Use(disk) => [L.Access(disk)]
    case List(disk) => [L.List(disk)]
    case SetPassword(password) => [L.SetPassword(password)]
    case Close => [L.Close]
    case OpenStream(_, disk, _) => [L.List(disk)]
    case ReadStream(_, _) => []
    case CloseStream(_) => []
  }

  function OpsOf(calls: seq<Call>): seq<L.Op> {
    if calls == [] then [] else OpsOf(calls[..|calls| - 1]) + OpOf(calls[|calls| - 1])
  }

  lemma OutcomeIsAnOp(c: Config, eng: L.Engine, w: World, call: Call)
    ensures Outcome(c, eng, w, call).0.fields
            == if OpOf(call) == [] then w.fields else L.Do(eng, w.fields, OpOf(call)[0])
  {}

  /** So whatever holds of every life of an archive holds in every program. */
  lemma {:induction false} FieldsAreALife(c: Config, eng: L.Engine, calls: seq<Call>)
    ensures Outcomes(c, eng, calls).0.fields == L.Life(eng, L.New(c.source, c.password), OpsOf(calls))
    ensures L.Inv(eng, Outcomes(c, eng, calls).0.fields)
  {
    if calls != [] {
      var n := |calls| - 1;
      var ops, op := OpsOf(calls[..n]), OpOf(calls[n]);
      FieldsAreALife(c, eng, calls[..n]);
      OutcomeIsAnOp(c, eng, Outcomes(c, eng, calls[..n]).0, calls[n]);
      assert if op == [] then ops + op == ops else (ops + op)[..|ops|] == ops && (ops + op)[|ops|] == op[0];
    }
    L.LifeKeepsInv(eng, c.source, c.password, OpsOf(calls));
  }

  /**
   * Every call is answered for what it asks: an opening or a listing out of the
   * life that the calls so far make; a read by the closed error exactly if its
   * stream is closed; and a `close` shuts its stream and loses nothing of it.
   */
  lemma EachCallHasItsAnswer(c: Config, eng: L.Engine, calls: seq<Call>, i: nat)
    requires i < |calls|
    ensures |Outcomes(c, eng, calls).1| == |calls|
    ensures var a := L.Life(eng, L.New(c.source, c.password), OpsOf(calls[..i]));
            var streams := Outcomes(c, eng, calls[..i]).0.streams;
            var reply := Outcomes(c, eng, calls).1[i];
            match calls[i]
            case Use(disk) => reply == UsedAs(L.Opened(eng, a, disk).1)
            case List(disk) => reply == ListedAs(L.Listed(eng, a, disk).1)
            case OpenStream(ref, disk, refusal) =>
              && reply.StreamedAs?
              && var x := Asked(c, eng, a, ref, disk, refusal);
                 reply.outcome == if x.Success? then Success(()) else Failure(x.error)
            case ReadStream(k, _) =>
              k < |streams| && streams[k].Stream? ==>
                reply.ReadAs? && (reply.data == Failure(ClosedFile) <==> !streams[k].open)
            case CloseStream(k) =>
              k < |streams| && streams[k].Stream? ==>
                Outcomes(c, eng, calls[..i + 1]).0.streams == streams[k := streams[k].(open := false)]
            case _ => reply == Nothing
  {
    ReplyAt(c, eng, calls, i);
    FieldsAreALife(c, eng, calls[..i]);
    OneMoreCall(c, eng, calls, i);
  }

  predicate Resets(call: Call) {
    call.Close? || call.SetPassword?
  }

  lemma OutcomeKeepsReader(c: Config, eng: L.Engine, w: World, call: Call)
    requires L.Inv(eng, w.fields) && w.fields.reader.Some? && !w.fields.closed && !Resets(call)
    ensures var e := Outcome(c, eng, w, call).0; e.fields.reader == w.fields.reader && !e.fields.closed
  {}

  lemma LastCallKeepsReader(c: Config, eng: L.Engine, calls: seq<Call>)
    requires calls != [] && !Resets(calls[|calls| - 1])
    ensures var a, b := Outcomes(c, eng, calls[..|calls| - 1]).0.fields, Outcomes(c, eng, calls).0.fields;
            a.reader.Some? && !a.closed ==> b.reader == a.reader && !b.closed
  {
    var n := |calls| - 1;
    FieldsAreALife(c, eng, calls[..n]);
    var w := Outcomes(c, eng, calls[..n]).0;
    if w.fields.reader.Some? && !w.fields.closed {
      OutcomeKeepsReader(c, eng, w, calls[n]);
    }
  }

  /** Calls that reset nothing keep the reader there is. */
  lemma {:induction false} ReaderStays(c: Config, eng: L.Engine, calls: seq<Call>, i: nat, reader: L.Reader)
    requires i <= |calls| && forall j :: i <= j < |calls| ==> !Resets(calls[j])
    requires var a := Outcomes(c, eng, calls[..i]).0.fields; a.reader == Some(reader) && !a.closed
    ensures var a := Outcomes(c, eng, calls).0.fields; a.reader == Some(reader) && !a.closed
    decreases |calls|
  {
    if i == |calls| {
      assert calls[..i] == calls;
    } else {
      var n := |calls| - 1;
      assert calls[..n][..i] == calls[..i];
      ReaderStays(c, eng, calls[..n], i, reader);
      LastCallKeepsReader(c, eng, calls);
    }
  }

  /**
   * In any program: after an access that succeeded, every access and every
   * listing up to the next `close` or new password gets the same reader, and
   * its entries.
   */
  lemma AccessesAgree(c: Config, eng: L.Engine, calls: seq<Call>, i: nat, j: nat, reader: L.Reader)
    requires i < j < |calls| && forall m :: i < m < j ==> !Resets(calls[m])
    requires |Outcomes(c, eng, calls).1| == |calls| && Outcomes(c, eng, calls).1[i] == UsedAs(Success(reader))
    ensures calls[j].Use? ==> Outcomes(c, eng, calls).1[j] == UsedAs(Success(reader))
    ensures calls[j].List? ==>
              Outcomes(c, eng, calls).1[j] == ListedAs(Success(Lookup.EntriesOf(reader.listing)))
  {
    ReplyAt(c, eng, calls, i);
    ReplyAt(c, eng, calls, j);
    OneMoreCall(c, eng, calls, i);
    assert calls[..j][..i + 1] == calls[..i + 1];
    ReaderStays(c, eng, calls[..j], i + 1, reader);
    FieldsAreALife(c, eng, calls[..j]);
  }

  /** What one reply returned of the bytes of stream `k`, and whether it raised. */
  function Part(call: Call, reply: Reply, k: nat): Bytes {
    if call.ReadStream? && call.k == k && reply.ReadAs? && reply.data.Success? then reply.data.value else []
  }

  predicate Raises(call: Call, reply: Reply, k: nat) {
    call.ReadStream? && call.k == k && reply.ReadAs? && reply.data.Failure? && reply.data.error.CorruptArchive?
  }

  /** The bytes that the successful reads of one stream returned, in order. */
  function Handed(calls: seq<Call>, replies: seq<Reply>, k: nat): Bytes
    requires |calls| == |replies|
  {
    if calls == [] then []
    else
      var n := |calls| - 1;
      Handed(calls[..n], replies[..n], k) + Part(calls[n], replies[n], k)
  }

  /** A read of the stream raised the truncation error. */
  ghost predicate Raised(calls: seq<Call>, replies: seq<Reply>, k: nat)
    requires |calls| == |replies|
  {
    exists i :: 0 <= i < |calls| && Raises(calls[i], replies[i], k)
  }

  /** What was returned is what was given, but for what a read that raised at the end withheld. */
  predicate Squares(streams: seq<Record>, k: nat, handed: Bytes, raised: bool) {
    if k < |streams| && streams[k].Stream? then
      handed <= streams[k].given && (handed == streams[k].given || (raised && streams[k].rest == []))
    else handed == []
  }

  lemma ReadSquares(x: Record, k: nat, size: int, handed: Bytes, raised: bool)
    requires Squares([x], 0, handed, raised)
    ensures var (y, r) := ReadRecord(x, size);
            Squares([y], 0, handed + Part(ReadStream(k, size), r, k), raised || Raises(ReadStream(k, size), r, k))
  {}

  lemma OutcomeSquares(c: Config, eng: L.Engine, w: World, call: Call, k: nat, handed: Bytes, raised: bool)
    requires Squares(w.streams, k, handed, raised)
    ensures var (e, r) := Outcome(c, eng, w, call);
            Squares(e.streams, k, handed + Part(call, r, k), raised || Raises(call, r, k))
  {
    if call.ReadStream? && call.k == k && k < |w.streams| {
      assert [w.streams[k]][0] == w.streams[k];
      ReadSquares(w.streams[k], k, call.size, handed, raised);
    }
  }

  /**
   * In any program, the bytes that the reads of one stream returned are those
   * it gave, each once and in order; none is withheld unless a read raised.
   */
  lemma {:induction false} ReadsReturnWhatWasGiven(c: Config, eng: L.Engine, calls: seq<Call>, k: nat)
    ensures |Outcomes(c, eng, calls).1| == |calls|
    ensures var (w, replies) := Outcomes(c, eng, calls);
            Squares(w.streams, k, Handed(calls, replies, k), Raised(calls, replies, k))
  {
    ReplyAt(c, eng, calls, 0);
    if calls != [] {
      var n := |calls| - 1;
      var before, replies := Outcomes(c, eng, calls[..n]), Outcomes(c, eng, calls).1;
      ReadsReturnWhatWasGiven(c, eng, calls[..n], k);
      assert replies[..n] == before.1;
      OutcomeSquares(c, eng, before.0, calls[n], k, Handed(calls[..n], before.1, k), Raised(calls[..n], before.1, k));
      RaisedGrows(calls, replies, k);
    }
  }

  lemma RaisedGrows(calls: seq<Call>, replies: seq<Reply>, k: nat)
    requires |calls| == |replies| > 0
    ensures var n := |calls| - 1;
            Raised(calls, replies, k) <==> Raised(calls[..n], replies[..n], k) || Raises(calls[n], replies[n], k)
  {
    var n := |calls| - 1;
    if i :| 0 <= i < |calls| && Raises(calls[i], replies[i], k) {
      assert i < n ==> Raises(calls[..n][i], replies[..n][i], k);
    }
    if i :| 0 <= i < n && Raises(calls[..n][i], replies[..n][i], k) {
      assert Raises(calls[i], replies[i], k);
    }
  }

  /** The stream of entry `j` at its start: its listed size, and all that the engine emits of it still to come. */
  function StreamOf(c: Config, reader: L.Reader, j: nat): Record
    requires j < |reader.listing|
  {
    var d := c.decode(reader.data, reader.password, j);
    Stream(reader.listing[j].size, [], d.content[..d.breakAt], true)
  }

  /**
   * `open(ref, stream=True)`: the error of opening; or the error of a reference
   * that means nothing; or what the platform cannot do; or the engine's own
   * refusal; or a stream of the very entry the reference means.
   */
  lemma OpenAnswers(c: Config, eng: L.Engine, a: L.Fields, ref: Lookup.Ref, disk: Option<Bytes>,
                    refusal: Option<string>)
    requires L.Inv(eng, a)
    ensures match L.Opened(eng, a, disk).1
            case Failure(e) => Asked(c, eng, a, ref, disk, refusal) == Failure(NotOpened(e))
            case Success(reader) =>
              var entries := Lookup.EntriesOf(reader.listing);
              && (Lookup.MeansNothing(entries, ref) ==>
                    Asked(c, eng, a, ref, disk, refusal) == Failure(NoEntry(Lookup.NotFound(ref))))
              && forall j: nat :: Lookup.Means(entries, ref, j) ==>
                   Asked(c, eng, a, ref, disk, refusal)
                   == if c.platform.Windows? && !c.source.OnDisk? then Failure(Unsupported)
                      else if refusal.Some? then Failure(EngineRefused(refusal.value))
                      else Success(StreamOf(c, reader, j))
  {
    L.ListingAnswers(eng, a, disk);
    var r := L.Opened(eng, a, disk).1;
    if r.Success? {
      var entries := Lookup.EntriesOf(r.value.listing);
      TargetIsPlace(entries, ref);
      FieldsOfListed(eng, a, disk);
      forall j: nat | Lookup.Means(entries, ref, j) ensures Target(entries, ref) == Success((j, entries[j].size)) {
        if Target(entries, ref).Success? {
          Lookup.MeansOneThing(entries, ref, j, Target(entries, ref).value.0);
        }
      }
    }
  }

  lemma FieldsOfListed(eng: L.Engine, a: L.Fields, disk: Option<Bytes>)
    requires L.Inv(eng, a)
    ensures L.Opened(eng, a, disk).1.Success? ==>
              && L.Listed(eng, a, disk).0.password == a.password == L.Opened(eng, a, disk).1.value.password
              && L.Listed(eng, a, disk).0.reader == Some(L.Opened(eng, a, disk).1.value)
  {}

  lemma OpenMakesAStream(c: Config, eng: L.Engine, w: World, call: Call) returns (j: nat)
    requires L.Inv(eng, w.fields) && call.OpenStream?
    requires Outcome(c, eng, w, call).1 == StreamedAs(Success(()))
    ensures var opening := L.Opened(eng, w.fields, call.disk).1;
            && opening.Success? && Lookup.Means(Lookup.EntriesOf(opening.value.listing), call.ref, j)
            && Outcome(c, eng, w, call).0.streams == w.streams + [StreamOf(c, opening.value, j)]
  {
    OpenAnswers(c, eng, w.fields, call.ref, call.disk, call.refusal);
    j :| Lookup.Means(Lookup.EntriesOf(L.Opened(eng, w.fields, call.disk).1.value.listing), call.ref, j);
  }

  lemma FromStart(x: Record, y: Record, handed: Bytes, raised: bool)
    requires x.Stream? && x.given == [] && Later(x, y) && Squares([y], 0, handed, raised)
    ensures y.Stream? && y.size == x.size && handed <= x.rest && (y.rest == [] && !raised ==> handed == x.rest)
  {
    assert handed <= y.given <= y.given + y.rest == x.rest;
  }

  /**
   * In any program, a stream that an `open` returned is of the entry its
   * reference means in what the engine lists; and however the reads, the other
   * calls and the archive's end fall, what its reads return is a prefix of what
   * the engine emits of that entry, and all of it once the stream is drained
   * and no read has raised.
   */
  lemma ReadersGetTheirEntry(c: Config, eng: L.Engine, calls: seq<Call>, i: nat)
    requires i < |calls| && calls[i].OpenStream?
    requires |Outcomes(c, eng, calls).1| == |calls| && Outcomes(c, eng, calls).1[i] == StreamedAs(Success(()))
    ensures var (w, replies) := Outcomes(c, eng, calls);
            var before := Outcomes(c, eng, calls[..i]).0;
            var k := |before.streams|;
            var opening := L.Opened(eng, before.fields, calls[i].disk).1;
            && opening.Success? && k < |w.streams| && w.streams[k].Stream?
            && exists j: nat :: Lookup.Means(Lookup.EntriesOf(opening.value.listing), calls[i].ref, j)
                 && w.streams[k].size == opening.value.listing[j].size
                 && var whole := StreamOf(c, opening.value, j).rest;
                 && Handed(calls, replies, k) <= whole
                 && (w.streams[k].rest == [] && !Raised(calls, replies, k) ==> Handed(calls, replies, k) == whole)
  {
    var before := Outcomes(c, eng, calls[..i]).0;
    var k := |before.streams|;
    var opening := L.Opened(eng, before.fields, calls[i].disk).1;
    ReplyAt(c, eng, calls, i);
    FieldsAreALife(c, eng, calls[..i]);
    OneMoreCall(c, eng, calls, i);
    var j := OpenMakesAStream(c, eng, before, calls[i]);
    StreamsGiveTheirBytes(c, eng, calls, i + 1, k);
    ReadsReturnWhatWasGiven(c, eng, calls, k);
    FromStart(StreamOf(c, opening.value, j), Outcomes(c, eng, calls).0.streams[k],
              Handed(calls, Outcomes(c, eng, calls).1, k), Raised(calls, Outcomes(c, eng, calls).1, k));
  }

  // ── the objects come to that ────────────────────────────────────────────

  /** The objects are in the state that the records say. */
  ghost predicate ShowEach(handles: seq<PipeStream?>, streams: seq<Record>)
    reads set h: PipeStream | h in handles :: h, set h: PipeStream | h in handles :: h.backing
  {
    |handles| == |streams| && forall i :: 0 <= i < |handles| ==> Shows(handles[i], streams[i])
  }

  lemma ShowOneMore(handles: seq<PipeStream?>, streams: seq<Record>, r: Result<PipeStream, StreamFailure>,
                    x: Result<Record, StreamFailure>)
    requires ShowEach(handles, streams)
    requires match x
             case Failure(e) => r == Failure(e)
             case Success(record) => r.Success? && Shows(r.value, record)
    ensures ShowEach(handles + Handle(r), streams + Trace(x))
  {}

  ghost predicate ShowsAll(s: Session, w: World)
    reads s, s.ar, s.ar.tempfile
    reads set h: PipeStream | h in s.handles :: h, set h: PipeStream | h in s.handles :: h.backing
  {
    s.ar.View() == w.fields && ShowEach(s.handles, w.streams)
  }

  method MakeOpening(s: Session, call: Call, ghost w: World) returns (reply: Reply)
    requires s.c.front.Sync? && s.Valid() && Sees(s.c, call) && ShowsAll(s, w) && (call.Use? || call.List?)
    modifies s`run, s.ar, s.ar.tempfile
    ensures s.Valid() && s.GoesOn({})
    ensures ShowsAll(s, Outcome(s.c, s.ar.engine, w, call).0) && reply == Outcome(s.c, s.ar.engine, w, call).1
  {
    match call
    case Use(disk) =>
      var r := s.Use(disk);
      reply := UsedAs(r);
    case List(disk) =>
      var r := s.List(disk);
      reply := ListedAs(r);
  }

  method MakeReset(s: Session, call: Call, ghost w: World) returns (reply: Reply)
    requires s.c.front.Sync? && s.Valid() && Sees(s.c, call) && ShowsAll(s, w) && (call.SetPassword? || call.Close?)
    modifies s`run, s.ar, s.ar.tempfile
    ensures s.Valid() && s.GoesOn({})
    ensures ShowsAll(s, Outcome(s.c, s.ar.engine, w, call).0) && reply == Outcome(s.c, s.ar.engine, w, call).1
  {
    match call
    case SetPassword(password) =>
      s.SetPassword(password);
      reply := Nothing;
    case Close =>
      s.Close();
      reply := Nothing;
  }

  method MakeOpen(s: Session, call: Call, next: nat, ghost w: World) returns (reply: Reply)
    requires s.c.front.Sync? && s.Valid() && Sees(s.c, call) && forall n :: n in s.Now().fds ==> n < next
    requires ShowsAll(s, w) && call.OpenStream?
    modifies s, s.ar, s.ar.tempfile, s.fds
    ensures s.Valid() && s.GoesOn({next, next + 1})
    ensures ShowsAll(s, Outcome(s.c, s.ar.engine, w, call).0) && reply == Outcome(s.c, s.ar.engine, w, call).1
    ensures forall h: PipeStream :: h in s.handles ==> h in old(s.handles) || (fresh(h) && fresh(h.backing))
  {
    ghost var x, before := Asked(s.c, s.ar.engine, w.fields, call.ref, call.disk, call.refusal), s.handles;
    var r := s.OpenStream(call.ref, call.disk, next, next + 1, call.refusal);
    ShowOneMore(before, w.streams, r, x);
    reply := StreamedAs(if r.Success? then Success(()) else Failure(r.error));
  }

  lemma ShowOneMoved(handles: seq<PipeStream?>, streams: seq<Record>, k: nat, x: Record)
    requires |handles| == |streams| && k < |handles| && Shows(handles[k], x)
    requires forall i :: 0 <= i < |handles| && i != k ==> Shows(handles[i], streams[i])
    ensures ShowEach(handles, streams[k := x])
  {}

  method MakeOneRead(s: Session, k: nat, size: int, ghost x: Record) returns (reply: Reply)
    requires s.c.front.Sync? && s.Valid() && IsOpenHandle(s, k) && Shows(s.handles[k], x)
    modifies s`run, s.handles[k], s.handles[k].backing
    ensures s.Valid() && s.GoesOn({})
    ensures Shows(s.handles[k], ReadRecord(x, size).0) && reply == ReadRecord(x, size).1
  {
    var r := s.ReadStream(k, size);
    reply := ReadAs(r);
  }

  method MakeRead(s: Session, k: nat, size: int, ghost w: World) returns (reply: Reply)
    requires s.c.front.Sync? && s.Valid() && ShowEach(s.handles, w.streams) && IsOpenHandle(s, k)
    modifies s`run, s.handles[k], s.handles[k].backing
    ensures s.Valid() && s.GoesOn({})
    ensures ShowEach(s.handles, w.streams[k := ReadRecord(w.streams[k], size).0])
    ensures reply == ReadRecord(w.streams[k], size).1
  {
    assert Shows(s.handles[k], w.streams[k]);
    reply := MakeOneRead(s, k, size, w.streams[k]);
    ShowOneMoved(s.handles, w.streams, k, ReadRecord(w.streams[k], size).0);
  }

  method MakeVainRead(s: Session, k: nat, size: int, ghost w: World) returns (reply: Reply)
    requires s.Valid() && ShowEach(s.handles, w.streams)
    requires k < |s.handles| && s.handles[k] != null && s.handles[k].closed
    modifies s.handles[k], s.handles[k].backing
    ensures s.Valid() && ShowEach(s.handles, w.streams[k := ReadRecord(w.streams[k], size).0])
    ensures reply == ReadRecord(w.streams[k], size).1
  {
    assert Shows(s.handles[k], w.streams[k]);
    var r := s.ReadShut(k, size);
    reply := ReadAs(r);
    ShowOneMoved(s.handles, w.streams, k, w.streams[k]);
  }

  method MakeClose(s: Session, k: nat, ghost w: World)
    requires s.Valid() && ShowEach(s.handles, w.streams) && k < |s.handles| && s.handles[k] != null
    modifies s`run, s.fds, s.handles[k], s.handles[k].backing, s.handles[k].claim
    ensures s.Valid() && s.GoesOn({})
    ensures ShowEach(s.handles, w.streams[k := CloseRecord(w.streams[k])])
  {
    assert Shows(s.handles[k], w.streams[k]);
    if s.handles[k].closed {
      s.CloseShut(k);
    } else {
      s.CloseStream(k);
    }
    ShowOneMoved(s.handles, w.streams, k, CloseRecord(w.streams[k]));
  }

  lemma ClaimIsSpilled(s: Session, k: nat)
    requires s.Valid() && k < |s.handles| && s.handles[k] != null && s.handles[k].claim != null
    ensures s.handles[k].claim in s.ar.spilled
  {
    assert HandleMirrors(s.Now(), s.ar.spilled, s.fds, s.handles[k], k);
  }

  predicate HasHandle(s: Session, k: nat)
    reads s
  {
    k < |s.handles| && s.handles[k] != null
  }

  /** Where an open was refused, or there was none, there is nothing to call. */
  lemma NothingToCall(s: Session, call: Call, w: World)
    requires ShowEach(s.handles, w.streams) && (call.ReadStream? || call.CloseStream?) && !HasHandle(s, call.k)
    ensures Outcome(s.c, s.ar.engine, w, call) == (w, Nothing)
  {
    if call.k < |s.handles| {
      assert Shows(s.handles[call.k], w.streams[call.k]);
      assert w.streams[call.k := Refused] == w.streams;
    }
  }

  method MakeReadCall(s: Session, call: Call, ghost w: World) returns (reply: Reply)
    requires s.c.front.Sync? && s.Valid() && ShowsAll(s, w) && call.ReadStream? && HasHandle(s, call.k)
    modifies s`run, s.handles[call.k], s.handles[call.k].backing
    ensures s.Valid() && s.GoesOn({})
    ensures ShowsAll(s, Outcome(s.c, s.ar.engine, w, call).0) && reply == Outcome(s.c, s.ar.engine, w, call).1
  {
    if s.handles[call.k].closed {
      reply := MakeVainRead(s, call.k, call.size, w);
    } else {
      reply := MakeRead(s, call.k, call.size, w);
    }
  }

  method MakeCloseCall(s: Session, call: Call, ghost w: World) returns (reply: Reply)
    requires s.Valid() && ShowsAll(s, w) && call.CloseStream? && HasHandle(s, call.k)
    modifies s`run, s.handles[call.k], s.handles[call.k].backing, s.handles[call.k].claim, s.fds
    ensures s.Valid() && s.GoesOn({})
    ensures ShowsAll(s, Outcome(s.c, s.ar.engine, w, call).0) && reply == Outcome(s.c, s.ar.engine, w, call).1
  {
    MakeClose(s, call.k, w);
    reply := Nothing;
  }

  method MakeOnArchive(s: Session, call: Call, next: nat, ghost w: World) returns (reply: Reply)
    requires s.c.front.Sync? && s.Valid() && Sees(s.c, call) && forall n :: n in s.Now().fds ==> n < next
    requires ShowsAll(s, w) && !call.ReadStream? && !call.CloseStream?
    modifies s, s.ar, s.ar.tempfile, s.fds
    ensures s.Valid() && s.GoesOn({next, next + 1})
    ensures ShowsAll(s, Outcome(s.c, s.ar.engine, w, call).0) && reply == Outcome(s.c, s.ar.engine, w, call).1
    ensures forall h: PipeStream :: h in s.handles ==> h in old(s.handles) || (fresh(h) && fresh(h.backing))
  {
    if call.OpenStream? {
      reply := MakeOpen(s, call, next, w);
    } else if call.Use? || call.List? {
      reply := MakeOpening(s, call, w);
    } else {
      reply := MakeReset(s, call, w);
    }
  }

  method MakeOnStream(s: Session, call: Call, ghost w: World) returns (reply: Reply)
    requires s.c.front.Sync? && s.Valid() && ShowsAll(s, w) && (call.ReadStream? || call.CloseStream?)
    modifies s`run, s.ar.spilled, s.fds
    modifies set h: PipeStream | h in s.handles :: h, set h: PipeStream | h in s.handles :: h.backing
    ensures s.Valid() && s.GoesOn({})
    ensures ShowsAll(s, Outcome(s.c, s.ar.engine, w, call).0) && reply == Outcome(s.c, s.ar.engine, w, call).1
  {
    if !HasHandle(s, call.k) {
      NothingToCall(s, call, w);
      return Nothing;
    }
    assert s.handles[call.k] in s.handles;
    if call.ReadStream? {
      reply := MakeReadCall(s, call, w);
    } else {
      if s.handles[call.k].claim != null {
        ClaimIsSpilled(s, call.k);
      }
      reply := MakeCloseCall(s, call, w);
    }
  }

  method Make(s: Session, call: Call, next: nat, ghost w: World) returns (reply: Reply)
    requires s.c.front.Sync? && s.Valid() && Sees(s.c, call) && forall n :: n in s.Now().fds ==> n < next
    requires ShowsAll(s, w)
    modifies s, s.ar, s.ar.spilled, s.fds
    modifies set h: PipeStream | h in s.handles :: h, set h: PipeStream | h in s.handles :: h.backing
    ensures s.Valid() && s.GoesOn({next, next + 1})
    ensures ShowsAll(s, Outcome(s.c, s.ar.engine, w, call).0) && reply == Outcome(s.c, s.ar.engine, w, call).1
    ensures forall h: PipeStream :: h in s.handles ==> h in old(s.handles) || (fresh(h) && fresh(h.backing))
  {
    if call.ReadStream? || call.CloseStream? {
      reply := MakeOnStream(s, call, w);
    } else {
      reply := MakeOnArchive(s, call, next, w);
    }
  }

  /** The next call of a program. */
  method Advance(s: Session, calls: seq<Call>, i: nat) returns (reply: Reply)
    requires s.c.front.Sync? && s.Valid() && i < |calls| && Sees(s.c, calls[i])
    requires ShowsAll(s, Outcomes(s.c, s.ar.engine, calls[..i]).0) && forall n :: n in s.Now().fds ==> n < 2 * i
    modifies s, s.ar, s.ar.spilled, s.fds
    modifies set h: PipeStream | h in s.handles :: h, set h: PipeStream | h in s.handles :: h.backing
    ensures s.Valid() && forall n :: n in s.Now().fds ==> n < 2 * (i + 1)
    ensures ShowsAll(s, Outcomes(s.c, s.ar.engine, calls[..i + 1]).0)
    ensures Outcomes(s.c, s.ar.engine, calls[..i + 1]).1 == Outcomes(s.c, s.ar.engine, calls[..i]).1 + [reply]
    ensures forall t :: t in s.ar.spilled ==> t in old(s.ar.spilled) || fresh(t)
    ensures forall h: PipeStream :: h in s.handles ==> h in old(s.handles) || (fresh(h) && fresh(h.backing))
  {
    OneMoreCall(s.c, s.ar.engine, calls, i);
    reply := Make(s, calls[i], 2 * i, Outcomes(s.c, s.ar.engine, calls[..i]).0);
  }

  /**
   * Any program that uses an archive and its streams on one thread: a new
   * archive, and then whatever calls, with whatever the engine answers. Every
   * call is answered, and the objects end up, exactly as `Outcomes` has it; and
   * what they went through is a run of the system from its start, in which they
   * stand for the state.
   */
  method Play(c: Config, engine: L.Engine, calls: seq<Call>) returns (s: Session, replies: seq<Reply>)
    requires c.front.Sync? && c.capacity > 0 && Agrees(c, engine)
    requires forall call :: call in calls ==> Sees(c, call)
    ensures fresh(s) && s.c == c && s.ar.engine == engine && s.Valid()
    ensures replies == Outcomes(c, engine, calls).1 && ShowsAll(s, Outcomes(c, engine, calls).0)
    ensures G.IsRun(c, s.run)
  {
    s := new Session(c, engine);
    replies := [];
    for i := 0 to |calls|
      invariant fresh(s) && fresh(s.ar) && fresh(s.fds) && s.c == c && s.ar.engine == engine && s.Valid()
      invariant forall t :: t in s.ar.spilled ==> fresh(t)
      invariant forall h: PipeStream :: h in s.handles ==> fresh(h) && fresh(h.backing)
      invariant forall n :: n in s.Now().fds ==> n < 2 * i
      invariant replies == Outcomes(c, engine, calls[..i]).1 && ShowsAll(s, Outcomes(c, engine, calls[..i]).0)
    {
      assert forall k :: 0 <= k < |s.ar.spilled| ==> s.ar.spilled[k] in s.ar.spilled;
      var reply := Advance(s, calls, i);
      replies := replies + [reply];
    }
    assert calls[..|calls|] == calls;
  }
}
