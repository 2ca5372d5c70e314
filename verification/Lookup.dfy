/**
 * Finding an entry: the cached name index, the linear scan, integer positions,
 * and the batch selection (python/newtua/_archive.py, python/newtua/_batch.py).
 */
module Lookup {
  import opened Base

  /** A `PurePosixPath`, already normalised. */
  type Path = string

  datatype RawEntry = RawEntry(path: Path, size: nat)

  /** `index` is the position the entry had in the archive that listed it. */
  datatype Entry = Entry(index: nat, path: Path, size: nat)

  datatype Ref = Position(i: int) | Named(path: Path) | Itself(entry: Entry)

  datatype LookupError = IndexError(i: int) | EntryNotFound(path: Path)

  function EntriesOf(raw: seq<RawEntry>): seq<Entry> {
    seq(|raw|, i requires 0 <= i < |raw| => Entry(i, raw[i].path, raw[i].size))
  }

  /** Where the first entry of that name is, searching from `from`. */
  function FirstNamed(entries: seq<Entry>, path: Path, from: nat := 0): (r: Option<nat>)
    requires from <= |entries|
    ensures r.Some? ==> from <= r.value < |entries| && entries[r.value].path == path
    ensures r.Some? ==> forall j :: from <= j < r.value ==> entries[j].path != path
    ensures r.None? ==> forall j :: from <= j < |entries| ==> entries[j].path != path
    decreases |entries| - from
  {
    if from == |entries| then None
    else if entries[from].path == path then Some(from)
    else FirstNamed(entries, path, from + 1)
  }

  /** The name index of an entry list: each name leads to its first bearer. */
  ghost predicate IsNameIndex(entries: seq<Entry>, byName: map<Path, Entry>) {
    forall path ::
      && (path in byName <==> FirstNamed(entries, path).Some?)
      && (path in byName ==> byName[path] == entries[FirstNamed(entries, path).value])
  }

  function NameIndex(entries: seq<Entry>): (byName: map<Path, Entry>)
    ensures IsNameIndex(entries, byName)
  {
    var names := set e | e in entries :: e.path;
    assert forall p :: p in names <==> exists i :: 0 <= i < |entries| && entries[i].path == p;
    map p | p in names :: entries[FirstNamed(entries, p).value]
  }

  lemma NameIndexIsUnique(entries: seq<Entry>, byName: map<Path, Entry>)
    requires IsNameIndex(entries, byName)
    ensures byName == NameIndex(entries)
  {}

  /** Appending an entry leaves an earlier bearer of its name in front. */
  lemma FirstNamedGrows(entries: seq<Entry>, e: Entry, path: Path)
    ensures var before, after := FirstNamed(entries, path), FirstNamed(entries + [e], path);
            if before.Some? then after == before
            else if e.path == path then after == Some(|entries|)
            else after == None
  {
    var after := FirstNamed(entries + [e], path);
    if after.Some? && after.value < |entries| {
      assert (entries + [e])[after.value] == entries[after.value];
    }
    if FirstNamed(entries, path).Some? {
      assert (entries + [e])[FirstNamed(entries, path).value].path == path;
    }
    assert (entries + [e])[|entries|] == e;
  }

  /**
   * `_entries_from_raw`: one entry for each raw one, in order, with its own
   * place, name and size; and for each name that occurs its first bearer.
   */
  method EntriesFromRaw(raw: seq<RawEntry>) returns (entries: seq<Entry>, byName: map<Path, Entry>)
    ensures entries == EntriesOf(raw) && byName == NameIndex(entries)
    ensures IsNameIndex(entries, byName)
    ensures |entries| == |raw|
    ensures forall i :: 0 <= i < |raw| ==>
              entries[i].index == i && entries[i].path == raw[i].path && entries[i].size == raw[i].size
    ensures forall path :: path in byName <==> exists i :: 0 <= i < |raw| && raw[i].path == path
    ensures forall path :: path in byName ==>
              && byName[path].index < |raw| && byName[path] == entries[byName[path].index]
              && raw[byName[path].index].path == path
              && forall j :: 0 <= j < byName[path].index ==> raw[j].path != path
  {
    entries := EntriesOf(raw);
    byName := map[];
    for i := 0 to |entries|
      invariant IsNameIndex(entries[..i], byName)
    {
      var entry := entries[i];
      assert entries[..i + 1] == entries[..i] + [entry];
      forall path
        ensures FirstNamed(entries[..i + 1], path) ==
                var before := FirstNamed(entries[..i], path);
                if before.Some? then before else if entry.path == path then Some(i) else None
      {
        FirstNamedGrows(entries[..i], entry, path);
      }
      if entry.path !in byName {
        byName := byName[entry.path := entry];
      }
    }
    assert entries[..|entries|] == entries;
    NameIndexIsUnique(entries, byName);
    forall path
      ensures path in byName <==> exists i :: 0 <= i < |raw| && raw[i].path == path
      ensures path in byName ==>
                && byName[path].index < |raw| && byName[path] == entries[byName[path].index]
                && raw[byName[path].index].path == path
                && forall j :: 0 <= j < byName[path].index ==> raw[j].path != path
    {
      FirstNamedInRaw(raw, path);
    }
  }

  lemma FirstNamedInRaw(raw: seq<RawEntry>, path: Path)
    ensures match FirstNamed(EntriesOf(raw), path)
            case Some(i) => raw[i].path == path && forall j :: 0 <= j < i ==> raw[j].path != path
            case None => forall j :: 0 <= j < |raw| ==> raw[j].path != path
  {
    forall j | 0 <= j < |raw| ensures EntriesOf(raw)[j].path == raw[j].path {}
  }

  // ── what a reference means ──────────────────────────────────────────────

  /**
   * The entry at `i` is what the reference means: positions count from either
   * end, a name means its first bearer, an entry its own place.
   */
  predicate Means(entries: seq<Entry>, ref: Ref, i: nat) {
    i < |entries| &&
    match ref
    case Position(p) => p == i || p + |entries| == i
    case Named(path) => entries[i].path == path && forall j :: 0 <= j < i ==> entries[j].path != path
    case Itself(e) => e.index == i
  }

  ghost predicate MeansNothing(entries: seq<Entry>, ref: Ref) {
    forall i: nat :: !Means(entries, ref, i)
  }

  /** What is said of a reference that means nothing. */
  function NotFound(ref: Ref): LookupError {
    match ref
    case Position(p) => IndexError(p)
    case Named(path) => EntryNotFound(path)
    case Itself(e) => IndexError(e.index)
  }

  lemma MeansOneThing(entries: seq<Entry>, ref: Ref, i: nat, j: nat)
    requires Means(entries, ref, i) && Means(entries, ref, j)
    ensures i == j
  {}

  /** Every entry is meant by its position, from either end, and by itself; no other position means any. */
  lemma PositionsMeanPlaces(raw: seq<RawEntry>, i: nat, p: int)
    ensures i < |raw| ==>
              && Means(EntriesOf(raw), Position(i), i) && Means(EntriesOf(raw), Position(i - |raw|), i)
              && Means(EntriesOf(raw), Itself(EntriesOf(raw)[i]), i)
    ensures p < -|raw| || p >= |raw| ==> MeansNothing(EntriesOf(raw), Position(p))
  {}

  /** Every name that occurs means its first bearer, and one that does not occur means nothing. */
  lemma NamesMeanFirstBearers(raw: seq<RawEntry>, i: nat, path: Path)
    requires i < |raw| && forall j :: 0 <= j < i ==> raw[j].path != raw[i].path
    ensures Means(EntriesOf(raw), Named(raw[i].path), i)
    ensures (forall j :: 0 <= j < |raw| ==> raw[j].path != path) ==> MeansNothing(EntriesOf(raw), Named(path))
  {
    forall j | 0 <= j < |raw| ensures EntriesOf(raw)[j].path == raw[j].path {}
  }

  /** Python's `t[i]` on a tuple of length `n`: the position it means, if there is one. */
  function TuplePosition(n: nat, i: int): Option<nat> {
    if 0 <= i < n then Some(i) else if i < 0 <= i + n then Some(i + n) else None
  }

  function Resolve(entries: seq<Entry>, ref: Ref): Result<nat, LookupError> {
    match ref
    case Position(i) =>
      if TuplePosition(|entries|, i).Some? then Success(TuplePosition(|entries|, i).value) else Failure(IndexError(i))
    case Named(path) =>
      if FirstNamed(entries, path).Some? then Success(FirstNamed(entries, path).value) else Failure(EntryNotFound(path))
    case Itself(e) => Success(e.index)
  }

  /** `_resolve_index`, with its scan. */
  method ResolveIndex(entries: seq<Entry>, ref: Ref) returns (r: Result<nat, LookupError>)
    requires forall i :: 0 <= i < |entries| ==> entries[i].index == i
    ensures r == Resolve(entries, ref)
    ensures match r
            case Success(i) => Means(entries, ref, i) || (ref.Itself? && i == ref.entry.index && i >= |entries|)
            case Failure(e) => !ref.Itself? && MeansNothing(entries, ref) && e == NotFound(ref)
  {
    match ref
    case Position(i) =>
      if !(-|entries| <= i < |entries|) {
        return Failure(IndexError(i));
      }
      ModIsTuplePosition(|entries|, i);
      return Success(i % |entries|);
    case Itself(e) =>
      return Success(e.index);
    case Named(path) =>
      for k := 0 to |entries|
        invariant FirstNamed(entries, path) == FirstNamed(entries, path, k)
      {
        if entries[k].path == path {
          return Success(entries[k].index);
        }
      }
      return Failure(EntryNotFound(path));
  }

  lemma ModIsTuplePosition(n: nat, i: int)
    requires 0 <= i + n && i < n
    ensures TuplePosition(n, i) == Some(i % n)
  {
    if i < 0 {
      assert (i + n) / n == 0 && i % n == (i + n) % n;
    }
  }

  /** The position a tuple index means is the one in range that lies at it, or at it counted from the end. */
  lemma TuplePositionInRange(n: nat, i: int, j: nat)
    ensures TuplePosition(n, i) == Some(j) <==> j < n && (j == i || j == i + n)
    ensures TuplePosition(n, i) == None <==> i + n < 0 || i >= n
  {}

  /** `archive[key]` for a position or a name; `AsyncArchive` does the same over its cached fields. */
  function GetItem(entries: seq<Entry>, byName: map<Path, Entry>, ref: Ref): Result<Entry, LookupError>
    requires !ref.Itself?
  {
    match ref
    case Position(i) =>
      if TuplePosition(|entries|, i).Some? then Success(entries[TuplePosition(|entries|, i).value])
      else Failure(IndexError(i))
    case Named(path) => if path in byName then Success(byName[path]) else Failure(EntryNotFound(path))
  }

  /** `archive[ref]` is what the reference means, and an error exactly if it means nothing. */
  lemma FoundIsMeant(entries: seq<Entry>, ref: Ref)
    requires !ref.Itself?
    ensures match GetItem(entries, NameIndex(entries), ref)
            case Success(e) => exists i: nat :: Means(entries, ref, i) && e == entries[i]
            case Failure(e) => MeansNothing(entries, ref) && e == NotFound(ref)
  {
    IndexAgreesWithScan(entries, NameIndex(entries), ref);
    var r := Resolve(entries, ref);
    if r.Success? {
      assert Means(entries, ref, r.value);
    }
  }

  /**
   * The index and the scan agree, duplicates and negative positions included:
   * `archive[ref]` and `archive.read(ref)` mean the same entry, or fail alike.
   */
  lemma IndexAgreesWithScan(entries: seq<Entry>, byName: map<Path, Entry>, ref: Ref)
    requires IsNameIndex(entries, byName) && !ref.Itself?
    ensures match Resolve(entries, ref)
            case Success(i) => i < |entries| && GetItem(entries, byName, ref) == Success(entries[i])
            case Failure(e) => GetItem(entries, byName, ref) == Failure(e)
  {
    if ref.Named? {
      var first := FirstNamed(entries, ref.path);
      assert ref.path in byName <==> first.Some?;
    }
  }

  /** Looking an entry up and resolving what was found leads back to it. */
  lemma FoundEntryResolvesToItself(raw: seq<RawEntry>, byName: map<Path, Entry>, ref: Ref)
    requires IsNameIndex(EntriesOf(raw), byName) && !ref.Itself?
    ensures var found := GetItem(EntriesOf(raw), byName, ref);
            found.Success? ==>
              Resolve(EntriesOf(raw), Itself(found.value)) == Resolve(EntriesOf(raw), ref)
  {
    IndexAgreesWithScan(EntriesOf(raw), byName, ref);
  }

  // ── batch selections ────────────────────────────────────────────────────

  function ResolveAll(entries: seq<Entry>, refs: seq<Ref>): Result<seq<int>, LookupError> {
    if refs == [] then Success([])
    else
      match Resolve(entries, refs[0])
      case Failure(e) => Failure(e)
      case Success(i) =>
        match ResolveAll(entries, refs[1..])
        case Failure(e) => Failure(e)
        case Success(rest) => Success([i] + rest)
  }

  /** `_selection_indices`: a selection of integers alone is passed on as it is, without listing the archive. */
  function SelectionIndices(entries: seq<Entry>, refs: seq<Ref>): Result<seq<int>, LookupError> {
    if forall r :: r in refs ==> r.Position? then
      Success(seq(|refs|, k requires 0 <= k < |refs| => assert refs[k] in refs; refs[k].i))
    else ResolveAll(entries, refs)
  }

  /** The `k`-th reference is the first that resolves to nothing. */
  ghost predicate FirstMiss(entries: seq<Entry>, refs: seq<Ref>, k: nat) {
    && k < |refs| && !refs[k].Itself? && MeansNothing(entries, refs[k])
    && forall j :: 0 <= j < k ==> refs[j].Itself? || exists i: nat :: Means(entries, refs[j], i)
  }

  /**
   * A selection that is resolved through the listing gives for every reference
   * the place it means, in order, or the error of the first that means nothing;
   * an entry is taken at its word.
   */
  lemma {:induction false} SelectionIsResolved(entries: seq<Entry>, refs: seq<Ref>)
    requires forall i :: 0 <= i < |entries| ==> entries[i].index == i
    ensures match ResolveAll(entries, refs)
            case Success(places) =>
              |places| == |refs|
              && forall k :: 0 <= k < |refs| ==>
                   if refs[k].Itself? then places[k] == refs[k].entry.index
                   else places[k] >= 0 && Means(entries, refs[k], places[k])
            case Failure(e) => exists k: nat :: FirstMiss(entries, refs, k) && e == NotFound(refs[k])
  {
    if refs != [] {
      SelectionIsResolved(entries, refs[1..]);
      ResolveIsMeant(entries, refs[0]);
      var r, rest := Resolve(entries, refs[0]), ResolveAll(entries, refs[1..]);
      if r.Failure? {
        assert FirstMiss(entries, refs, 0);
      } else if rest.Failure? {
        var k: nat :| FirstMiss(entries, refs[1..], k) && rest.error == NotFound(refs[1..][k]);
        assert refs[0].Itself? || Means(entries, refs[0], r.value);
        FirstMissShifts(entries, refs, k);
      }
    }
  }

  lemma FirstMissShifts(entries: seq<Entry>, refs: seq<Ref>, k: nat)
    requires refs != [] && FirstMiss(entries, refs[1..], k)
    requires refs[0].Itself? || exists i: nat :: Means(entries, refs[0], i)
    ensures FirstMiss(entries, refs, k + 1) && refs[k + 1] == refs[1..][k]
  {
    forall j | 0 < j < k + 1 ensures refs[j].Itself? || exists i: nat :: Means(entries, refs[j], i) {
      assert refs[j] == refs[1..][j - 1];
    }
  }

  lemma ResolveIsMeant(entries: seq<Entry>, ref: Ref)
    ensures match Resolve(entries, ref)
            case Success(i) => if ref.Itself? then i == ref.entry.index else Means(entries, ref, i)
            case Failure(e) => !ref.Itself? && MeansNothing(entries, ref) && e == NotFound(ref)
  {}

  /** `_selection_indices` lists the archive exactly if some reference is no integer. */
  lemma SelectionWithNamesIsResolved(entries: seq<Entry>, refs: seq<Ref>)
    ensures (exists r :: r in refs && !r.Position?) ==> SelectionIndices(entries, refs) == ResolveAll(entries, refs)
    ensures (forall r :: r in refs ==> r.Position?) ==>
              && SelectionIndices(entries, refs).Success? && |SelectionIndices(entries, refs).value| == |refs|
              && forall k :: 0 <= k < |refs| ==> refs[k] == Position(SelectionIndices(entries, refs).value[k])
  {
    forall k | 0 <= k < |refs| ensures refs[k] in refs {}
  }

  lemma {:induction false} ResolvedPositions(entries: seq<Entry>, refs: seq<Ref>, k: nat)
    requires forall r :: r in refs ==> r.Position?
    requires ResolveAll(entries, refs).Success? && k < |refs|
    ensures refs[k] in refs && |ResolveAll(entries, refs).value| == |refs|
    ensures TuplePosition(|entries|, refs[k].i).Some?
         && ResolveAll(entries, refs).value[k] == TuplePosition(|entries|, refs[k].i).value
  {
    assert refs[0] in refs && forall r :: r in refs[1..] ==> r in refs;
    if k > 0 {
      ResolvedPositions(entries, refs[1..], k - 1);
    } else if |refs| > 1 {
      ResolvedPositions(entries, refs[1..], 0);
    }
  }

  lemma {:induction false} PlainPositionsResolve(entries: seq<Entry>, refs: seq<Ref>)
    requires forall r :: r in refs ==> r.Position? && 0 <= r.i < |entries|
    ensures ResolveAll(entries, refs).Success?
  {
    if refs != [] {
      assert refs[0] in refs && forall r :: r in refs[1..] ==> r in refs;
      PlainPositionsResolve(entries, refs[1..]);
    }
  }

  /** The shortcut equals the listing exactly when every position lies in `0..n-1`. */
  lemma ShortcutIsExactForPlainPositions(entries: seq<Entry>, refs: seq<Ref>)
    requires forall r :: r in refs ==> r.Position?
    ensures SelectionIndices(entries, refs) == ResolveAll(entries, refs)
            <==> forall r :: r in refs ==> 0 <= r.i < |entries|
  {
    var fast, slow := SelectionIndices(entries, refs), ResolveAll(entries, refs);
    if forall r :: r in refs ==> 0 <= r.i < |entries| {
      PlainPositionsResolve(entries, refs);
      assert |slow.value| == |refs| by {
        if refs != [] { ResolvedPositions(entries, refs, 0); }
      }
      forall k | 0 <= k < |refs| ensures fast.value[k] == slow.value[k] {
        ResolvedPositions(entries, refs, k);
      }
      assert fast.value == slow.value;
    } else {
      var r :| r in refs && !(0 <= r.i < |entries|);
      var k :| 0 <= k < |refs| && refs[k] == r;
      if slow.Success? {
        ResolvedPositions(entries, refs, k);
        assert fast.value[k] != slow.value[k];
      }
    }
  }
}
