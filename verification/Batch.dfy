/** Many archives at once (python/newtua/_batch.py). */
module Batch {
  import opened Base

  /** An exception: its class and the engine's `kind`, if it carries one. */
  datatype Exception = Exception(cls: string, kind: Option<string>)

  /** What running a task comes to. `Fatal` is a `BaseException` that is no `Exception`. */
  datatype Outcome<T> = Done(value: T) | Failed(error: Exception) | Fatal(error: Exception)

  /** A `(index, ok, error)` triple. */
  datatype Collected<T> = Collected(index: nat, ok: Option<T>, error: Option<Exception>)

  datatype Backend = Thread | Process | Unknown

  // ── errors ──────────────────────────────────────────────────────────────

  const BY_KIND: map<string, string> := map[
    "unknown_format" := "UnknownFormatError", "unsupported" := "UnsupportedError",
    "encrypted" := "PasswordRequiredError", "wrong_password" := "WrongPasswordError",
    "corrupt" := "CorruptArchiveError", "missing_volume" := "MissingVolumeError",
    "path_traversal" := "UnsafePathError", "io" := "OSError", "invalid_index" := "IndexError"]

  /** `_as_typed`: an engine exception becomes its typed counterpart, which carries no `kind` of its own. */
  function AsTyped(e: Exception): Exception {
    match e.kind
    case None => e
    case Some(kind) => Exception(if kind in BY_KIND then BY_KIND[kind] else "NewtuaError", None)
  }

  /**
   * What has a `kind` comes from the engine and leaves as one of newtua's own
   * errors, without the kind: the class its kind stands for, or the common base
   * for a kind this version does not know. What has none leaves as it came.
   */
  lemma EngineErrorsAreTyped(e: Exception)
    ensures match e.kind
            case None => AsTyped(e) == e
            case Some(kind) =>
              AsTyped(e).kind == None
              && if kind in BY_KIND then AsTyped(e).cls == BY_KIND[kind] else AsTyped(e).cls == "NewtuaError"
  {}

  /** An error is typed where the job runs; typing it again when its result is collected changes nothing. */
  lemma TypingIsIdempotent(e: Exception)
    ensures AsTyped(AsTyped(e)) == AsTyped(e)
  {}

  // ── the runner ──────────────────────────────────────────────────────────

  /** How many tasks are submitted when `cancel` is first seen set before the `cancelAt`-th. */
  function Cut(tasks: nat, cancelAt: Option<nat>): (k: nat)
    ensures k <= tasks
  {
    if cancelAt.Some? && cancelAt.value < tasks then cancelAt.value else tasks
  }

  function Collect<T>(i: nat, outcome: Outcome<T>): Collected<T>
    requires !outcome.Fatal?
  {
    match outcome
    case Done(v) => Collected(i, Some(v), None)
    case Failed(e) => Collected(i, None, Some(AsTyped(e)))
  }

  /** `order` lists each of `0..k-1` exactly once. */
  ghost predicate IsOrder(order: seq<nat>, k: nat) {
    && (forall i :: i in order <==> 0 <= i < k)
    && (forall p, q :: 0 <= p < q < |order| ==> order[p] != order[q])
  }

  /** The indices collected, in the order of completion. */
  function Indices<T>(out: seq<Collected<T>>): seq<nat> {
    seq(|out|, p requires 0 <= p < |out| => out[p].index)
  }

  /** Every triple is its own task's outcome. */
  ghost predicate Truthful<T(!new)>(out: seq<Collected<T>>, outcomes: seq<Outcome<T>>) {
    forall x :: x in out ==>
      x.index < |outcomes| && !outcomes[x.index].Fatal? && x == Collect(x.index, outcomes[x.index])
  }

  /**
   * `_run_backend`. Tasks are submitted until `cancel` is seen; results come in
   * whatever order `as_completed` yields them. Nothing is lost or doubled, and
   * a task's failure is data: only a fatal one, if there is any, breaks out.
   */
  method RunBackend<T(!new)>(outcomes: seq<Outcome<T>>, cancelAt: Option<nat>)
    returns (r: Result<seq<Collected<T>>, Exception>)
    ensures var k := Cut(|outcomes|, cancelAt);
            match r
            case Success(out) => IsOrder(Indices(out), k) && Truthful(out, outcomes)
            case Failure(e) => exists i :: 0 <= i < k && outcomes[i] == Fatal(e)
    ensures r.Success? ==>
              forall i :: i in Indices(r.value) <==> 0 <= i < |outcomes| && (cancelAt.None? || i < cancelAt.value)
    ensures r.Success? <==>
            forall i :: 0 <= i < |outcomes| && (cancelAt.None? || i < cancelAt.value) ==> !outcomes[i].Fatal?
    ensures r.Failure? ==>
              exists i :: 0 <= i < |outcomes| && (cancelAt.None? || i < cancelAt.value) && outcomes[i] == Fatal(r.error)
    ensures r.Success? ==>
              forall x :: x in r.value ==>
                match outcomes[x.index]
                case Done(v) => x.ok == Some(v) && x.error == None
                case Failed(e) => x.ok == None && x.error == Some(AsTyped(e))
                case Fatal(_) => false
  {
    ghost var k := Cut(|outcomes|, cancelAt);
    var futures: set<nat> := {};
    var i := 0;
    while i < |outcomes|
      invariant 0 <= i <= k && forall j :: j in futures <==> 0 <= j < i
      invariant cancelAt.Some? ==> i <= cancelAt.value
    {
      if cancelAt.Some? && cancelAt.value <= i {
        break;
      }
      futures := futures + {i};
      i := i + 1;
    }
    assert i == k && (i == |outcomes| || cancelAt == Some(i));
    var out: seq<Collected<T>> := [];
    while futures != {}
      invariant forall j :: j in futures ==> j < k
      invariant forall j :: 0 <= j < k ==> j in futures || j in Indices(out)
      invariant forall j :: j in Indices(out) ==> j < k && j !in futures
      invariant forall p, q :: 0 <= p < q < |out| ==> Indices(out)[p] != Indices(out)[q]
      invariant Truthful(out, outcomes)
      decreases |futures|
    {
      var fut :| fut in futures;
      futures := futures - {fut};
      if outcomes[fut].Fatal? {
        BreaksOutIffFatal(outcomes, k, Failure(outcomes[fut].error));
        return Failure(outcomes[fut].error);
      }
      var more := out + [Collect(fut, outcomes[fut])];
      assert Indices(more) == Indices(out) + [fut];
      out := more;
    }
    BreaksOutIffFatal(outcomes, k, Success(out));
    return Success(out);
  }

  /** Which runs break out: exactly those that submitted a fatal task. */
  lemma BreaksOutIffFatal<T(!new)>(outcomes: seq<Outcome<T>>, k: nat, r: Result<seq<Collected<T>>, Exception>)
    requires k <= |outcomes|
    requires match r
             case Success(out) => IsOrder(Indices(out), k) && Truthful(out, outcomes)
             case Failure(e) => exists i :: 0 <= i < k && outcomes[i] == Fatal(e)
    ensures r.Failure? <==> exists i :: 0 <= i < k && outcomes[i].Fatal?
  {
    if r.Success? {
      forall i | 0 <= i < k ensures !outcomes[i].Fatal? {
        assert i in Indices(r.value);
        var p :| 0 <= p < |r.value| && Indices(r.value)[p] == i;
        assert r.value[p] in r.value;
      }
    }
  }

  // ── extract_many and list_many ──────────────────────────────────────────

  /** One job with its outcome; exactly one of `report` and `error` is set. */
  datatype JobResult<J, T> = JobResult(job: J, report: Option<T>, error: Option<Exception>)

  datatype Call<J, T> = OnResult(job: J, report: T) | OnError(job: J, error: Exception)

  function ResultOf<J, T>(job: J, outcome: Outcome<T>): JobResult<J, T>
    requires !outcome.Fatal?
  {
    match outcome
    case Done(v) => JobResult(job, Some(v), None)
    case Failed(e) => JobResult(job, None, Some(AsTyped(e)))
  }

  /** What the caller gets, whatever the schedule: the submitted jobs, in job order. */
  function Expected<J, T>(jobs: seq<J>, outcomes: seq<Outcome<T>>, k: nat): seq<JobResult<J, T>>
    requires |jobs| == |outcomes| && k <= |jobs|
    requires forall i :: 0 <= i < k ==> !outcomes[i].Fatal?
  {
    seq(k, i requires 0 <= i < k => ResultOf(jobs[i], outcomes[i]))
  }

  /** The result a job gets: its own, with exactly one of report and error. */
  predicate IsResult<J(==), T(==)>(job: J, outcome: Outcome<T>, x: JobResult<J, T>) {
    && x.job == job
    && match outcome
       case Done(v) => x.report == Some(v) && x.error == None
       case Failed(e) => x.report == None && x.error == Some(AsTyped(e))
       case Fatal(_) => false
  }

  /** The call a finished job is due: to the handler of its outcome, if there is one. */
  predicate IsCall<J(==), T(==)>(job: J, outcome: Outcome<T>, onResult: bool, onError: bool, call: Call<J, T>) {
    match outcome
    case Done(v) => onResult && call == OnResult(job, v)
    case Failed(e) => onError && call == OnError(job, AsTyped(e))
    case Fatal(_) => false
  }

  /** The callback a finished job gets; none without its handler. */
  function CallFor<J, T>(
      jobs: seq<J>, outcomes: seq<Outcome<T>>, onResult: bool, onError: bool, i: nat): seq<Call<J, T>>
  {
    if i >= |jobs| || i >= |outcomes| then []
    else
      match outcomes[i]
      case Done(v) => if onResult then [OnResult(jobs[i], v)] else []
      case Failed(e) => if onError then [OnError(jobs[i], AsTyped(e))] else []
      case Fatal(_) => []
  }

  function Gather<X>(f: nat -> seq<X>, order: seq<nat>): seq<X> {
    if order == [] then [] else Gather(f, order[..|order| - 1]) + f(order[|order| - 1])
  }

  /** The callbacks of a run whose jobs complete in `order`. */
  function Calls<J, T>(
      jobs: seq<J>, outcomes: seq<Outcome<T>>, onResult: bool, onError: bool, order: seq<nat>): seq<Call<J, T>>
  {
    Gather(i => CallFor(jobs, outcomes, onResult, onError, i), order)
  }

  function Present<J, T>(results: seq<Option<JobResult<J, T>>>): seq<JobResult<J, T>> {
    if results == [] then []
    else
      Present(results[..|results| - 1]) +
      match results[|results| - 1]
      case None => []
      case Some(r) => [r]
  }

  lemma {:induction false} PresentPrefix<J, T>(results: seq<Option<JobResult<J, T>>>, wanted: seq<JobResult<J, T>>)
    requires |wanted| <= |results|
    requires forall i :: 0 <= i < |wanted| ==> results[i] == Some(wanted[i])
    requires forall i :: |wanted| <= i < |results| ==> results[i] == None
    ensures Present(results) == wanted
  {
    if results != [] {
      var n := |results| - 1;
      if |wanted| <= n {
        PresentPrefix(results[..n], wanted);
      } else {
        PresentPrefix(results[..n], wanted[..n]);
        assert wanted == wanted[..n] + [wanted[n]];
      }
    }
  }

  lemma {:induction false} OrderHasLength(order: seq<nat>, k: nat)
    requires IsOrder(order, k)
    ensures |order| == k
  {
    if order == [] {
      assert k > 0 ==> 0 in order;
    } else {
      assert order[0] in order && k - 1 in order;
      var q :| 0 <= q < |order| && order[q] == k - 1;
      var rest := order[..q] + order[q + 1..];
      forall i ensures i in rest <==> 0 <= i < k - 1 {
        assert i in order <==> i in rest || i == k - 1;
      }
      OrderHasLength(rest, k - 1);
    }
  }

  lemma {:induction false} CallsAreDue<J, T>(
      jobs: seq<J>, outcomes: seq<Outcome<T>>, onResult: bool, onError: bool, order: seq<nat>)
    requires forall i :: i in order ==> i < |jobs| && i < |outcomes|
    ensures var calls := Calls(jobs, outcomes, onResult, onError, order);
            && |calls| <= |order|
            && forall call :: call in calls <==>
                 exists i :: i in order && IsCall(jobs[i], outcomes[i], onResult, onError, call)
  {
    if order != [] {
      var n := |order| - 1;
      assert order == order[..n] + [order[n]] && order[n] in order;
      assert forall i :: i in order[..n] ==> i in order;
      CallsAreDue(jobs, outcomes, onResult, onError, order[..n]);
      assert forall call :: call in CallFor(jobs, outcomes, onResult, onError, order[n]) <==>
        IsCall(jobs[order[n]], outcomes[order[n]], onResult, onError, call);
    }
  }

  /** With both handlers there is one call for each job, and they come in the order of completion. */
  lemma {:induction false} CallsFollowCompletion<J, T>(jobs: seq<J>, outcomes: seq<Outcome<T>>, order: seq<nat>)
    requires forall i :: i in order ==> i < |jobs| && i < |outcomes| && !outcomes[i].Fatal?
    ensures |Calls(jobs, outcomes, true, true, order)| == |order|
    ensures forall p :: 0 <= p < |order| ==>
              order[p] in order
              && IsCall(jobs[order[p]], outcomes[order[p]], true, true, Calls(jobs, outcomes, true, true, order)[p])
  {
    if order != [] {
      var n := |order| - 1;
      assert order == order[..n] + [order[n]] && order[n] in order;
      assert forall i :: i in order[..n] ==> i in order;
      CallsFollowCompletion(jobs, outcomes, order[..n]);
    }
  }

  /**
   * `extract_many` (and `list_many`, which has no `progress` to reject). The
   * list is a function of the jobs and the cut alone; only the order of the
   * callbacks shows the schedule, and each submitted job gets at most one.
   */
  method ExtractMany<J(!new), T(!new)>(
      jobs: seq<J>, outcomes: seq<Outcome<T>>, hasProgress: seq<bool>, backend: Backend,
      onResult: bool, onError: bool, cancelAt: Option<nat>)
    returns (r: Result<seq<JobResult<J, T>>, Exception>, calls: seq<Call<J, T>>, ghost order: seq<nat>)
    requires |jobs| == |outcomes| == |hasProgress|
    ensures backend.Unknown? || (backend.Process? && true in hasProgress) ==>
              r == Failure(Exception("ValueError", None)) && calls == []
    ensures !backend.Unknown? && !(backend.Process? && true in hasProgress) ==>
              var k := Cut(|jobs|, cancelAt);
              if exists i :: 0 <= i < k && outcomes[i].Fatal? then
                calls == [] && r.Failure? && exists i :: 0 <= i < k && outcomes[i] == Fatal(r.error)
              else
                && r == Success(Expected(jobs, outcomes, k))
                && IsOrder(order, k)
                && calls == Calls(jobs, outcomes, onResult, onError, order)
    ensures !backend.Unknown? && !(backend.Process? && true in hasProgress) ==>
              (r.Success? <==>
               forall i :: 0 <= i < |outcomes| && (cancelAt.None? || i < cancelAt.value) ==> !outcomes[i].Fatal?)
    ensures r.Success? ==>
              && |r.value| <= |jobs| && (cancelAt.Some? ==> |r.value| <= cancelAt.value)
              && (|r.value| == |jobs| || cancelAt == Some(|r.value|))
              && (forall i :: 0 <= i < |r.value| ==> IsResult(jobs[i], outcomes[i], r.value[i]))
    ensures r.Success? ==>
              forall call :: call in calls <==>
                exists i :: 0 <= i < |r.value| && IsCall(jobs[i], outcomes[i], onResult, onError, call)
    ensures r.Success? ==> |calls| <= |r.value|
  {
    calls, order := [], [];
    if backend == Process {
      for j := 0 to |jobs|
        invariant true !in hasProgress[..j]
      {
        if hasProgress[j] {
          return Failure(Exception("ValueError", None)), calls, order;
        }
        assert hasProgress[..j + 1] == hasProgress[..j] + [false];
      }
      assert hasProgress[..|jobs|] == hasProgress;
    }
    if backend == Unknown {
      return Failure(Exception("ValueError", None)), calls, order;
    }
    ghost var k := Cut(|jobs|, cancelAt);
    var collected := RunBackend(outcomes, cancelAt);
    BreaksOutIffFatal(outcomes, k, collected);
    if collected.Failure? {
      return Failure(collected.error), calls, order;
    }
    var raw := collected.value;
    order := Indices(raw);
    var results, listed := Reassemble(jobs, outcomes, raw, k, onResult, onError);
    calls := listed;
    CallsAreDue(jobs, outcomes, onResult, onError, order);
    OrderHasLength(order, k);
    r := Success(results);
  }

  /** The result slots of the jobs in `order` are filled, the others empty. */
  ghost predicate Filled<J, T>(
      jobs: seq<J>, outcomes: seq<Outcome<T>>, order: seq<nat>, results: seq<Option<JobResult<J, T>>>)
    requires |jobs| == |outcomes| == |results|
  {
    forall i :: 0 <= i < |jobs| ==>
      if i in order then !outcomes[i].Fatal? && results[i] == Some(ResultOf(jobs[i], outcomes[i]))
      else results[i] == None
  }

  /** One round of the loop: the slot of one more job, and its callback. */
  method Place<J(!new), T(!new)>(
      jobs: seq<J>, outcomes: seq<Outcome<T>>, ghost order: seq<nat>, x: Collected<T>,
      results: seq<Option<JobResult<J, T>>>, calls: seq<Call<J, T>>, onResult: bool, onError: bool)
    returns (results': seq<Option<JobResult<J, T>>>, calls': seq<Call<J, T>>)
    requires |jobs| == |outcomes| == |results| && Filled(jobs, outcomes, order, results)
    requires x.index < |jobs| && !outcomes[x.index].Fatal? && x == Collect(x.index, outcomes[x.index])
    requires calls == Calls(jobs, outcomes, onResult, onError, order)
    ensures |results'| == |results| && Filled(jobs, outcomes, order + [x.index], results')
    ensures calls' == Calls(jobs, outcomes, onResult, onError, order + [x.index])
  {
    var job := jobs[x.index];
    results' := results[x.index := Some(JobResult(job, x.ok, x.error))];
    calls' := calls;
    if x.error.None? {
      if onResult { calls' := calls + [OnResult(job, x.ok.value)]; }
    } else if onError {
      calls' := calls + [OnError(job, x.error.value)];
    }
    assert (order + [x.index])[..|order|] == order;
    assert calls' == calls + CallFor(jobs, outcomes, onResult, onError, x.index);
  }

  /** The loop over the collected triples, and the final filter. */
  method Reassemble<J(!new), T(!new)>(
      jobs: seq<J>, outcomes: seq<Outcome<T>>, raw: seq<Collected<T>>, ghost k: nat, onResult: bool, onError: bool)
    returns (r: seq<JobResult<J, T>>, calls: seq<Call<J, T>>)
    requires |jobs| == |outcomes| && k <= |jobs|
    requires forall i :: 0 <= i < k ==> !outcomes[i].Fatal?
    requires IsOrder(Indices(raw), k) && Truthful(raw, outcomes)
    ensures r == Expected(jobs, outcomes, k)
    ensures calls == Calls(jobs, outcomes, onResult, onError, Indices(raw))
  {
    ghost var order := Indices(raw);
    var results: seq<Option<JobResult<J, T>>> := seq(|jobs|, _ => None);
    calls := [];
    for p := 0 to |raw|
      invariant |results| == |jobs| && Filled(jobs, outcomes, order[..p], results)
      invariant calls == Calls(jobs, outcomes, onResult, onError, order[..p])
    {
      assert raw[p] in raw;
      assert order[..p + 1] == order[..p] + [raw[p].index];
      results, calls := Place(jobs, outcomes, order[..p], raw[p], results, calls, onResult, onError);
    }
    assert order[..|raw|] == order;
    FilledInOrder(jobs, outcomes, order, k, results);
    r := Present(results);
  }

  lemma FilledInOrder<J, T>(
      jobs: seq<J>, outcomes: seq<Outcome<T>>, order: seq<nat>, k: nat, results: seq<Option<JobResult<J, T>>>)
    requires |jobs| == |outcomes| == |results| && k <= |jobs|
    requires forall i :: 0 <= i < k ==> !outcomes[i].Fatal?
    requires IsOrder(order, k) && Filled(jobs, outcomes, order, results)
    ensures Present(results) == Expected(jobs, outcomes, k)
  {
    PresentPrefix(results, Expected(jobs, outcomes, k));
  }

  // ── the schedule shows only in the order of the callbacks ───────────────

  function Without(order: seq<nat>, q: nat): seq<nat>
    requires q < |order|
  {
    order[..q] + order[q + 1..]
  }

  lemma GatherSnoc<X>(f: nat -> seq<X>, order: seq<nat>, i: nat)
    ensures Gather(f, order + [i]) == Gather(f, order) + f(i)
  {
    assert (order + [i])[..|order|] == order;
  }

  lemma {:induction false} GatherWithout<X>(f: nat -> seq<X>, order: seq<nat>, q: nat)
    requires q < |order|
    ensures multiset(Gather(f, order)) == multiset(Gather(f, Without(order, q))) + multiset(f(order[q]))
  {
    var n := |order| - 1;
    var front, last := order[..n], order[n];
    assert order == front + [last];
    GatherSnoc(f, front, last);
    if q == n {
      assert Without(order, q) == front;
    } else {
      GatherWithout(f, front, q);
      GatherSnoc(f, Without(front, q), last);
      assert Without(order, q) == Without(front, q) + [last];
    }
  }

  lemma WithoutIsMinus(order: seq<nat>, q: nat)
    requires q < |order|
    ensures multiset(Without(order, q)) == multiset(order) - multiset{order[q]}
  {
    assert order == order[..q] + [order[q]] + order[q + 1..];
  }

  lemma {:induction false} GatherPermutes<X>(f: nat -> seq<X>, order: seq<nat>, other: seq<nat>)
    requires multiset(order) == multiset(other)
    ensures multiset(Gather(f, order)) == multiset(Gather(f, other))
    decreases |order|
  {
    assert |order| == |multiset(order)| == |multiset(other)| == |other|;
    if order != [] {
      var n := |order| - 1;
      assert order[n] in multiset(order);
      var q :| 0 <= q < |other| && other[q] == order[n];
      WithoutIsMinus(order, n);
      WithoutIsMinus(other, q);
      GatherPermutes(f, Without(order, n), Without(other, q));
      GatherWithout(f, order, n);
      GatherWithout(f, other, q);
    }
  }

  lemma {:induction false} CountedOnce(order: seq<nat>, i: nat)
    requires forall p, q :: 0 <= p < q < |order| ==> order[p] != order[q]
    ensures multiset(order)[i] == if i in order then 1 else 0
  {
    if order != [] {
      var n := |order| - 1;
      assert order == order[..n] + [order[n]];
      CountedOnce(order[..n], i);
    }
  }

  /** Any two schedules of the same submitted jobs make the same callbacks, each as often, in some order. */
  lemma CallbacksDoNotDependOnTheSchedule<J, T>(
      jobs: seq<J>, outcomes: seq<Outcome<T>>, onResult: bool, onError: bool, order: seq<nat>, other: seq<nat>, k: nat)
    requires IsOrder(order, k) && IsOrder(other, k)
    ensures multiset(Calls(jobs, outcomes, onResult, onError, order))
         == multiset(Calls(jobs, outcomes, onResult, onError, other))
  {
    forall i: nat ensures multiset(order)[i] == multiset(other)[i] {
      CountedOnce(order, i);
      CountedOnce(other, i);
    }
    GatherPermutes(i => CallFor(jobs, outcomes, onResult, onError, i), order, other);
  }
}
