/** DataProcessor.ts: task combinators over asynchronous operations.

    An operation that is invoked several times (the `operation` of
    `withRetry`) is a Script: the outcome of its k-th invocation. A task of
    `processSequentially` / `processInParallel` is invoked at most once, so
    a task list is the sequence of the outcomes each task would settle with.
    Waiting is not modelled: the backoff delays are recorded, in order, as
    milliseconds. */
module DataProcessor {
  import opened Results

  /** Default of the `maxRetries` parameter of `withRetry`. */
  const DefaultMaxRetries: int := 3

  /** Base of the exponential backoff, in milliseconds. */
  const BaseDelayMs: nat := 100

  function Pow2(i: nat): (p: nat)
    ensures p >= 1
  {
    if i == 0 then 1 else 2 * Pow2(i - 1)
  }

  /** `Math.pow(2, i) * 100`: the wait after failed attempt i when another
      attempt follows. */
  function Backoff(i: nat): nat {
    Pow2(i) * BaseDelayMs
  }

  /** The first wait is the base delay and each later one doubles it. */
  lemma BackoffDoubles(i: nat)
    ensures Backoff(0) == BaseDelayMs
    ensures Backoff(i + 1) == 2 * Backoff(i)
  {
  }

  /** What `withRetry` throws. With a negative `maxRetries` the loop never
      runs and the still-unassigned `lastError` is thrown: `undefined`. */
  datatype Thrown<+E> = Undefined | Raised(error: E)

  /** The settled result of `withRetry`, with how many times the operation
      was invoked and the delays waited, in order. */
  datatype Retried<+T, +E> = Retried(result: Result<T, Thrown<E>>, calls: nat, delays: seq<nat>)

  /** The retry loop from iteration `i` on, having failed last with
      `lastError`. Counts and delays are those of iterations i, i+1, ... */
  function RetryFrom<T, E>(op: Script<T, E>, maxRetries: int, i: nat, lastError: Thrown<E>): (r: Retried<T, E>)
    ensures i > maxRetries ==> r == Retried(Failure(lastError), 0, [])
    ensures i <= maxRetries ==> 1 <= r.calls <= maxRetries - i + 1
    ensures r.calls >= 1 ==> |r.delays| == r.calls - 1
    ensures forall k :: 0 <= k < |r.delays| ==> r.delays[k] == Backoff(i + k)
    ensures forall k: nat :: i <= k < i + r.calls - 1 ==> op(k).Rejected?
    ensures r.result.Success? ==> r.calls >= 1 && op(i + r.calls - 1) == Resolved(r.result.value)
    ensures r.result.Failure? && i <= maxRetries ==>
              && r.calls == maxRetries - i + 1
              && r.result.error.Raised?
              && op(maxRetries) == Rejected(r.result.error.error)
    decreases maxRetries - i
  {
    if i > maxRetries then
      Retried(Failure(lastError), 0, [])
    else
      match op(i)
      case Resolved(v) => Retried(Success(v), 1, [])
      case Rejected(e) =>
        if i == maxRetries then
          Retried(Failure(Raised(e)), 1, [])
        else
          var rest := RetryFrom(op, maxRetries, i + 1, Raised(e));
          Retried(rest.result, rest.calls + 1, [Backoff(i)] + rest.delays)
  }

  /** `withRetry(operation, maxRetries)`: invoke the operation until it
      resolves, at most `maxRetries + 1` times, waiting `Backoff(i)` after
      failed attempt i unless it was the last one. */
  function WithRetry<T, E>(op: Script<T, E>, maxRetries: int): (r: Retried<T, E>)
    ensures maxRetries < 0 ==> r == Retried(Failure(Undefined), 0, [])
    ensures maxRetries >= 0 ==> 1 <= r.calls <= maxRetries + 1 && |r.delays| == r.calls - 1
    ensures forall k :: 0 <= k < |r.delays| ==> r.delays[k] == Backoff(k)
    ensures forall k :: 0 <= k < r.calls - 1 ==> op(k).Rejected?
    ensures r.result.Success? ==> r.calls >= 1 && op(r.calls - 1) == Resolved(r.result.value)
    ensures r.result.Failure? && maxRetries >= 0 ==>
              && r.calls == maxRetries + 1
              && r.result.error.Raised?
              && op(maxRetries) == Rejected(r.result.error.error)
  {
    RetryFrom(op, maxRetries, 0, Undefined)
  }

  /** The delays waited before attempts 1 .. n. */
  function BackoffSchedule(n: nat): (s: seq<nat>)
    ensures |s| == n
    ensures forall k :: 0 <= k < n ==> s[k] == Backoff(k)
  {
    if n == 0 then [] else BackoffSchedule(n - 1) + [Backoff(n - 1)]
  }

  /** `withRetry(operation)` with the default `maxRetries`. */
  function WithDefaultRetry<T, E>(op: Script<T, E>): (r: Retried<T, E>)
    ensures 1 <= r.calls <= 4
  {
    WithRetry(op, DefaultMaxRetries)
  }

  /** When every attempt fails, the operation runs exactly maxRetries + 1
      times, a delay separates consecutive attempts, and the error thrown is
      that of the last attempt. */
  lemma RetryExhausted<T, E>(op: Script<T, E>, maxRetries: int)
    requires maxRetries >= 0
    requires forall k :: 0 <= k <= maxRetries ==> op(k).Rejected?
    ensures WithRetry(op, maxRetries).calls == maxRetries + 1
    ensures WithRetry(op, maxRetries).result == Failure(Raised(op(maxRetries).error))
    ensures WithRetry(op, maxRetries).delays == BackoffSchedule(maxRetries)
  {
  }

  /** The first resolved attempt within the bound is returned, and nothing
      is invoked or waited for after it. */
  lemma RetryStopsAtFirstSuccess<T, E>(op: Script<T, E>, maxRetries: int, k: nat)
    requires k <= maxRetries
    requires op(k).Resolved?
    requires forall j :: 0 <= j < k ==> op(j).Rejected?
    ensures WithRetry(op, maxRetries).result == Success(op(k).value)
    ensures WithRetry(op, maxRetries).calls == k + 1
    ensures WithRetry(op, maxRetries).delays == BackoffSchedule(k)
  {
  }

  /** With `maxRetries = 0` there is exactly one attempt and no delay. */
  lemma RetryOnce<T, E>(op: Script<T, E>)
    ensures WithRetry(op, 0).calls == 1
    ensures WithRetry(op, 0).delays == []
    ensures WithRetry(op, 0).result ==
              match op(0)
              case Resolved(v) => Success(v)
              case Rejected(e) => Failure(Raised(e))
  {
  }

  /** An operation that always throws "boom", retried twice: three
      invocations, delays of 100 ms and 200 ms, and the rejection is "boom". */
  lemma RetryBoomExample()
    ensures var r := WithRetry<int, string>((k: nat) => Rejected("boom"), 2);
            r == Retried(Failure(Raised("boom")), 3, [100, 200])
  {
    RetryExhausted<int, string>((k: nat) => Rejected("boom"), 2);
  }

  /** The default of three retries waits 100, 200 and 400 ms when every
      attempt fails. */
  lemma DefaultRetrySchedule<T, E>(op: Script<T, E>)
    requires forall k :: 0 <= k <= 3 ==> op(k).Rejected?
    ensures WithDefaultRetry(op).calls == 4
    ensures WithDefaultRetry(op).delays == [100, 200, 400]
    ensures WithDefaultRetry(op).result == Failure(Raised(op(3).error))
  {
    RetryExhausted(op, DefaultMaxRetries);
  }

  /** `Promise.all` over already-started tasks: every value, in task order,
      when all resolve; otherwise a rejection. Which rejection is reported
      when several tasks reject depends on timing; this model reports the
      one with the lowest index and promises only that it is one of them. */
  function All<T, E>(outcomes: seq<Settled<T, E>>): (r: Result<seq<T>, E>)
    ensures r.Success? <==> forall i :: 0 <= i < |outcomes| ==> outcomes[i].Resolved?
    ensures r.Success? ==> |r.value| == |outcomes|
    ensures r.Success? ==> forall i :: 0 <= i < |outcomes| ==> outcomes[i] == Resolved(r.value[i])
    ensures r.Failure? ==> exists i :: 0 <= i < |outcomes| && outcomes[i] == Rejected(r.error)
  {
    if outcomes == [] then
      Success([])
    else
      match outcomes[0]
      case Rejected(e) => Failure(e)
      case Resolved(v) =>
        match All(outcomes[1..])
        case Failure(e) => Failure(e)
        case Success(vs) => Success([v] + vs)
  }

  /** `processInParallel(tasks)`: start every task, then `Promise.all`. */
  function ProcessInParallel<T, E>(tasks: seq<Settled<T, E>>): (r: Result<seq<T>, E>)
    ensures r.Success? <==> forall i :: 0 <= i < |tasks| ==> tasks[i].Resolved?
    ensures r.Success? ==> |r.value| == |tasks|
    ensures r.Success? ==> forall i :: 0 <= i < |tasks| ==> tasks[i] == Resolved(r.value[i])
    ensures r.Failure? ==> exists i :: 0 <= i < |tasks| && tasks[i] == Rejected(r.error)
  {
    All(tasks)
  }

  /** `transformData(data, transformer)`: `Promise.all(data.map(transformer))`. */
  function TransformData<T, U, E>(data: seq<T>, transformer: T -> Settled<U, E>): (r: Result<seq<U>, E>)
    ensures r.Success? <==> forall i :: 0 <= i < |data| ==> transformer(data[i]).Resolved?
    ensures r.Success? ==> |r.value| == |data|
    ensures r.Success? ==> forall i :: 0 <= i < |data| ==> transformer(data[i]) == Resolved(r.value[i])
    ensures r.Failure? ==> exists i :: 0 <= i < |data| && transformer(data[i]) == Rejected(r.error)
  {
    var promises := seq(|data|, i requires 0 <= i < |data| => transformer(data[i]));
    assert forall i :: 0 <= i < |data| ==> promises[i] == transformer(data[i]);
    All(promises)
  }

  /** Transforming an empty array resolves with an empty array. */
  lemma TransformEmpty<T, U, E>(transformer: T -> Settled<U, E>)
    ensures TransformData([], transformer) == Success([])
  {
  }

  /** `processSequentially(tasks)`: await each task before starting the
      next. `started` is how many tasks were invoked: a task is started only
      once every earlier task has resolved, and the first rejection stops
      the run and is rethrown. */
  method ProcessSequentially<T, E>(tasks: seq<Settled<T, E>>) returns (r: Result<seq<T>, E>, started: nat)
    ensures started <= |tasks|
    ensures forall k :: 0 <= k < started - 1 ==> tasks[k].Resolved?
    ensures r.Success? <==> forall k :: 0 <= k < |tasks| ==> tasks[k].Resolved?
    ensures r.Success? ==> started == |tasks| && r == ProcessInParallel(tasks)
    ensures r.Failure? ==> started >= 1 && tasks[started - 1] == Rejected(r.error)
    ensures r.Failure? ==> ProcessInParallel(tasks).Failure?
  {
    var results: seq<T> := [];
    started := 0;
    while started < |tasks|
      invariant started <= |tasks|
      invariant |results| == started
      invariant forall k :: 0 <= k < started ==> tasks[k] == Resolved(results[k])
    {
      match tasks[started]
      case Rejected(e) =>
        started := started + 1;
        return Failure(e), started;
      case Resolved(v) =>
        results := results + [v];
        started := started + 1;
    }
    r := Success(results);
    assert forall k :: 0 <= k < |tasks| ==> tasks[k].Resolved?;
    var p := ProcessInParallel(tasks);
    assert p.value == results;
  }
}
