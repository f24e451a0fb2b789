/** The bounded retry helper with jittered doubling backoff (`retry` and its `stop` error). */
module Retry {
  import opened Wrappers

  /** What one call of the retried operation returns: nil, an ordinary error, or an error
      wrapped in `stop`, which asks for no further attempts. */
  datatype Attempt<E> = Succeeded | Failed(err: E) | Stopped(err: E)

  /** One run of `retry`: the error it returns (None for nil), how many times it called the
      operation, and the pauses it slept between calls. */
  datatype RetryRun<E> = RetryRun(result: Option<E>, calls: nat, pauses: seq<int>)

  /** The random source: `jitter(k, n)` is the draw `rand.Int63n(n)` made after the k-th call. */
  ghost predicate JitterInRange(jitter: (nat, int) -> int) {
    forall k: nat, n: int :: n > 0 ==> 0 <= jitter(k, n) < n
  }

  /** `2 * time.Second`, the first pause of every retried wait, in nanoseconds. */
  const TwoSeconds := 2_000_000_000

  /** The number of calls an always-failing operation gets: max(attempts, 1). */
  function Budget(attempts: int): nat {
    if attempts > 1 then attempts else 1
  }

  /** Each pause lies in [s, 1.5 s) for the current backoff s, and the next backoff is twice
      the pause just taken. */
  predicate Backoff(sleep: int, pauses: seq<int>)
    decreases |pauses|
  {
    |pauses| == 0 ||
    (sleep <= pauses[0] && 2 * pauses[0] < 3 * sleep && Backoff(2 * pauses[0], pauses[1..]))
  }

  /** `retry(attempts, sleep, f)` where the i-th call of `f` (counting from `first`) returns
      `f(first + i)`. The run stops at the first call that does not fail ordinarily, or when
      the budget is used up; it returns that call's error (unwrapped from `stop`). */
  function Retry<E>(attempts: int, sleep: int, f: nat -> Attempt<E>, jitter: (nat, int) -> int, first: nat): (r: RetryRun<E>)
    requires sleep > 0
    requires JitterInRange(jitter)
    ensures 1 <= r.calls <= Budget(attempts)
    ensures forall i :: first <= i < first + r.calls - 1 ==> f(i).Failed?
    ensures r.calls < Budget(attempts) ==> !f(first + r.calls - 1).Failed?
    ensures r.result.None? <==> f(first + r.calls - 1).Succeeded?
    ensures r.result.Some? ==> r.result.value == f(first + r.calls - 1).err
    ensures |r.pauses| == r.calls - 1
    ensures Backoff(sleep, r.pauses)
    decreases if attempts > 0 then attempts else 0
  {
    match f(first)
    case Succeeded => RetryRun(None, 1, [])
    case Stopped(e) => RetryRun(Some(e), 1, [])
    case Failed(e) =>
      var left := attempts - 1;
      if left > 0 then
        var pause := sleep + jitter(first, sleep) / 2;
        var rest := Retry(left, 2 * pause, f, jitter, first + 1);
        RetryRun(rest.result, rest.calls + 1, [pause] + rest.pauses)
      else
        RetryRun(Some(e), 1, [])
  }

  /** The number of calls before the first one, from `from` on, that does not fail
      ordinarily, looking at no more than `n` calls. */
  function FailingPrefix<E>(f: nat -> Attempt<E>, from: nat, n: nat): nat
    decreases n
  {
    if n == 0 || !f(from).Failed? then 0 else 1 + FailingPrefix(f, from + 1, n - 1)
  }

  /** The run is determined by the failing prefix of the call outcomes: it makes one call
      more than that prefix when a success or a `stop` comes within the budget, and exactly
      the budget otherwise; it returns the last call's error. */
  lemma {:induction false} RetryIsFailingPrefix<E>(attempts: int, sleep: int, f: nat -> Attempt<E>, jitter: (nat, int) -> int, first: nat)
    requires sleep > 0
    requires JitterInRange(jitter)
    ensures var p := FailingPrefix(f, first, Budget(attempts));
            var r := Retry(attempts, sleep, f, jitter, first);
            r.calls == (if p < Budget(attempts) then p + 1 else p)
    decreases if attempts > 0 then attempts else 0
  {
    var b := Budget(attempts);
    if f(first).Failed? && attempts - 1 > 0 {
      var pause := sleep + jitter(first, sleep) / 2;
      RetryIsFailingPrefix(attempts - 1, 2 * pause, f, jitter, first + 1);
      assert Budget(attempts - 1) == b - 1;
    } else if f(first).Failed? {
      assert b == 1;
      assert FailingPrefix(f, first + 1, 0) == 0;
    }
  }

  /** A first call that succeeds is the only call, and the result is nil. */
  lemma FirstCallSucceeds<E>(attempts: int, sleep: int, f: nat -> Attempt<E>, jitter: (nat, int) -> int)
    requires sleep > 0 && JitterInRange(jitter)
    requires f(0).Succeeded?
    ensures Retry(attempts, sleep, f, jitter, 0) == RetryRun(None, 1, [])
  {
  }

  /** A `stop` error ends the run at once, whatever budget is left, and is returned unwrapped. */
  lemma {:induction false} StopShortCircuits<E>(attempts: int, sleep: int, f: nat -> Attempt<E>, jitter: (nat, int) -> int, k: nat)
    requires sleep > 0 && JitterInRange(jitter)
    requires k < Budget(attempts)
    requires forall i :: 0 <= i < k ==> f(i).Failed?
    requires f(k).Stopped?
    ensures Retry(attempts, sleep, f, jitter, 0).calls == k + 1
    ensures Retry(attempts, sleep, f, jitter, 0).result == Some(f(k).err)
  {
    var r := Retry(attempts, sleep, f, jitter, 0);
    assert f(r.calls - 1) == f(r.calls - 1);
  }

  /** An operation that always fails ordinarily is called exactly max(attempts, 1) times and
      its last error is returned unchanged. */
  lemma {:induction false} AlwaysFailing<E>(attempts: int, sleep: int, f: nat -> Attempt<E>, jitter: (nat, int) -> int)
    requires sleep > 0 && JitterInRange(jitter)
    requires forall i :: 0 <= i < Budget(attempts) ==> f(i).Failed?
    ensures Retry(attempts, sleep, f, jitter, 0).calls == Budget(attempts)
    ensures Retry(attempts, sleep, f, jitter, 0).result == Some(f(Budget(attempts) - 1).err)
  {
    var r := Retry(attempts, sleep, f, jitter, 0);
    assert f(r.calls - 1).Failed?;
  }

  /** An operation that fails n - 1 times and then succeeds: with a budget of n it succeeds
      after exactly n calls; with a budget of n - 1 it returns the last error after n - 1. */
  lemma {:induction false} FailThenSucceed<E>(n: nat, sleep: int, f: nat -> Attempt<E>, jitter: (nat, int) -> int)
    requires n >= 2 && sleep > 0 && JitterInRange(jitter)
    requires forall i :: 0 <= i < n - 1 ==> f(i).Failed?
    requires f(n - 1).Succeeded?
    ensures Retry(n, sleep, f, jitter, 0) == Retry(n, sleep, f, jitter, 0).(result := None, calls := n)
    ensures Retry(n - 1, sleep, f, jitter, 0).calls == n - 1
    ensures Retry(n - 1, sleep, f, jitter, 0).result == Some(f(n - 2).err)
  {
    var r := Retry(n, sleep, f, jitter, 0);
    assert f(r.calls - 1) == f(r.calls - 1);
    AlwaysFailing(n - 1, sleep, f, jitter);
  }
}
