/** The server's sequential helpers: the rollback stack and the account-name lookup. */
module Server {
  import opened Wrappers

  /** One executed compensation: its position in the stack, the task, and what it returned. */
  datatype Executed<T, E> = Executed(index: nat, task: T, result: Option<E>)

  /** The tasks in the order they ran. */
  function TasksOf<T, E>(log: seq<Executed<T, E>>): (ts: seq<T>)
    ensures |ts| == |log|
    decreases |log|
  {
    if |log| == 0 then [] else [log[0].task] + TasksOf(log[1..])
  }

  /** An independent definition of reversal. */
  function Reverse<T>(s: seq<T>): (r: seq<T>)
    ensures |r| == |s|
    decreases |s|
  {
    if |s| == 0 then [] else Reverse(s[1..]) + [s[0]]
  }

  /** The compensations at positions n-1 down to 0 of `tasks`, each run once. */
  function RunDown<T, E>(tasks: seq<T>, n: nat, run: T -> Option<E>): (log: seq<Executed<T, E>>)
    requires n <= |tasks|
    ensures |log| == n
    ensures forall j :: 0 <= j < n ==> log[j].index == n - 1 - j
    ensures forall j :: 0 <= j < n ==> log[j].task == tasks[n - 1 - j] && log[j].result == run(tasks[n - 1 - j])
    decreases n
  {
    if n == 0 then []
    else [Executed(n - 1, tasks[n - 1], run(tasks[n - 1]))] + RunDown(tasks, n - 1, run)
  }

  /** `rollBack(&tasks)` without its timeout: a nil stack does nothing; otherwise every task
      runs exactly once, from the last registered to the first, and an error from one task
      does not stop the ones after it. `run(t)` is what task `t` returns. */
  function RollBack<T, E>(tasks: Option<seq<T>>, run: T -> Option<E>): (log: seq<Executed<T, E>>)
    ensures tasks.None? ==> log == []
    ensures tasks.Some? ==> |log| == |tasks.value|
    ensures tasks.Some? ==> forall j :: 0 <= j < |log| ==>
              log[j].task == tasks.value[|tasks.value| - 1 - j] && log[j].result == run(log[j].task)
  {
    match tasks
    case None => []
    case Some(ts) => RunDown(ts, |ts|, run)
  }

  /** The tasks run in exactly the reverse of their registration order. */
  lemma {:induction false} RollBackReverses<T, E>(tasks: seq<T>, run: T -> Option<E>)
    ensures TasksOf(RollBack(Some(tasks), run)) == Reverse(tasks)
    decreases |tasks|
  {
    var log := RollBack(Some(tasks), run);
    if |tasks| > 0 {
      var init := tasks[..|tasks| - 1];
      var last := tasks[|tasks| - 1];
      var rest := RollBack(Some(init), run);
      assert log[1..] == rest by {
        forall j | 0 <= j < |rest| ensures log[1..][j] == rest[j] {
          assert log[j + 1].index == |tasks| - 2 - j;
        }
      }
      assert TasksOf(log) == [last] + TasksOf(rest);
      RollBackReverses(init, run);
      assert Reverse(tasks) == [last] + Reverse(init) by {
        assert init + [last] == tasks;
        ReverseSnoc(init, last);
      }
    }
  }

  lemma {:induction false} ReverseSnoc<T>(s: seq<T>, x: T)
    ensures Reverse(s + [x]) == [x] + Reverse(s)
    decreases |s|
  {
    if |s| == 0 {
      assert s + [x] == [x];
    } else {
      assert (s + [x])[1..] == s[1..] + [x];
      ReverseSnoc(s[1..], x);
    }
  }

  /** Each registered task runs exactly once, even when every task fails. */
  lemma RollBackRunsEachOnce<T, E>(tasks: seq<T>, run: T -> Option<E>, i: nat)
    requires i < |tasks|
    ensures exists j :: 0 <= j < |tasks| && RollBack(Some(tasks), run)[j].index == i
    ensures forall j, j' ::
              (0 <= j < |tasks| && 0 <= j' < |tasks| &&
               RollBack(Some(tasks), run)[j].index == i && RollBack(Some(tasks), run)[j'].index == i) ==> j == j'
  {
    var log := RollBack(Some(tasks), run);
    assert log[|tasks| - 1 - i].index == i;
  }

  /** `mapAccountNumber(name)`: the number an account name maps to, or the name itself. */
  function MapAccountNumber(accounts: map<string, string>, name: string): (r: string)
    ensures name in accounts ==> r == accounts[name]
    ensures name !in accounts ==> r == name
  {
    if name in accounts then accounts[name] else name
  }

  /** When no account number is itself a configured name, mapping a second time changes nothing. */
  lemma MapAccountNumberIdempotent(accounts: map<string, string>, name: string)
    requires forall n :: n in accounts ==> accounts[n] !in accounts
    ensures MapAccountNumber(accounts, MapAccountNumber(accounts, name)) == MapAccountNumber(accounts, name)
  {
  }
}
