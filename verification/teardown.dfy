/** The orchestrated delete of a filesystem (`DeleteFileSystemO`): every mount target is
    deleted in turn, the filesystem is polled until it reports no mount targets, and then
    the filesystem itself is deleted, with a short retry. The EFS client calls are oracle
    parameters answering with the client's own results; `poll(k)` and `deleteFs(k)` are the
    answers to the k-th call of the two retried operations. */
module Teardown {
  import opened Wrappers
  import opened ApiErrors
  import opened EfsClient
  import opened Retry
  import Strs

  /** The id the code reads from a mount target (`aws.StringValue`). */
  function MountTargetId(m: MountTargetDescription): string {
    m.mountTargetId.GetOr("")
  }

  function MountTargetStatus(m: MountTargetDescription): string {
    m.lifeCycleState.GetOr("")
  }

  predicate MountTargetAvailable(m: MountTargetDescription) {
    MountTargetStatus(m) == "available"
  }

  /** The index of the first mount target that is not available, if any. */
  function FirstUnavailable(mts: seq<MountTargetDescription>): (i: Option<nat>)
    ensures i.None? <==> forall j :: 0 <= j < |mts| ==> MountTargetAvailable(mts[j])
    ensures i.Some? ==> i.value < |mts| && !MountTargetAvailable(mts[i.value]) &&
                        forall j :: 0 <= j < i.value ==> MountTargetAvailable(mts[j])
    decreases |mts|
  {
    if |mts| == 0 then None
    else if !MountTargetAvailable(mts[0]) then Some(0)
    else
      var rest := FirstUnavailable(mts[1..]);
      if rest.None? then None else Some(rest.value + 1)
  }

  /** The error for a mount target that is not available when the delete reaches it. */
  function StatusError(fs: string, m: MountTargetDescription): Error {
    Errorf("filesystem " + fs + " mount target " + MountTargetId(m) + " has status " + MountTargetStatus(m) + ", cannot delete")
  }

  /** How far the mount-target deletes got: the error that ended them, if any, and the ids
      a delete was sent for, in order. */
  datatype MountTargetDeletion = MountTargetDeletion(err: Option<Error>, deleted: seq<string>)

  /** What a deletion run over `mts` promises: it deleted, in order, a prefix of the
      available targets; it stops at a failed delete with the client's error, or at a
      target that is not available with a status error; without an error, it deleted
      every target. */
  ghost predicate DeletionOf(fs: string, mts: seq<MountTargetDescription>, deleteMt: string -> Option<Error>,
                             d: MountTargetDeletion) {
    && |d.deleted| <= |mts|
    && (forall i :: 0 <= i < |d.deleted| ==> d.deleted[i] == MountTargetId(mts[i]) && MountTargetAvailable(mts[i]))
    && (forall i :: 0 <= i < |d.deleted| - 1 ==> deleteMt(d.deleted[i]).None?)
    && (d.err.None? ==> |d.deleted| == |mts| && forall i :: 0 <= i < |mts| ==> deleteMt(d.deleted[i]).None?)
    && (d.err.Some? && |d.deleted| > 0 && deleteMt(d.deleted[|d.deleted| - 1]).Some? ==>
          d.err == deleteMt(d.deleted[|d.deleted| - 1]))
    && (d.err.Some? && (|d.deleted| == 0 || deleteMt(d.deleted[|d.deleted| - 1]).None?) ==>
          |d.deleted| < |mts| && !MountTargetAvailable(mts[|d.deleted|]) &&
          d.err == Some(StatusError(fs, mts[|d.deleted|])))
  }

  /** The loop over the listed mount targets: a target that is not available ends it before
      its delete, and a failed delete ends it with the client's error. */
  function DeleteMountTargets(fs: string, mts: seq<MountTargetDescription>, deleteMt: string -> Option<Error>)
    : (d: MountTargetDeletion)
    ensures DeletionOf(fs, mts, deleteMt, d)
    decreases |mts|
  {
    if |mts| == 0 then MountTargetDeletion(None, [])
    else if !MountTargetAvailable(mts[0]) then MountTargetDeletion(Some(StatusError(fs, mts[0])), [])
    else
      var id := MountTargetId(mts[0]);
      match deleteMt(id)
      case Some(e) => MountTargetDeletion(Some(e), [id])
      case None => DeletedFirst(fs, mts, deleteMt, DeleteMountTargets(fs, mts[1..], deleteMt))
  }

  /** The first target was available and deleted: the rest of the run follows it. */
  function DeletedFirst(fs: string, mts: seq<MountTargetDescription>, deleteMt: string -> Option<Error>,
                        rest: MountTargetDeletion): (d: MountTargetDeletion)
    requires |mts| > 0 && MountTargetAvailable(mts[0]) && deleteMt(MountTargetId(mts[0])).None?
    requires DeletionOf(fs, mts[1..], deleteMt, rest)
    ensures d == MountTargetDeletion(rest.err, [MountTargetId(mts[0])] + rest.deleted)
    ensures DeletionOf(fs, mts, deleteMt, d)
  {
    var d := MountTargetDeletion(rest.err, [MountTargetId(mts[0])] + rest.deleted);
    assert forall i :: 0 < i < |d.deleted| ==> d.deleted[i] == rest.deleted[i - 1];
    d
  }

  /** The count of mount targets a described filesystem reports (nil reads as 0). */
  function MountTargetCount(fs: FileSystemDescription): int {
    fs.numberOfMountTargets.GetOr(0)
  }

  /** Whether a poll's answer shows a filesystem with no mount targets left. */
  predicate ReportsNoMountTargets(answer: Result<FileSystemDescription, Error>) {
    answer.Success? && MountTargetCount(answer.value) <= 0
  }

  /** The n-th poll, counting from one, showed no mount targets left. */
  predicate EmptiedOnPoll(poll: nat -> Result<FileSystemDescription, Error>, n: nat) {
    n > 0 && ReportsNoMountTargets(poll(n - 1))
  }

  /** No poll before the n-th showed the mount targets gone. */
  predicate NotEmptiedBefore(poll: nat -> Result<FileSystemDescription, Error>, n: nat) {
    forall k :: 0 <= k < n - 1 ==> !ReportsNoMountTargets(poll(k))
  }

  /** The n-th filesystem delete, counting from one, succeeded. */
  predicate DeletedOnCall(deleteFs: nat -> Option<Error>, n: nat) {
    n > 0 && deleteFs(n - 1).None?
  }

  /** Every filesystem delete before the n-th failed. */
  predicate FailedBefore(deleteFs: nat -> Option<Error>, n: nat) {
    forall k :: 0 <= k < n - 1 ==> deleteFs(k).Some?
  }

  /** One poll of the wait for the mount targets to go: a lookup error, a positive count,
      or success. */
  function PollCount(fs: string, answer: Result<FileSystemDescription, Error>): (a: Attempt<Error>)
    ensures a.Succeeded? <==> ReportsNoMountTargets(answer)
    ensures !a.Stopped?
    ensures answer.Failure? ==> a == Failed(answer.error)
  {
    match answer
    case Failure(e) => Failed(e)
    case Success(out) =>
      var num := MountTargetCount(out);
      if num > 0 then
        Failed(Errorf("waiting for number of mount targets for filesystem " + fs + " to be 0 (current: " +
                      Strs.NatToString(num) + ")"))
      else Succeeded
  }

  /** One attempt of the filesystem delete. */
  function DeleteAttempt(answer: Option<Error>): (a: Attempt<Error>)
    ensures a.Succeeded? <==> answer.None?
    ensures answer.Some? ==> a == Failed(answer.value)
  {
    if answer.Some? then Failed(answer.value) else Succeeded
  }

  /** A teardown: its error (None for nil), the mount-target ids it sent deletes for, the
      number of polls of the filesystem, and the number of filesystem deletes it sent. */
  datatype Teardown = Teardown(result: Option<Error>, deleted: seq<string>, polls: nat, fsDeletes: nat)

  /** `DeleteFileSystemO(fs)`. The two waits draw their jitter from `pollJitter` and
      `deleteJitter`. */
  function DeleteFileSystemO(fs: string, listed: Result<seq<MountTargetDescription>, Error>,
                             deleteMt: string -> Option<Error>,
                             poll: nat -> Result<FileSystemDescription, Error>,
                             deleteFs: nat -> Option<Error>,
                             pollJitter: (nat, int) -> int, deleteJitter: (nat, int) -> int)
    : (t: Teardown)
    requires JitterInRange(pollJitter) && JitterInRange(deleteJitter)
    ensures listed.Failure? ==> t == Teardown(Some(listed.error), [], 0, 0)
    ensures listed.Success? ==> t.deleted == DeleteMountTargets(fs, listed.value, deleteMt).deleted
    ensures t.polls > 0 ==> listed.Success? && DeleteMountTargets(fs, listed.value, deleteMt).err.None?
    ensures t.fsDeletes > 0 ==> EmptiedOnPoll(poll, t.polls)
    ensures NotEmptiedBefore(poll, t.polls)
    ensures t.result.None? <==> DeletedOnCall(deleteFs, t.fsDeletes)
    ensures FailedBefore(deleteFs, t.fsDeletes)
    ensures t.polls <= 10
    ensures t.fsDeletes <= 3
  {
    if listed.Failure? then Teardown(Some(listed.error), [], 0, 0)
    else AfterListing(fs, listed.value, deleteMt, poll, deleteFs, pollJitter, deleteJitter)
  }

  /** What follows a successful listing: the mount-target deletes, and only when they all
      went through, the wait and the filesystem delete. */
  function AfterListing(fs: string, mts: seq<MountTargetDescription>,
                        deleteMt: string -> Option<Error>,
                        poll: nat -> Result<FileSystemDescription, Error>,
                        deleteFs: nat -> Option<Error>,
                        pollJitter: (nat, int) -> int, deleteJitter: (nat, int) -> int)
    : (t: Teardown)
    requires JitterInRange(pollJitter) && JitterInRange(deleteJitter)
    ensures t.deleted == DeleteMountTargets(fs, mts, deleteMt).deleted
    ensures t.polls > 0 <==> DeleteMountTargets(fs, mts, deleteMt).err.None?
    ensures t.fsDeletes > 0 ==> EmptiedOnPoll(poll, t.polls)
    ensures NotEmptiedBefore(poll, t.polls)
    ensures t.result.None? <==> DeletedOnCall(deleteFs, t.fsDeletes)
    ensures FailedBefore(deleteFs, t.fsDeletes)
    ensures t.polls <= 10 && t.fsDeletes <= 3
  {
    var d := DeleteMountTargets(fs, mts, deleteMt);
    if d.err.Some? then Teardown(d.err, d.deleted, 0, 0)
    else
      var t := WaitAndDelete(fs, d.deleted, poll, deleteFs, pollJitter, deleteJitter);
      t
  }

  /** What follows the mount-target deletes: the wait for a zero count, then the delete. */
  function WaitAndDelete(fs: string, deleted: seq<string>,
                         poll: nat -> Result<FileSystemDescription, Error>,
                         deleteFs: nat -> Option<Error>,
                         pollJitter: (nat, int) -> int, deleteJitter: (nat, int) -> int)
    : (t: Teardown)
    requires JitterInRange(pollJitter) && JitterInRange(deleteJitter)
    ensures t.deleted == deleted
    ensures 1 <= t.polls <= 10 && t.fsDeletes <= 3
    ensures t.fsDeletes > 0 <==> EmptiedOnPoll(poll, t.polls)
    ensures NotEmptiedBefore(poll, t.polls)
    ensures t.result.None? <==> DeletedOnCall(deleteFs, t.fsDeletes)
    ensures FailedBefore(deleteFs, t.fsDeletes)
  {
    var w := AwaitNoMountTargets(fs, poll, pollJitter);
    if w.result.Some? then Teardown(w.result, deleted, w.calls, 0)
    else
      var x := DeleteWithRetries(deleteFs, deleteJitter);
      Teardown(x.result, deleted, w.calls, x.calls)
  }

  /** Up to ten polls, two seconds apart at first, until the filesystem reports no mount
      targets; the run fails with the last poll's error. */
  function AwaitNoMountTargets(fs: string, poll: nat -> Result<FileSystemDescription, Error>,
                               jitter: (nat, int) -> int): (r: RetryRun<Error>)
    requires JitterInRange(jitter)
    ensures 1 <= r.calls <= 10
    ensures r.result.None? <==> EmptiedOnPoll(poll, r.calls)
    ensures NotEmptiedBefore(poll, r.calls)
    ensures r.result.Some? ==> r.result.value == PollCount(fs, poll(r.calls - 1)).err
  {
    var f := (k: nat) => PollCount(fs, poll(k));
    var r := Retry.Retry(10, TwoSeconds, f, jitter, 0);
    assert f(r.calls - 1) == PollCount(fs, poll(r.calls - 1));
    assert forall k :: 0 <= k < r.calls - 1 ==> !ReportsNoMountTargets(poll(k)) by {
      forall k | 0 <= k < r.calls - 1
        ensures !ReportsNoMountTargets(poll(k))
      {
        assert f(k).Failed?;
        assert f(k) == PollCount(fs, poll(k));
      }
    }
    r
  }

  /** Up to three filesystem deletes, two seconds apart at first, until one succeeds. */
  function DeleteWithRetries(deleteFs: nat -> Option<Error>, jitter: (nat, int) -> int): (r: RetryRun<Error>)
    requires JitterInRange(jitter)
    ensures 1 <= r.calls <= 3
    ensures r.result.None? <==> DeletedOnCall(deleteFs, r.calls)
    ensures FailedBefore(deleteFs, r.calls)
    ensures r.result.Some? ==> r.result == deleteFs(r.calls - 1)
  {
    var f := (k: nat) => DeleteAttempt(deleteFs(k));
    var r := Retry.Retry(3, TwoSeconds, f, jitter, 0);
    assert f(r.calls - 1) == DeleteAttempt(deleteFs(r.calls - 1));
    assert forall k :: 0 <= k < r.calls - 1 ==> deleteFs(k).Some? by {
      forall k | 0 <= k < r.calls - 1
        ensures deleteFs(k).Some?
      {
        assert f(k).Failed?;
        assert f(k) == DeleteAttempt(deleteFs(k));
      }
    }
    r
  }

  /** The filesystem is deleted only after every listed mount target was available and
      deleted without error, and a poll showed none left. */
  lemma DeletedOnlyWhenEmptied(fs: string, listed: Result<seq<MountTargetDescription>, Error>,
                               deleteMt: string -> Option<Error>,
                               poll: nat -> Result<FileSystemDescription, Error>,
                               deleteFs: nat -> Option<Error>,
                               pollJitter: (nat, int) -> int, deleteJitter: (nat, int) -> int)
    requires JitterInRange(pollJitter) && JitterInRange(deleteJitter)
    ensures var t := DeleteFileSystemO(fs, listed, deleteMt, poll, deleteFs, pollJitter, deleteJitter);
            t.fsDeletes > 0 ==>
              listed.Success? && |t.deleted| == |listed.value| &&
              (forall i :: 0 <= i < |listed.value| ==>
                 MountTargetAvailable(listed.value[i]) && t.deleted[i] == MountTargetId(listed.value[i]) &&
                 deleteMt(t.deleted[i]).None?) &&
              EmptiedOnPoll(poll, t.polls)
  {
  }

  /** Whenever every listed target is available and deletes cleanly, the loop deletes them
      all, in order, and ends without error; the converse is part of its contract. */
  lemma {:induction false} AllMountTargetsDeleted(fs: string, mts: seq<MountTargetDescription>,
                                                  deleteMt: string -> Option<Error>)
    requires forall i :: 0 <= i < |mts| ==>
               MountTargetAvailable(mts[i]) && deleteMt(MountTargetId(mts[i])).None?
    ensures DeleteMountTargets(fs, mts, deleteMt).err.None?
    ensures |DeleteMountTargets(fs, mts, deleteMt).deleted| == |mts|
  {
  }

  /** With a cooperative service the teardown deletes every mount target, polls once,
      deletes the filesystem once and returns nil. */
  lemma CleanTeardown(fs: string, mts: seq<MountTargetDescription>,
                      deleteMt: string -> Option<Error>,
                      poll: nat -> Result<FileSystemDescription, Error>,
                      deleteFs: nat -> Option<Error>,
                      pollJitter: (nat, int) -> int, deleteJitter: (nat, int) -> int)
    requires JitterInRange(pollJitter) && JitterInRange(deleteJitter)
    requires forall i :: 0 <= i < |mts| ==>
               MountTargetAvailable(mts[i]) && deleteMt(MountTargetId(mts[i])).None?
    requires ReportsNoMountTargets(poll(0)) && deleteFs(0).None?
    ensures DeleteFileSystemO(fs, Success(mts), deleteMt, poll, deleteFs, pollJitter, deleteJitter)
              == Teardown(None, DeleteMountTargets(fs, mts, deleteMt).deleted, 1, 1)
  {
    AllMountTargetsDeleted(fs, mts, deleteMt);
    FirstCallSucceeds(10, TwoSeconds, (k: nat) => PollCount(fs, poll(k)), pollJitter);
    FirstCallSucceeds(3, TwoSeconds, (k: nat) => DeleteAttempt(deleteFs(k)), deleteJitter);
  }

  /** Mount targets that never go away keep the filesystem: ten polls, no delete, and the
      last poll's error. */
  lemma MountTargetsThatStay(fs: string, mts: seq<MountTargetDescription>,
                             deleteMt: string -> Option<Error>,
                             poll: nat -> Result<FileSystemDescription, Error>,
                             deleteFs: nat -> Option<Error>,
                             pollJitter: (nat, int) -> int, deleteJitter: (nat, int) -> int)
    requires JitterInRange(pollJitter) && JitterInRange(deleteJitter)
    requires forall i :: 0 <= i < |mts| ==>
               MountTargetAvailable(mts[i]) && deleteMt(MountTargetId(mts[i])).None?
    requires forall k :: 0 <= k < 10 ==> !ReportsNoMountTargets(poll(k))
    ensures var t := DeleteFileSystemO(fs, Success(mts), deleteMt, poll, deleteFs, pollJitter, deleteJitter);
            t.polls == 10 && t.fsDeletes == 0 && t.result == Some(PollCount(fs, poll(9)).err)
  {
    AllMountTargetsDeleted(fs, mts, deleteMt);
    var f := (k: nat) => PollCount(fs, poll(k));
    assert forall i :: 0 <= i < Budget(10) ==> f(i).Failed? by {
      forall i | 0 <= i < Budget(10)
        ensures f(i).Failed?
      {
        assert !ReportsNoMountTargets(poll(i));
      }
    }
    AlwaysFailing(10, TwoSeconds, f, pollJitter);
  }
}
