/** The background task `filesystemCreate` starts once the filesystem exists: wait for it to
    be available, apply the backup and lifecycle settings, create one mount target per
    subnet and wait for them, then create each requested access point and wait for its
    task. Compensations are registered as the steps succeed, and a failure runs the
    registered ones through `rollBack`. Every call is an oracle parameter answering with
    the client's own result; `pollFs(k)` and the like answer the k-th call of a wait. */
module FsCreateTask {
  import opened Wrappers
  import opened ApiErrors
  import opened EfsClient
  import opened Retry
  import opened Server
  import opened FsCreate
  import Teardown
  import AccessPoints

  /** The step a task failed at. */
  datatype Stage =
    | AwaitFileSystem
    | SetBackup
    | SetLifecycle
    | CreateMountTarget(index: nat)
    | AwaitMountTargets
    | CreateAccessPoint(index: nat)
    | AwaitAccessPoint(index: nat)

  /** A failed step and the error the task's `err` then holds. */
  datatype Fault = Fault(stage: Stage, err: Error)

  /** The registered rollback tasks: deleting the filesystem, and deleting the mount
      targets with these ids and then waiting for the count to reach zero. */
  datatype Compensation = RemoveFileSystem | RemoveMountTargets(ids: seq<string>)

  /** The status of a flywheel task as `GetTask` reports it. */
  datatype TaskStatus = StatusCompleted | StatusFailed | StatusOther(name: string)

  /** The calls the task makes. The access-point creates go through `accessPointCreate`
      with the account's client, a generated name `apUuid(i)` and task id `apTaskId(i)`
      for the i-th request; `apFailure(i)` is the failure text of the task it returns.
      `jitter(w)` is the random source of the w-th wait: 0 for the filesystem, 1 for the
      mount targets, 2 for the rollback's wait and 3 + i for the i-th access point. */
  datatype CreateService = CreateService(
    pollFs: nat -> Result<FileSystemDescription, Error>,
    setBackup: (string, string) -> Option<Error>,
    setLifecycle: (string, string, string) -> Option<Error>,
    createMt: CreateMountTargetInput -> Result<MountTargetDescription, Error>,
    pollMts: nat -> Result<seq<MountTargetDescription>, Error>,
    accounts: set<string>,
    account: string,
    apUuid: nat -> string,
    apTaskId: nat -> string,
    apFailure: nat -> string,
    getFileSystem: string -> Result<FileSystemDescription, Error>,
    createAp: CreateAccessPointInput -> Result<AccessPointDescription, Error>,
    getTask: (string, nat) -> Result<Option<TaskStatus>, Error>,
    deleteFs: string -> Option<Error>,
    deleteMt: string -> Option<Error>,
    rollbackPoll: nat -> Result<FileSystemDescription, Error>,
    jitter: nat -> ((nat, int) -> int))

  ghost predicate Draws(svc: CreateService) {
    forall w: nat :: JitterInRange(svc.jitter(w))
  }

  // ---- waiting for the filesystem ---------------------------------------------------

  predicate ReportsAvailable(answer: Result<FileSystemDescription, Error>) {
    answer.Success? && answer.value.lifeCycleState.GetOr("") == "available"
  }

  function PollFileSystem(fsid: string, answer: Result<FileSystemDescription, Error>): (a: Attempt<Error>)
    ensures a.Succeeded? <==> ReportsAvailable(answer)
    ensures !a.Stopped?
  {
    match answer
    case Failure(e) => Failed(e)
    case Success(out) =>
      if out.lifeCycleState.GetOr("") != "available" then Failed(Errorf("filsystem " + fsid + " not yet available"))
      else Succeeded
  }

  /** The n-th poll, counting from one, found the filesystem available. */
  predicate AvailableOnPoll(poll: nat -> Result<FileSystemDescription, Error>, n: nat) {
    n > 0 && ReportsAvailable(poll(n - 1))
  }

  /** No poll before the n-th found it available. */
  predicate UnavailableBefore(poll: nat -> Result<FileSystemDescription, Error>, n: nat) {
    forall k :: 0 <= k < n - 1 ==> !ReportsAvailable(poll(k))
  }

  /** Up to ten polls until the filesystem is available. */
  function AwaitAvailable(fsid: string, poll: nat -> Result<FileSystemDescription, Error>, jitter: (nat, int) -> int)
    : (r: RetryRun<Error>)
    requires JitterInRange(jitter)
    ensures 1 <= r.calls <= 10
    ensures r.result.None? <==> AvailableOnPoll(poll, r.calls)
    ensures UnavailableBefore(poll, r.calls)
  {
    var f := (k: nat) => PollFileSystem(fsid, poll(k));
    var r := Retry.Retry(10, TwoSeconds, f, jitter, 0);
    assert f(r.calls - 1) == PollFileSystem(fsid, poll(r.calls - 1));
    assert forall k :: 0 <= k < r.calls - 1 ==> !ReportsAvailable(poll(k)) by {
      forall k | 0 <= k < r.calls - 1
        ensures !ReportsAvailable(poll(k))
      {
        assert f(k).Failed?;
        assert f(k) == PollFileSystem(fsid, poll(k));
      }
    }
    r
  }

  // ---- mount targets ----------------------------------------------------------------

  /** The input of the mount target in `subnet`. */
  function MountTargetInput(fsid: string, sgs: seq<string>, subnet: string): CreateMountTargetInput {
    CreateMountTargetInput(Some(fsid), sgs, Some(subnet))
  }

  /** How far the mount-target creates got: the inputs sent, the targets made, and the
      error of the create that failed, if one did. */
  datatype MountTargetsMade = MountTargetsMade(sent: seq<CreateMountTargetInput>, made: seq<MountTargetDescription>, err: Option<Error>)

  /** One create per subnet, in order, until one fails. */
  function CreateMountTargets(fsid: string, subnets: seq<string>, sgs: seq<string>,
                              createMt: CreateMountTargetInput -> Result<MountTargetDescription, Error>)
    : (m: MountTargetsMade)
    ensures |m.sent| <= |subnets|
    ensures forall i :: 0 <= i < |m.sent| ==> m.sent[i] == MountTargetInput(fsid, sgs, subnets[i])
    ensures m.err.None? ==> |m.sent| == |subnets| && |m.made| == |subnets|
    ensures m.err.Some? ==> |m.sent| > 0 && |m.made| == |m.sent| - 1 && createMt(m.sent[|m.sent| - 1]) == Failure(m.err.value)
    ensures forall i :: 0 <= i < |m.made| ==> createMt(m.sent[i]) == Success(m.made[i])
    decreases |subnets|
  {
    if |subnets| == 0 then MountTargetsMade([], [], None)
    else
      var input := MountTargetInput(fsid, sgs, subnets[0]);
      match createMt(input)
      case Failure(e) => MountTargetsMade([input], [], Some(e))
      case Success(mt) =>
        var rest := CreateMountTargets(fsid, subnets[1..], sgs, createMt);
        MountTargetsMade([input] + rest.sent, [mt] + rest.made, rest.err)
  }

  /** One poll of the mount-target wait: a listing failure, the first target not yet
      available (NotFound), or success. */
  function PollMountTargets(fsid: string, answer: Result<seq<MountTargetDescription>, Error>): (a: Attempt<Error>)
    ensures a.Succeeded? <==> answer.Success? && forall j :: 0 <= j < |answer.value| ==> Teardown.MountTargetAvailable(answer.value[j])
    ensures !a.Stopped?
  {
    match answer
    case Failure(e) => Failed(Annotated("failed to list mount targets for filesystem " + fsid + ": ", e))
    case Success(mts) =>
      match Teardown.FirstUnavailable(mts)
      case None => Succeeded
      case Some(i) =>
        Failed(Plain(NotFound, "filesystem " + fsid + " mount target " + Teardown.MountTargetId(mts[i]) +
                               " has status " + Teardown.MountTargetStatus(mts[i]) + ", not available"))
  }

  predicate AllAvailable(answer: Result<seq<MountTargetDescription>, Error>) {
    answer.Success? && forall j :: 0 <= j < |answer.value| ==> Teardown.MountTargetAvailable(answer.value[j])
  }

  /** The n-th listing, counting from one, found every mount target available. */
  predicate ReadyOnPoll(poll: nat -> Result<seq<MountTargetDescription>, Error>, n: nat) {
    n > 0 && AllAvailable(poll(n - 1))
  }

  /** No listing before the n-th found them all available. */
  predicate NotReadyBefore(poll: nat -> Result<seq<MountTargetDescription>, Error>, n: nat) {
    forall k :: 0 <= k < n - 1 ==> !AllAvailable(poll(k))
  }

  /** Up to ten listings until every mount target of the filesystem is available. */
  function AwaitMountTargetsReady(fsid: string, poll: nat -> Result<seq<MountTargetDescription>, Error>,
                                  jitter: (nat, int) -> int)
    : (r: RetryRun<Error>)
    requires JitterInRange(jitter)
    ensures 1 <= r.calls <= 10
    ensures r.result.None? <==> ReadyOnPoll(poll, r.calls)
    ensures NotReadyBefore(poll, r.calls)
  {
    var f := (k: nat) => PollMountTargets(fsid, poll(k));
    var r := Retry.Retry(10, TwoSeconds, f, jitter, 0);
    assert f(r.calls - 1) == PollMountTargets(fsid, poll(r.calls - 1));
    assert forall k :: 0 <= k < r.calls - 1 ==> !AllAvailable(poll(k)) by {
      forall k | 0 <= k < r.calls - 1
        ensures !AllAvailable(poll(k))
      {
        assert f(k).Failed?;
        assert f(k) == PollMountTargets(fsid, poll(k));
      }
    }
    r
  }

  function MountTargetIds(mts: seq<MountTargetDescription>): (ids: seq<string>)
    ensures |ids| == |mts|
    ensures forall i :: 0 <= i < |mts| ==> ids[i] == Teardown.MountTargetId(mts[i])
    decreases |mts|
  {
    if |mts| == 0 then [] else [Teardown.MountTargetId(mts[0])] + MountTargetIds(mts[1..])
  }

  // ---- access points ----------------------------------------------------------------

  /** One poll of an access point's task: a lookup error, a missing task, completion, a
      failed task, or a task still running. */
  function PollAccessPointTask(fsid: string, apid: string, failure: string, answer: Result<Option<TaskStatus>, Error>)
    : (a: Attempt<Error>)
    ensures a.Succeeded? <==> answer == Success(Some(StatusCompleted))
    ensures !a.Stopped?
  {
    match answer
    case Failure(e) => Failed(e)
    case Success(None) => Failed(Errorf("filsystem " + fsid + " not found"))
    case Success(Some(StatusCompleted)) => Succeeded
    case Success(Some(StatusFailed)) =>
      Failed(Errorf("failed to create access point " + apid + " for fs " + fsid + ": " + failure))
    case Success(Some(StatusOther(_))) => Failed(Errorf("filsystem " + fsid + " not yet available"))
  }

  /** The i-th access point's create through `accessPointCreate`. */
  function CreateNth(fsid: string, svc: CreateService, i: nat, req: AccessPoints.AccessPointCreateRequest): AccessPoints.Created {
    AccessPoints.AccessPointCreate(svc.accounts, svc.account, fsid, req, svc.apUuid(i), svc.apTaskId(i),
                                   svc.getFileSystem, svc.createAp)
  }

  /** Up to ten looks at the task of the i-th access point until it completes. */
  function AwaitAccessPointTask(fsid: string, svc: CreateService, i: nat, apid: string): (r: RetryRun<Error>)
    requires Draws(svc)
    ensures 1 <= r.calls <= 10
    ensures r.result.None? <==> svc.getTask(svc.apTaskId(i), r.calls - 1) == Success(Some(StatusCompleted))
  {
    var f := (k: nat) => PollAccessPointTask(fsid, apid, svc.apFailure(i), svc.getTask(svc.apTaskId(i), k));
    assert JitterInRange(svc.jitter(3 + i));
    var r := Retry.Retry(10, TwoSeconds, f, svc.jitter(3 + i), 0);
    assert f(r.calls - 1) == PollAccessPointTask(fsid, apid, svc.apFailure(i), svc.getTask(svc.apTaskId(i), r.calls - 1));
    r
  }

  /** The create and the wait of the i-th access point. */
  function OneAccessPoint(fsid: string, svc: CreateService, i: nat, req: AccessPoints.AccessPointCreateRequest)
    : (f: Option<Fault>)
    requires Draws(svc)
    ensures CreateNth(fsid, svc, i, req).result.Failure? ==>
              f == Some(Fault(CreateAccessPoint(i), CreateNth(fsid, svc, i, req).result.error))
    ensures f.Some? ==> f.value.stage == CreateAccessPoint(i) || f.value.stage == AwaitAccessPoint(i)
    ensures f.None? ==> CreateNth(fsid, svc, i, req).result.Success?
  {
    var c := CreateNth(fsid, svc, i, req);
    match c.result
    case Failure(e) => Some(Fault(CreateAccessPoint(i), e))
    case Success(ap) =>
      var w := AwaitAccessPointTask(fsid, svc, i, ap.accessPointId);
      if w.result.Some? then Some(Fault(AwaitAccessPoint(i), w.result.value)) else None
  }

  /** The first index from `i` on, below `n`, whose outcome is a failure, or `n`. */
  function FirstSome<F>(outcome: nat -> Option<F>, n: nat, i: nat): (j: nat)
    requires i <= n
    ensures i <= j <= n
    ensures j < n ==> outcome(j).Some?
    ensures forall k :: i <= k < j ==> outcome(k).None?
    decreases n - i
  {
    if i == n || outcome(i).Some? then i else FirstSome(outcome, n, i + 1)
  }

  /** The access points in order until one fails: that one's failure, or None. */
  function AccessPointsFault(fsid: string, svc: CreateService, aps: seq<AccessPoints.AccessPointCreateRequest>)
    : (f: Option<Fault>)
    requires Draws(svc)
    ensures f.None? <==> forall j :: 0 <= j < |aps| ==> OneAccessPoint(fsid, svc, j, aps[j]).None?
    ensures f.Some? ==> f.value.stage.CreateAccessPoint? || f.value.stage.AwaitAccessPoint?
  {
    var outcome := (k: nat) => if k < |aps| then OneAccessPoint(fsid, svc, k, aps[k]) else None;
    var j := FirstSome(outcome, |aps|, 0);
    assert forall k :: 0 <= k < |aps| ==> outcome(k) == OneAccessPoint(fsid, svc, k, aps[k]);
    if j < |aps| then outcome(j) else None
  }

  // ---- the task ---------------------------------------------------------------------

  /** Where the task's steps got: the failure, if any, the compensations registered by
      then, in registration order, the mount-target inputs sent and the targets made. */
  datatype Progress = Progress(fault: Option<Fault>, registered: seq<Compensation>,
                               sent: seq<CreateMountTargetInput>, made: seq<MountTargetDescription>)

  /** The mount-target inputs sent are one per subnet, in subnet order, and the targets
      made are what the creates of the first of them returned. */
  ghost predicate SentInOrder(plan: Plan, svc: CreateService, p: Progress) {
    |p.sent| <= |plan.subnets| && |p.made| <= |p.sent| &&
    (forall i :: 0 <= i < |p.sent| ==> p.sent[i] == MountTargetInput(plan.fsid, plan.sgs, plan.subnets[i])) &&
    (forall i :: 0 <= i < |p.made| ==> svc.createMt(p.sent[i]) == Success(p.made[i]))
  }

  /** The steps after the filesystem became available; `RemoveFileSystem` is registered. */
  function Configure(plan: Plan, svc: CreateService): (p: Progress)
    requires Draws(svc)
    ensures SentInOrder(plan, svc, p)
    ensures |p.registered| >= 1 && p.registered[0] == RemoveFileSystem
    ensures |p.sent| > 0 ==> svc.setBackup(plan.fsid, plan.backup).None? &&
                             svc.setLifecycle(plan.fsid, plan.lifecycle, plan.transition).None?
    ensures |p.registered| == 1 ==>
              p.registered == [RemoveFileSystem] &&
              p.fault.Some? && !p.fault.value.stage.CreateAccessPoint? && !p.fault.value.stage.AwaitAccessPoint?
    ensures |p.registered| != 1 ==>
              |p.registered| == 2 && p.registered[1] == RemoveMountTargets(MountTargetIds(p.made)) &&
              |p.made| == |p.sent| == |plan.subnets| &&
              (p.fault.None? || p.fault.value.stage.CreateAccessPoint? || p.fault.value.stage.AwaitAccessPoint?)
    ensures p.fault.Some? ==> !p.fault.value.stage.AwaitFileSystem?
  {
    var fsid := plan.fsid;
    match svc.setBackup(fsid, plan.backup)
    case Some(e) => Progress(Some(Fault(SetBackup, e)), [RemoveFileSystem], [], [])
    case None =>
      match svc.setLifecycle(fsid, plan.lifecycle, plan.transition)
      case Some(e) => Progress(Some(Fault(SetLifecycle, e)), [RemoveFileSystem], [], [])
      case None => MountTargetsStage(plan, svc)
  }

  /** The mount targets, their wait, and the access points. */
  function MountTargetsStage(plan: Plan, svc: CreateService): (p: Progress)
    requires Draws(svc)
    ensures SentInOrder(plan, svc, p)
    ensures |p.registered| >= 1 && p.registered[0] == RemoveFileSystem
    ensures |p.registered| == 1 ==>
              p.registered == [RemoveFileSystem] &&
              p.fault.Some? && (p.fault.value.stage.CreateMountTarget? || p.fault.value.stage.AwaitMountTargets?)
    ensures |p.registered| != 1 ==>
              |p.registered| == 2 && p.registered[1] == RemoveMountTargets(MountTargetIds(p.made)) &&
              |p.made| == |p.sent| == |plan.subnets| &&
              (p.fault.None? || p.fault.value.stage.CreateAccessPoint? || p.fault.value.stage.AwaitAccessPoint?)
  {
    var fsid := plan.fsid;
    var m := CreateMountTargets(fsid, plan.subnets, plan.sgs, svc.createMt);
    if m.err.Some? then
      Progress(Some(Fault(CreateMountTarget(|m.sent| - 1), m.err.value)), [RemoveFileSystem], m.sent, m.made)
    else
      assert JitterInRange(svc.jitter(1));
      var mw := AwaitMountTargetsReady(fsid, svc.pollMts, svc.jitter(1));
      if mw.result.Some? then Progress(Some(Fault(AwaitMountTargets, mw.result.value)), [RemoveFileSystem], m.sent, m.made)
      else
        var f := AccessPointsFault(fsid, svc, plan.accessPoints);
        Progress(f, [RemoveFileSystem, RemoveMountTargets(MountTargetIds(m.made))], m.sent, m.made)
  }

  /** The steps of the task up to its end or its first failure. */
  function Steps(plan: Plan, svc: CreateService): (p: Progress)
    requires Draws(svc)
  {
    assert JitterInRange(svc.jitter(0));
    var w := AwaitAvailable(plan.fsid, svc.pollFs, svc.jitter(0));
    if w.result.Some? then Progress(Some(Fault(AwaitFileSystem, w.result.value)), [], [], [])
    else Configure(plan, svc)
  }

  /** What rolling back the mount targets returns: the first failed delete, in order, or
      else the outcome of the wait for the count to reach zero. */
  function RemoveMountTargetsResult(ids: seq<string>, deleteMt: string -> Option<Error>, wait: Option<Error>)
    : (r: Option<Error>)
    ensures (forall i :: 0 <= i < |ids| ==> deleteMt(ids[i]).None?) ==> r == wait
    ensures r.Some? && r != wait ==> exists i :: 0 <= i < |ids| && r == deleteMt(ids[i])
    decreases |ids|
  {
    if |ids| == 0 then wait
    else if deleteMt(ids[0]).Some? then deleteMt(ids[0])
    else RemoveMountTargetsResult(ids[1..], deleteMt, wait)
  }

  /** What each compensation returns when it runs. */
  function Compensate(fsid: string, svc: CreateService): (run: Compensation -> Option<Error>)
    requires Draws(svc)
    ensures run(RemoveFileSystem) == svc.deleteFs(fsid)
  {
    assert JitterInRange(svc.jitter(2));
    var wait := Teardown.AwaitNoMountTargets(fsid, svc.rollbackPoll, svc.jitter(2)).result;
    (c: Compensation) =>
      match c
      case RemoveFileSystem => svc.deleteFs(fsid)
      case RemoveMountTargets(ids) => RemoveMountTargetsResult(ids, svc.deleteMt, wait)
  }

  /** A whole task: its steps, and the rollback that runs when one failed. */
  datatype CreateRun = CreateRun(progress: Progress, rollback: seq<Executed<Compensation, Error>>)

  function CreateTask(plan: Plan, svc: CreateService): (t: CreateRun)
    requires Draws(svc)
    ensures t.progress == Steps(plan, svc)
    ensures t.progress.fault.None? ==> t.rollback == []
    ensures t.progress.fault.Some? ==> t.rollback == RollBack(Some(t.progress.registered), Compensate(plan.fsid, svc))
  {
    var p := Steps(plan, svc);
    CreateRun(p, if p.fault.Some? then RollBack(Some(p.registered), Compensate(plan.fsid, svc)) else [])
  }

  /** A filesystem that never becomes available fails the task with nothing to undo. */
  lemma UnavailableFileSystemRollsBackNothing(plan: Plan, svc: CreateService)
    requires Draws(svc)
    requires CreateTask(plan, svc).progress.fault.Some?
    requires CreateTask(plan, svc).progress.fault.value.stage == AwaitFileSystem
    ensures CreateTask(plan, svc).progress.registered == []
    ensures CreateTask(plan, svc).rollback == []
    ensures CreateTask(plan, svc).progress.sent == []
  {
  }

  /** A failure between the wait for the filesystem and the end of the mount-target wait
      rolls back the filesystem alone; mount targets created before a failed create are
      not among the compensations. */
  lemma EarlyFailureRemovesOnlyTheFileSystem(plan: Plan, svc: CreateService)
    requires Draws(svc)
    requires var f := CreateTask(plan, svc).progress.fault;
             f.Some? && (f.value.stage.SetBackup? || f.value.stage.SetLifecycle? ||
                         f.value.stage.CreateMountTarget? || f.value.stage.AwaitMountTargets?)
    ensures TasksOf(CreateTask(plan, svc).rollback) == [RemoveFileSystem]
    ensures CreateTask(plan, svc).rollback[0].result == svc.deleteFs(plan.fsid)
  {
    var t := CreateTask(plan, svc);
    assert t.progress == Configure(plan, svc);
    assert |t.progress.registered| == 1;
    var log := t.rollback;
    assert |log| == 1 && log[0].task == RemoveFileSystem;
    assert TasksOf(log) == [log[0].task] + TasksOf(log[1..]);
  }

  /** A failure among the access points rolls back the mount targets first and then the
      filesystem, and the filesystem's compensation runs whatever the first returned. */
  lemma LateFailureRemovesMountTargetsFirst(plan: Plan, svc: CreateService)
    requires Draws(svc)
    requires var f := CreateTask(plan, svc).progress.fault;
             f.Some? && (f.value.stage.CreateAccessPoint? || f.value.stage.AwaitAccessPoint?)
    ensures var log := CreateTask(plan, svc).rollback;
            |log| == 2 && log[0].task.RemoveMountTargets? && log[1].task == RemoveFileSystem &&
            log[1].result == svc.deleteFs(plan.fsid)
  {
    var t := CreateTask(plan, svc);
    assert t.progress == Configure(plan, svc);
  }

  /** A task that completes sent exactly one mount-target create per subnet, in subnet
      order, with the plan's security groups, registered the removal of exactly the targets
      made, and rolled back nothing. */
  lemma CompletedTaskMadeOneMountTargetPerSubnet(plan: Plan, svc: CreateService)
    requires Draws(svc)
    requires CreateTask(plan, svc).progress.fault.None?
    ensures var p := CreateTask(plan, svc).progress;
            |p.sent| == |p.made| == |plan.subnets| &&
            (forall i :: 0 <= i < |plan.subnets| ==>
               p.sent[i] == MountTargetInput(plan.fsid, plan.sgs, plan.subnets[i]) &&
               svc.createMt(p.sent[i]) == Success(p.made[i])) &&
            p.registered == [RemoveFileSystem, RemoveMountTargets(MountTargetIds(p.made))]
    ensures CreateTask(plan, svc).rollback == []
  {
    var p := CreateTask(plan, svc).progress;
    assert p == Configure(plan, svc);
  }
}
