/** Updating a filesystem (`filesystemUpdate` in `api/orchestration_filesystem.go`): the
    synchronous checks that end in a plan, and the background task that applies it. The
    task sets the backup policy, then the lifecycle rules, then the tags, and when the
    tags changed it retags every user of the filesystem, one after the other. The EFS and
    IAM calls are oracle parameters answering with the clients' own results. */
module FsUpdate {
  import opened Wrappers
  import opened ApiErrors
  import opened Tags
  import opened Settings
  import opened EfsClient
  import Users

  /** The parts of an update request the model covers; the access policy is left out. */
  datatype FileSystemUpdateRequest = FileSystemUpdateRequest(
    lifeCycleConfiguration: string, transitionToPrimaryStorageClass: string,
    backupPolicy: string, tags: Option<seq<Tag>>)

  /** A filesystem's two lifecycle rules: the transition to Infrequent Access and the
      transition back to primary storage, as `GetFilesystemLifecycle` reports them. */
  datatype LifecycleRules = LifecycleRules(toIa: string, toPrimary: string)

  /** What `filesystemUpdate` depends on besides the request: the outcomes of its policy
      generation and role assumption, and the two EFS reads it makes. */
  datatype UpdateEnv = UpdateEnv(
    policyErr: Option<Error>,
    assumeErr: Option<Error>,
    getFileSystem: string -> Result<FileSystemDescription, Error>,
    getLifecycle: string -> Result<LifecycleRules, Error>)

  /** What the task works from: the caller's account, org and group, the filesystem's id,
      the backup policy ("" leaves it), the lifecycle rules to set (None leaves them) and
      the normalised tags to set (None leaves them). */
  datatype UpdatePlan = UpdatePlan(
    account: string, org: string, group: string, fsid: string,
    backup: string, rules: Option<LifecycleRules>, tags: Option<seq<Tag>>)

  /** The request names at least one lifecycle rule. */
  predicate NamesRules(req: FileSystemUpdateRequest) {
    req.lifeCycleConfiguration != "" || req.transitionToPrimaryStorageClass != ""
  }

  /** The rules after an update that names one of them: each empty field keeps the
      filesystem's current rule; an invalid one is a bad request, the lifecycle rule
      checked first. */
  function NewRules(req: FileSystemUpdateRequest, current: LifecycleRules): (r: Result<LifecycleRules, Error>)
    ensures r.Success? <==>
              (req.lifeCycleConfiguration == "" || req.lifeCycleConfiguration == None_ ||
               IsLifecycleRule(req.lifeCycleConfiguration)) &&
              (req.transitionToPrimaryStorageClass == "" || req.transitionToPrimaryStorageClass == None_ ||
               req.transitionToPrimaryStorageClass == AfterOneAccess)
    ensures r.Success? ==>
              r.value.toIa == (if req.lifeCycleConfiguration == "" then current.toIa else req.lifeCycleConfiguration) &&
              r.value.toPrimary ==
                (if req.transitionToPrimaryStorageClass == "" then current.toPrimary else req.transitionToPrimaryStorageClass)
    ensures r.Failure? ==>
              r.error == Plain(BadRequest,
                               if UpdateLifecycle(req.lifeCycleConfiguration, current.toIa).Failure? then LifecycleError
                               else TransitionError)
  {
    match UpdateLifecycle(req.lifeCycleConfiguration, current.toIa)
    case Failure(e) => Failure(e)
    case Success(ia) =>
      match UpdateTransition(req.transitionToPrimaryStorageClass, current.toPrimary)
      case Failure(e) => Failure(e)
      case Success(primary) => Success(LifecycleRules(ia, primary))
  }

  /** The lifecycle step of the checks: no read and no rules when the request names
      neither rule, otherwise the filesystem's rules are read (an error is returned as
      is) and completed. */
  function RulesStep(env: UpdateEnv, fs: string, req: FileSystemUpdateRequest): (r: Result<Option<LifecycleRules>, Error>)
    ensures !NamesRules(req) ==> r == Success(None)
    ensures NamesRules(req) && env.getLifecycle(fs).Failure? ==> r == Failure(env.getLifecycle(fs).error)
    ensures NamesRules(req) && env.getLifecycle(fs).Success? ==>
              match NewRules(req, env.getLifecycle(fs).value)
              case Failure(e) => r == Failure(e)
              case Success(rules) => r == Success(Some(rules))
  {
    if !NamesRules(req) then Success(None)
    else
      match env.getLifecycle(fs)
      case Failure(e) => Failure(e)
      case Success(current) =>
        match NewRules(req, current)
        case Failure(e) => Failure(e)
        case Success(rules) => Success(Some(rules))
  }

  /** `filesystemUpdate(account, group, fs, req)` up to the start of its task: policy and
      role errors and the filesystem lookup's error are returned as they are; then the
      lifecycle rules, the backup policy and the tags are checked and normalised. The
      result is the task's plan. */
  function FilesystemUpdate(env: UpdateEnv, account: string, org: string, group: string, fs: string,
                            req: FileSystemUpdateRequest): (r: Result<UpdatePlan, Error>)
    ensures env.policyErr.Some? ==> r == Failure(env.policyErr.value)
    ensures env.policyErr.None? && env.assumeErr.Some? ==> r == Failure(env.assumeErr.value)
    ensures env.policyErr.None? && env.assumeErr.None? && env.getFileSystem(fs).Failure? ==>
              r == Failure(env.getFileSystem(fs).error)
    ensures r.Success? <==>
              env.policyErr.None? && env.assumeErr.None? && env.getFileSystem(fs).Success? &&
              RulesStep(env, fs, req).Success? && UpdateBackup(req.backupPolicy).Success?
    ensures r.Success? ==>
              var f := env.getFileSystem(fs).value;
              r.value.account == account && r.value.org == org && r.value.group == group &&
              r.value.fsid == f.fileSystemId.GetOr("") &&
              r.value.backup == req.backupPolicy &&
              r.value.rules == RulesStep(env, fs, req).value &&
              (r.value.rules.Some? <==> NamesRules(req)) &&
              (r.value.tags.Some? <==> req.tags.Some?) &&
              (req.tags.Some? ==> r.value.tags.value == NormalizeTags(org, f.name.GetOr(""), group, req.tags.value))
  {
    if env.policyErr.Some? then Failure(env.policyErr.value)
    else if env.assumeErr.Some? then Failure(env.assumeErr.value)
    else
      match env.getFileSystem(fs)
      case Failure(e) => Failure(e)
      case Success(f) =>
        match RulesStep(env, fs, req)
        case Failure(e) => Failure(e)
        case Success(rules) =>
          match UpdateBackup(req.backupPolicy)
          case Failure(e) => Failure(e)
          case Success(backup) =>
            var tags := if req.tags.Some? then Some(NormalizeTags(org, f.name.GetOr(""), group, req.tags.value)) else None;
            Success(UpdatePlan(account, org, group, f.fileSystemId.GetOr(""), backup, rules, tags))
  }

  /** An invalid setting is refused with a bad request, and so no task is started. */
  lemma InvalidSettingsStartNoTask(env: UpdateEnv, account: string, org: string, group: string, fs: string,
                                   req: FileSystemUpdateRequest)
    requires env.policyErr.None? && env.assumeErr.None? && env.getFileSystem(fs).Success?
    requires NamesRules(req) ==> env.getLifecycle(fs).Success?
    requires UpdateBackup(req.backupPolicy).Failure? ||
             (NamesRules(req) && NewRules(req, env.getLifecycle(fs).value).Failure?)
    ensures FilesystemUpdate(env, account, org, group, fs, req).Failure?
    ensures KindOf(FilesystemUpdate(env, account, org, group, fs, req).error) == Some(BadRequest)
  {
  }

  /** A request that names neither lifecycle rule never reads them: its outcome is the
      same whatever the lifecycle read would answer. */
  lemma RulesReadOnlyWhenNamed(env: UpdateEnv, account: string, org: string, group: string, fs: string,
                               req: FileSystemUpdateRequest, other: string -> Result<LifecycleRules, Error>)
    requires !NamesRules(req)
    ensures FilesystemUpdate(env, account, org, group, fs, req) ==
            FilesystemUpdate(env.(getLifecycle := other), account, org, group, fs, req)
  {
  }

  // ---- the task ------------------------------------------------------------------------

  /** The calls the task makes besides the user retagging. `setBackup(fsid, policy)`,
      `setLifecycle(fsid, rules)` and `tagFileSystem(fsid, tags)` answer the EFS calls;
      `usersRoleErr` is the outcome of assuming the read-only role the users are listed
      with, and `listIam` the IAM seen through it; `tagPolicyErr`, `tagRoleErr(k)` and
      `tagIam` are what retagging the k-th listed user sees. */
  datatype UpdateService = UpdateService(
    setBackup: (string, string) -> Option<Error>,
    setLifecycle: (string, LifecycleRules) -> Option<Error>,
    tagFileSystem: (string, seq<SdkTag>) -> Option<Error>,
    usersRoleErr: Option<Error>,
    listIam: Users.Iam,
    tagPolicyErr: Option<Error>,
    tagRoleErr: nat -> Option<Error>,
    tagIam: Users.Iam)

  /** How far a task got. Each step is None when it was not attempted and otherwise holds
      its answer; `listing` is the users listing when it was made, `retagged` the users
      retagged in order, and `err` the error the task reports. */
  datatype UpdateRun = UpdateRun(
    backup: Option<Option<Error>>,
    lifecycle: Option<Option<Error>>,
    fsTags: Option<Option<Error>>,
    usersRole: Option<Option<Error>>,
    listing: Option<Users.Outcome<seq<string>>>,
    retagged: seq<Users.Outcome<()>>,
    err: Option<Error>)

  /** The error a failed step reports: its context, the filesystem, and the cause. */
  function StepError(what: string, fsid: string, e: Error): Error {
    Annotated("failed to " + what + fsid + ": ", e)
  }

  /** Retagging the k-th listed user (`updateTagsForUser`). */
  function Retag(plan: UpdatePlan, svc: UpdateService, users: seq<string>, tags: seq<Tag>, k: nat): Users.Outcome<()>
    requires k < |users|
  {
    Users.UpdateTagsForUser(svc.tagIam, svc.tagPolicyErr, svc.tagRoleErr(k), plan.account,
                            plan.org, plan.group, plan.fsid, users[k], tags)
  }

  /** Retagging each listed user, in order, were every one attempted. */
  function Retags(plan: UpdatePlan, svc: UpdateService, users: seq<string>, tags: seq<Tag>)
    : (os: seq<Users.Outcome<()>>)
    ensures |os| == |users|
    ensures forall k :: 0 <= k < |users| ==> os[k] == Retag(plan, svc, users, tags, k)
  {
    seq(|users|, k requires 0 <= k < |users| => Retag(plan, svc, users, tags, k))
  }

  /** A loop over outcomes that stops at the first failure: the outcomes up to and
      including it, or all of them. */
  function UntilFailure<T>(os: seq<Users.Outcome<T>>): (runs: seq<Users.Outcome<T>>)
    ensures |runs| <= |os| && runs == os[..|runs|]
    ensures forall k :: 0 <= k < |runs| - 1 ==> runs[k].result.Success?
    ensures |runs| < |os| ==> |runs| > 0 && runs[|runs| - 1].result.Failure?
    decreases |os|
  {
    if |os| == 0 then []
    else if os[0].result.Failure? then [os[0]]
    else [os[0]] + UntilFailure(os[1..])
  }

  /** The first retagging error, if the loop stopped at one. */
  function RetagError(runs: seq<Users.Outcome<()>>): Option<Error> {
    if |runs| > 0 && runs[|runs| - 1].result.Failure? then Some(runs[|runs| - 1].result.error) else None
  }

  /** The users part, once the filesystem's tags were set: assume the users role (a
      failure ends the task without an error), list the users, then retag each. */
  function UsersStage(plan: UpdatePlan, svc: UpdateService, tags: seq<Tag>): (t: UpdateRun)
    ensures t.backup.None? && t.lifecycle.None? && t.fsTags.None?
    ensures t.usersRole == Some(svc.usersRoleErr)
    ensures svc.usersRoleErr.Some? ==> t.err.None? && t.listing.None? && t.retagged == []
    ensures svc.usersRoleErr.None? ==>
              t.listing == Some(Users.ListFilesystemUsers(svc.listIam, plan.org, plan.group, plan.fsid))
    ensures t.listing.Some? && t.listing.value.result.Failure? ==>
              t.retagged == [] &&
              t.err == Some(StepError("list users filesystem ", plan.fsid, t.listing.value.result.error))
    ensures t.listing.Some? && t.listing.value.result.Success? ==>
              t.retagged == UntilFailure(Retags(plan, svc, t.listing.value.result.value, tags)) &&
              t.err == (match RetagError(t.retagged)
                        case None => None
                        case Some(e) => Some(StepError("update tags for users of filesystem ", plan.fsid, e)))
  {
    if svc.usersRoleErr.Some? then UpdateRun(None, None, None, Some(svc.usersRoleErr), None, [], None)
    else
      var listing := Users.ListFilesystemUsers(svc.listIam, plan.org, plan.group, plan.fsid);
      match listing.result
      case Failure(e) =>
        UpdateRun(None, None, None, Some(None), Some(listing), [], Some(StepError("list users filesystem ", plan.fsid, e)))
      case Success(users) =>
        var runs := UntilFailure(Retags(plan, svc, users, tags));
        var err := match RetagError(runs)
                   case None => None
                   case Some(e) => Some(StepError("update tags for users of filesystem ", plan.fsid, e));
        UpdateRun(None, None, None, Some(None), Some(listing), runs, err)
  }

  /** The tags part: set the filesystem's tags (a failure ends the task), then the users. */
  function TagsStage(plan: UpdatePlan, svc: UpdateService): (t: UpdateRun)
    requires plan.tags.Some?
    ensures t.backup.None? && t.lifecycle.None?
    ensures t.fsTags == Some(svc.tagFileSystem(plan.fsid, ToSdkTags(plan.tags.value)))
    ensures t.fsTags.value.Some? ==>
              t.usersRole.None? && t.listing.None? && t.retagged == [] &&
              t.err == Some(StepError("set tags for filesystem ", plan.fsid, t.fsTags.value.value))
    ensures t.fsTags.value.None? ==> t == UsersStage(plan, svc, plan.tags.value).(fsTags := t.fsTags)
  {
    var answer := svc.tagFileSystem(plan.fsid, ToSdkTags(plan.tags.value));
    if answer.Some? then
      UpdateRun(None, None, Some(answer), None, None, [], Some(StepError("set tags for filesystem ", plan.fsid, answer.value)))
    else UsersStage(plan, svc, plan.tags.value).(fsTags := Some(answer))
  }

  /** Everything after the backup step: the lifecycle rules when planned, then the tags
      when planned. */
  function RulesAndTags(plan: UpdatePlan, svc: UpdateService): (t: UpdateRun)
    ensures t.backup.None?
    ensures t.lifecycle.Some? <==> plan.rules.Some?
    ensures t.lifecycle.Some? ==> t.lifecycle.value == svc.setLifecycle(plan.fsid, plan.rules.value)
    ensures t.fsTags.Some? <==> plan.tags.Some? && (t.lifecycle.None? || t.lifecycle.value.None?)
    ensures t.lifecycle.Some? && t.lifecycle.value.Some? ==>
              t.err == Some(StepError("set lifecycle for filesystem ", plan.fsid, t.lifecycle.value.value))
    ensures t.fsTags.Some? ==> t == TagsStage(plan, svc).(lifecycle := t.lifecycle)
    ensures (t.lifecycle.Some? && t.lifecycle.value.Some?) || t.fsTags.None? ==>
              t.usersRole.None? && t.listing.None? && t.retagged == []
    ensures t.fsTags.None? && (t.lifecycle.None? || t.lifecycle.value.None?) ==> t.err.None?
  {
    var lifecycle := if plan.rules.Some? then Some(svc.setLifecycle(plan.fsid, plan.rules.value)) else None;
    if lifecycle.Some? && lifecycle.value.Some? then
      UpdateRun(None, lifecycle, None, None, None, [], Some(StepError("set lifecycle for filesystem ", plan.fsid, lifecycle.value.value)))
    else if plan.tags.None? then UpdateRun(None, lifecycle, None, None, None, [], None)
    else TagsStage(plan, svc).(lifecycle := lifecycle)
  }

  /** The task of an update: the backup policy when one was given, then the rest; the
      first failure ends it, with the failed step's error. */
  function UpdateTask(plan: UpdatePlan, svc: UpdateService): (t: UpdateRun)
    ensures t.backup.Some? <==> plan.backup != ""
    ensures t.backup.Some? ==> t.backup.value == svc.setBackup(plan.fsid, plan.backup)
    ensures t.backup.Some? && t.backup.value.Some? ==>
              t == UpdateRun(t.backup, None, None, None, None, [],
                             Some(StepError("set backup policy for filesystem ", plan.fsid, t.backup.value.value)))
    ensures t.backup.None? || t.backup.value.None? ==> t == RulesAndTags(plan, svc).(backup := t.backup)
  {
    var backup := if plan.backup != "" then Some(svc.setBackup(plan.fsid, plan.backup)) else None;
    if backup.Some? && backup.value.Some? then
      UpdateRun(backup, None, None, None, None, [], Some(StepError("set backup policy for filesystem ", plan.fsid, backup.value.value)))
    else RulesAndTags(plan, svc).(backup := backup)
  }

  /** A step is attempted only once every step before it succeeded. */
  predicate Reached(step: Option<Option<Error>>) {
    step.None? || step.value.None?
  }

  /** The task reports no error exactly when every step it attempted succeeded, except
      that an unassumable users role ends it quietly; and the users are listed only after
      the filesystem's tags were set. */
  lemma UpdateTaskErrorMeaning(plan: UpdatePlan, svc: UpdateService)
    ensures var t := UpdateTask(plan, svc);
            t.err.None? <==>
              Reached(t.backup) && Reached(t.lifecycle) && Reached(t.fsTags) &&
              (t.listing.None? || (t.listing.value.result.Success? &&
                                   RetagError(t.retagged).None?))
    ensures var t := UpdateTask(plan, svc);
            t.listing.Some? ==> t.fsTags == Some(None) && t.usersRole == Some(None)
  {
    var t := UpdateTask(plan, svc);
    if Reached(t.backup) {
      var r := RulesAndTags(plan, svc);
      if r.fsTags.Some? && r.fsTags.value.None? {
        assert r == UsersStage(plan, svc, plan.tags.value).(fsTags := r.fsTags, lifecycle := r.lifecycle);
      }
    }
  }

  /** An empty backup policy is never applied, and the lifecycle rules are set only when
      the request named one of them. */
  lemma OnlyRequestedSettingsApplied(env: UpdateEnv, account: string, org: string, group: string, fs: string,
                                     req: FileSystemUpdateRequest, svc: UpdateService)
    requires FilesystemUpdate(env, account, org, group, fs, req).Success?
    ensures var t := UpdateTask(FilesystemUpdate(env, account, org, group, fs, req).value, svc);
            (t.backup.Some? ==> req.backupPolicy != "") &&
            (t.lifecycle.Some? ==> NamesRules(req))
  {
    var plan := FilesystemUpdate(env, account, org, group, fs, req).value;
    var t := UpdateTask(plan, svc);
    if t.lifecycle.Some? {
      assert Reached(t.backup);
      assert plan.rules.Some?;
    }
  }

  /** When the users role cannot be assumed after the filesystem's tags were set, the
      task reports success although no user was listed or retagged. */
  lemma UnassumableUsersRoleIsSilent(plan: UpdatePlan, svc: UpdateService)
    requires plan.tags.Some? && svc.usersRoleErr.Some?
    requires plan.backup != "" ==> svc.setBackup(plan.fsid, plan.backup).None?
    requires plan.rules.Some? ==> svc.setLifecycle(plan.fsid, plan.rules.value).None?
    requires svc.tagFileSystem(plan.fsid, ToSdkTags(plan.tags.value)).None?
    ensures var t := UpdateTask(plan, svc);
            t.err.None? && t.usersRole == Some(svc.usersRoleErr) && t.listing.None? && t.retagged == []
  {
    var r := RulesAndTags(plan, svc);
    assert r.fsTags.Some?;
    assert r == UsersStage(plan, svc, plan.tags.value).(fsTags := r.fsTags, lifecycle := r.lifecycle);
  }

  /** A task that reports no error after listing the users retagged every one of them, in
      the listed order, each with the plan's tags. */
  lemma EveryListedUserRetagged(plan: UpdatePlan, svc: UpdateService)
    requires UpdateTask(plan, svc).err.None? && UpdateTask(plan, svc).listing.Some?
    ensures var t := UpdateTask(plan, svc);
            plan.tags.Some? && t.listing.value.result.Success? &&
            var users := t.listing.value.result.value;
            |t.retagged| == |users| &&
            forall k :: 0 <= k < |users| ==>
              t.retagged[k] == Retag(plan, svc, users, plan.tags.value, k) && t.retagged[k].result.Success?
  {
    var t := UpdateTask(plan, svc);
    UpdateTaskErrorMeaning(plan, svc);
    ListedUsersAreRetagged(plan, svc);
    var users := t.listing.value.result.value;
    NoFailureRunsAll(Retags(plan, svc, users, plan.tags.value), t.retagged);
  }

  /** Once the users were listed, the retagging loop ran over exactly the listed users. */
  lemma ListedUsersAreRetagged(plan: UpdatePlan, svc: UpdateService)
    requires UpdateTask(plan, svc).listing.Some?
    ensures plan.tags.Some?
    ensures var t := UpdateTask(plan, svc);
            t.listing.value.result.Success? ==>
              t.retagged == UntilFailure(Retags(plan, svc, t.listing.value.result.value, plan.tags.value))
  {
    var r := RulesAndTags(plan, svc);
    assert r == UsersStage(plan, svc, plan.tags.value).(fsTags := r.fsTags, lifecycle := r.lifecycle);
  }

  /** A loop that did not stop at a failure ran every outcome, and all succeeded. */
  lemma NoFailureRunsAll(os: seq<Users.Outcome<()>>, runs: seq<Users.Outcome<()>>)
    requires runs == UntilFailure(os)
    requires RetagError(runs).None?
    ensures runs == os
    ensures forall k :: 0 <= k < |os| ==> os[k].result.Success?
  {
    StoppedAtNoFailure(os, runs);
  }

  /** The same for any prefix of outcomes that stops only at a failure. */
  lemma StoppedAtNoFailure(os: seq<Users.Outcome<()>>, runs: seq<Users.Outcome<()>>)
    requires |runs| <= |os| && runs == os[..|runs|]
    requires forall k :: 0 <= k < |runs| - 1 ==> runs[k].result.Success?
    requires |runs| < |os| ==> |runs| > 0 && runs[|runs| - 1].result.Failure?
    requires RetagError(runs).None?
    ensures runs == os
    ensures forall k :: 0 <= k < |os| ==> os[k].result.Success?
  {
    var n := |runs|;
    assert n > 0 ==> runs[n - 1].result.Success?;
    assert n == |os|;
    forall k | 0 <= k < |os|
      ensures os[k].result.Success?
    {
      assert runs[k] == os[k];
      if k < n - 1 {
        assert runs[k].result.Success?;
      } else {
        assert k == n - 1;
      }
    }
  }
}
