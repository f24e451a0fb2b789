/** Deleting a filesystem (`filesystemDelete` in `api/orchestration_filesystem.go`): the
    synchronous checks, which refuse a filesystem that is missing or not available or that
    has a mount target that is not available, and then delete its access points; and the
    background task, which deletes the filesystem's users and then tears the filesystem
    down as `DeleteFileSystemO` does (the task repeats those steps inline, with the same
    checks, messages and retries). */
module FsDelete {
  import opened Wrappers
  import opened ApiErrors
  import opened EfsClient
  import opened Retry
  import Resolver
  import Teardown
  import Users

  /** What `filesystemDelete` depends on: the outcomes of its policy generation and role
      assumption, the tenant's filesystem listing (`filesystemList`), and the EFS calls it
      makes, as the client answers them. */
  datatype DeleteEnv = DeleteEnv(
    policyErr: Option<Error>,
    assumeErr: Option<Error>,
    listing: Result<seq<string>, Error>,
    getFileSystem: string -> Result<FileSystemDescription, Error>,
    listMountTargets: string -> Result<seq<MountTargetDescription>, Error>,
    listAccessPoints: string -> Result<seq<AccessPointDescription>, Error>,
    deleteAccessPoint: string -> Option<Error>)

  /** The synchronous outcome: the id of the filesystem the task deletes (or the error),
      and the access points a delete was sent for, in order. */
  datatype DeleteStart = DeleteStart(result: Result<string, Error>, apDeletes: seq<string>)

  function FileSystemStatus(f: FileSystemDescription): string {
    f.lifeCycleState.GetOr("")
  }

  function AccessPointId(ap: AccessPointDescription): string {
    ap.accessPointId.GetOr("")
  }

  /** The refusal of a filesystem that is not available. */
  function NotAvailable(fs: string, status: string): Error {
    Plain(Conflict, "filesystem " + fs + " has status " + status + ", cannot delete filesystems that are not 'available'")
  }

  /** The refusal of a mount target that is not available. */
  function MountTargetBusy(fs: string, m: MountTargetDescription): Error {
    Plain(Conflict, "filesystem " + fs + " mount target " + Teardown.MountTargetId(m) + " has status " +
                    Teardown.MountTargetStatus(m) + ", cannot delete")
  }

  /** How far the access-point deletes got: the error that ended them, if any, and the ids
      a delete was sent for, in order. */
  datatype AccessPointDeletion = AccessPointDeletion(err: Option<Error>, deleted: seq<string>)

  /** The access-point loop: one delete at a time, in order; the first error ends it and
      is returned. */
  function DeleteAccessPoints(aps: seq<AccessPointDescription>, deleteAp: string -> Option<Error>)
    : (d: AccessPointDeletion)
    ensures |d.deleted| <= |aps|
    ensures forall i :: 0 <= i < |d.deleted| ==> d.deleted[i] == AccessPointId(aps[i])
    ensures forall i :: 0 <= i < |d.deleted| - 1 ==> deleteAp(d.deleted[i]).None?
    ensures d.err.None? <==> |d.deleted| == |aps| && (|aps| == 0 || deleteAp(d.deleted[|aps| - 1]).None?)
    ensures d.err.Some? ==> |d.deleted| > 0 && d.err == deleteAp(d.deleted[|d.deleted| - 1])
    decreases |aps|
  {
    if |aps| == 0 then AccessPointDeletion(None, [])
    else
      var id := AccessPointId(aps[0]);
      match deleteAp(id)
      case Some(e) => AccessPointDeletion(Some(e), [id])
      case None =>
        var rest := DeleteAccessPoints(aps[1..], deleteAp);
        AccessPointDeletion(rest.err, [id] + rest.deleted)
  }

  /** The checks on the filesystem itself: it must be in the tenant's listing (a listing
      error is a bad request wrapping it), it must be found, and it must be available. */
  function CheckFileSystem(env: DeleteEnv, fs: string): (r: Result<FileSystemDescription, Error>)
    ensures Resolver.FileSystemExists(env.listing, fs).Failure? ==>
              r == Failure(ApiError(BadRequest, "", Some(env.listing.error)))
    ensures Resolver.FileSystemExists(env.listing, fs) == Success(false) ==>
              r == Failure(Plain(NotFound, "filesystem doesnt exist"))
    ensures r.Success? <==>
              Resolver.FileSystemExists(env.listing, fs) == Success(true) && env.getFileSystem(fs).Success? &&
              FileSystemStatus(env.getFileSystem(fs).value) == "available"
    ensures r.Success? ==> r.value == env.getFileSystem(fs).value
  {
    match Resolver.FileSystemExists(env.listing, fs)
    case Failure(e) => Failure(ApiError(BadRequest, "", Some(e)))
    case Success(exists_) =>
      if !exists_ then Failure(Plain(NotFound, "filesystem doesnt exist"))
      else
        match env.getFileSystem(fs)
        case Failure(e) => Failure(e)
        case Success(f) =>
          var status := FileSystemStatus(f);
          if status != "available" then Failure(NotAvailable(fs, status)) else Success(f)
  }

  /** The check on the mount targets: the listing must succeed (its error is returned as
      is) and every target must be available; the first one that is not is named. */
  function CheckMountTargets(env: DeleteEnv, fs: string): (r: Option<Error>)
    ensures env.listMountTargets(fs).Failure? ==> r == Some(env.listMountTargets(fs).error)
    ensures r.None? <==>
              env.listMountTargets(fs).Success? &&
              forall j :: 0 <= j < |env.listMountTargets(fs).value| ==>
                Teardown.MountTargetAvailable(env.listMountTargets(fs).value[j])
    ensures env.listMountTargets(fs).Success? && r.Some? ==>
              var mts := env.listMountTargets(fs).value;
              exists i :: 0 <= i < |mts| && !Teardown.MountTargetAvailable(mts[i]) && r == Some(MountTargetBusy(fs, mts[i]))
  {
    match env.listMountTargets(fs)
    case Failure(e) => Some(e)
    case Success(mts) =>
      match Teardown.FirstUnavailable(mts)
      case None => None
      case Some(i) => Some(MountTargetBusy(fs, mts[i]))
  }

  /** `filesystemDelete(account, group, fs)` up to the start of its task: policy and role
      errors, then the filesystem checks, then the mount-target check, then the access
      points are listed and deleted. The result is the id the task works on. */
  function FilesystemDelete(env: DeleteEnv, fs: string): (d: DeleteStart)
    ensures env.policyErr.Some? ==> d == DeleteStart(Failure(env.policyErr.value), [])
    ensures env.policyErr.None? && env.assumeErr.Some? ==> d == DeleteStart(Failure(env.assumeErr.value), [])
    ensures env.policyErr.None? && env.assumeErr.None? && CheckFileSystem(env, fs).Failure? ==>
              d == DeleteStart(Failure(CheckFileSystem(env, fs).error), [])
    ensures env.policyErr.None? && env.assumeErr.None? && CheckFileSystem(env, fs).Success? &&
            CheckMountTargets(env, fs).Some? ==>
              d == DeleteStart(Failure(CheckMountTargets(env, fs).value), [])
    ensures d.apDeletes != [] ==>
              env.policyErr.None? && env.assumeErr.None? && CheckFileSystem(env, fs).Success? &&
              CheckMountTargets(env, fs).None? && env.listAccessPoints(fs).Success? &&
              d.apDeletes == DeleteAccessPoints(env.listAccessPoints(fs).value, env.deleteAccessPoint).deleted
    ensures d.result.Success? <==>
              env.policyErr.None? && env.assumeErr.None? && CheckFileSystem(env, fs).Success? &&
              CheckMountTargets(env, fs).None? && env.listAccessPoints(fs).Success? &&
              DeleteAccessPoints(env.listAccessPoints(fs).value, env.deleteAccessPoint).err.None?
    ensures d.result.Success? ==> d.result.value == CheckFileSystem(env, fs).value.fileSystemId.GetOr("")
  {
    if env.policyErr.Some? then DeleteStart(Failure(env.policyErr.value), [])
    else if env.assumeErr.Some? then DeleteStart(Failure(env.assumeErr.value), [])
    else
      match CheckFileSystem(env, fs)
      case Failure(e) => DeleteStart(Failure(e), [])
      case Success(f) =>
        match CheckMountTargets(env, fs)
        case Some(e) => DeleteStart(Failure(e), [])
        case None =>
          match env.listAccessPoints(fs)
          case Failure(e) => DeleteStart(Failure(e), [])
          case Success(aps) =>
            var ad := DeleteAccessPoints(aps, env.deleteAccessPoint);
            if ad.err.Some? then DeleteStart(Failure(ad.err.value), ad.deleted)
            else DeleteStart(Success(f.fileSystemId.GetOr("")), ad.deleted)
  }

  /** A filesystem outside the tenant's listing is not found, and nothing is deleted. */
  lemma MissingFileSystemNotFound(env: DeleteEnv, fs: string)
    requires env.policyErr.None? && env.assumeErr.None? && env.listing.Success?
    requires forall i :: 0 <= i < |env.listing.value| ==> Resolver.EntryId(env.listing.value[i]) != fs
    ensures FilesystemDelete(env, fs) == DeleteStart(Failure(Plain(NotFound, "filesystem doesnt exist")), [])
  {
    assert Resolver.FileSystemExists(env.listing, fs) == Success(false);
  }

  /** A filesystem, or one of its mount targets, that is not available is a conflict, and
      nothing is deleted. */
  lemma BusyFileSystemConflicts(env: DeleteEnv, fs: string)
    requires env.policyErr.None? && env.assumeErr.None?
    requires Resolver.FileSystemExists(env.listing, fs) == Success(true) && env.getFileSystem(fs).Success?
    requires FileSystemStatus(env.getFileSystem(fs).value) != "available" ||
             (env.listMountTargets(fs).Success? &&
              exists i :: 0 <= i < |env.listMountTargets(fs).value| &&
                          !Teardown.MountTargetAvailable(env.listMountTargets(fs).value[i]))
    ensures FilesystemDelete(env, fs).result.Failure?
    ensures KindOf(FilesystemDelete(env, fs).result.error) == Some(Conflict)
    ensures FilesystemDelete(env, fs).apDeletes == []
  {
    if FileSystemStatus(env.getFileSystem(fs).value) == "available" {
      assert CheckFileSystem(env, fs).Success?;
      assert CheckMountTargets(env, fs).Some?;
    }
  }

  // ---- the task ------------------------------------------------------------------------

  /** What the task sees: the outcomes of its policy generation and role assumption, the
      IAM its users are deleted through, and the EFS calls of the teardown (`poll(k)` and
      `deleteFs(k)` answer the k-th call of the two retried operations). */
  datatype DeleteService = DeleteService(
    policyErr: Option<Error>,
    assumeErr: Option<Error>,
    iam: Users.Iam,
    listMountTargets: string -> Result<seq<MountTargetDescription>, Error>,
    deleteMt: string -> Option<Error>,
    poll: nat -> Result<FileSystemDescription, Error>,
    deleteFs: nat -> Option<Error>,
    pollJitter: (nat, int) -> int,
    deleteJitter: (nat, int) -> int)

  /** How far the task got: its error, the users step when it was reached, and the
      teardown when it was reached. */
  datatype DeleteRun = DeleteRun(err: Option<Error>, users: Option<Users.DeleteAll>, teardown: Option<Teardown.Teardown>)

  /** The task of a delete: policy and role errors end it as they are; then every user of
      the filesystem is deleted (a listing error ends it as it is; a user that cannot be
      deleted does not); then the filesystem is torn down, and its error is the task's. */
  function DeleteTask(org: string, group: string, fsid: string, svc: DeleteService): (t: DeleteRun)
    requires JitterInRange(svc.pollJitter) && JitterInRange(svc.deleteJitter)
    ensures svc.policyErr.Some? ==> t == DeleteRun(svc.policyErr, None, None)
    ensures svc.policyErr.None? && svc.assumeErr.Some? ==> t == DeleteRun(svc.assumeErr, None, None)
    ensures t.users.Some? <==> svc.policyErr.None? && svc.assumeErr.None?
    ensures t.users.Some? ==> t.users.value == Users.DeleteAllFilesystemUsers(svc.iam, org, group, fsid)
    ensures t.teardown.Some? <==> t.users.Some? && t.users.value.result.Success?
    ensures t.users.Some? && t.users.value.result.Failure? ==> t.err == Some(t.users.value.result.error)
    ensures t.teardown.Some? ==>
              t.teardown.value == Teardown.DeleteFileSystemO(fsid, svc.listMountTargets(fsid), svc.deleteMt, svc.poll,
                                                              svc.deleteFs, svc.pollJitter, svc.deleteJitter) &&
              t.err == t.teardown.value.result
  {
    if svc.policyErr.Some? then DeleteRun(svc.policyErr, None, None)
    else if svc.assumeErr.Some? then DeleteRun(svc.assumeErr, None, None)
    else
      var users := Users.DeleteAllFilesystemUsers(svc.iam, org, group, fsid);
      if users.result.Failure? then DeleteRun(Some(users.result.error), Some(users), None)
      else
        var t := Teardown.DeleteFileSystemO(fsid, svc.listMountTargets(fsid), svc.deleteMt, svc.poll,
                                            svc.deleteFs, svc.pollJitter, svc.deleteJitter);
        DeleteRun(t.result, Some(users), Some(t))
  }

  /** The filesystem is deleted only after its users were listed and each was attempted,
      after every mount target was deleted, and after a poll showed none left; a task
      that reports no error deleted it. */
  lemma FileSystemDeletedLast(org: string, group: string, fsid: string, svc: DeleteService)
    requires JitterInRange(svc.pollJitter) && JitterInRange(svc.deleteJitter)
    ensures var t := DeleteTask(org, group, fsid, svc);
            t.teardown.Some? && t.teardown.value.fsDeletes > 0 ==>
              t.users.value.result.Success? &&
              |t.users.value.deletes| == |t.users.value.result.value| &&
              svc.listMountTargets(fsid).Success? &&
              Teardown.DeleteMountTargets(fsid, svc.listMountTargets(fsid).value, svc.deleteMt).err.None? &&
              Teardown.EmptiedOnPoll(svc.poll, t.teardown.value.polls)
    ensures var t := DeleteTask(org, group, fsid, svc);
            t.err.None? ==> t.teardown.Some? && Teardown.DeletedOnCall(svc.deleteFs, t.teardown.value.fsDeletes)
  {
    var t := DeleteTask(org, group, fsid, svc);
    if t.teardown.Some? {
      var td := t.teardown.value;
      if td.fsDeletes > 0 {
        assert td.polls > 0;
      }
    }
  }
}
