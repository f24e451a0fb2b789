/** The filesystem-user workflows (`userOrchestrator` in `api/orchestration_users.go`).
    Every EFS and IAM call is a field of the `Iam` oracle; a workflow returns its result
    together with the calls it made, in order. */
module Users {
  import opened Wrappers
  import opened ApiErrors
  import opened Tags
  import opened ApiTypes
  import EfsClient
  import Strs

  /** One call a workflow makes. */
  datatype Call =
    | DescribeFileSystem(fsid: string)
    | CreateUser(userName: string, path: string, tags: seq<SdkTag>)
    | WaitForUser(userName: string)
    | AddUserToGroup(userName: string, group: string)
    | GetUserWithPath(path: string, userName: string)
    | ListGroupsForUser(userName: string)
    | RemoveUserFromGroup(userName: string, group: string)
    | ListAccessKeys(userName: string)
    | DeleteAccessKey(userName: string, keyId: string)
    | DeleteUser(userName: string)
    | ListUsers(path: string)
    | CreateAccessKey(userName: string)
    | TagUser(userName: string, tags: seq<SdkTag>)

  /** What the EFS client and the IAM client answer to each call. */
  datatype Iam = Iam(
    getFileSystem: string -> Result<EfsClient.FileSystemDescription, Error>,
    createUser: (string, string, seq<SdkTag>) -> Result<IamUser, Error>,
    waitForUser: string -> Option<Error>,
    addUserToGroup: (string, string) -> Option<Error>,
    getUserWithPath: (string, string) -> Result<IamUser, Error>,
    listGroupsForUser: string -> Result<seq<string>, Error>,
    removeUserFromGroup: (string, string) -> Option<Error>,
    listAccessKeys: string -> Result<seq<AccessKeyMetadata>, Error>,
    deleteAccessKey: (string, string) -> Option<Error>,
    deleteUser: string -> Option<Error>,
    listUsers: string -> Result<seq<string>, Error>,
    createAccessKey: string -> Result<AccessKey, Error>,
    tagUser: (string, seq<SdkTag>) -> Option<Error>)

  /** A workflow's result and the calls it made. */
  datatype Outcome<T> = Outcome(result: Result<T, Error>, calls: seq<Call>)

  function Err<T>(r: Result<T, Error>): Option<Error> {
    if r.Failure? then Some(r.error) else None
  }

  /** The error a call is answered with, None when it succeeds. */
  function Answer(iam: Iam, c: Call): Option<Error> {
    match c
    case DescribeFileSystem(id) => Err(iam.getFileSystem(id))
    case CreateUser(n, p, t) => Err(iam.createUser(n, p, t))
    case WaitForUser(n) => iam.waitForUser(n)
    case AddUserToGroup(n, g) => iam.addUserToGroup(n, g)
    case GetUserWithPath(p, n) => Err(iam.getUserWithPath(p, n))
    case ListGroupsForUser(n) => Err(iam.listGroupsForUser(n))
    case RemoveUserFromGroup(n, g) => iam.removeUserFromGroup(n, g)
    case ListAccessKeys(n) => Err(iam.listAccessKeys(n))
    case DeleteAccessKey(n, k) => iam.deleteAccessKey(n, k)
    case DeleteUser(n) => iam.deleteUser(n)
    case ListUsers(p) => Err(iam.listUsers(p))
    case CreateAccessKey(n) => Err(iam.createAccessKey(n))
    case TagUser(n, t) => iam.tagUser(n, t)
  }

  /** The calls of a step-by-step run and the error it ended with. */
  datatype Run = Run(calls: seq<Call>, err: Option<Error>)

  /** The answer to the last call made, None when none was made. */
  function LastAnswer(iam: Iam, calls: seq<Call>): Option<Error> {
    if |calls| == 0 then None else Answer(iam, calls[|calls| - 1])
  }

  /** A run that goes step by step: every call but the last succeeded, and the run ends
      with the last call's answer. */
  predicate StepByStep(iam: Iam, r: Run) {
    (forall k :: 0 <= k < |r.calls| - 1 ==> Answer(iam, r.calls[k]).None?) &&
    r.err == LastAnswer(iam, r.calls)
  }

  /** A single call. */
  function Single(iam: Iam, c: Call): (r: Run)
    ensures StepByStep(iam, r) && r.calls == [c] && r.err == Answer(iam, c)
  {
    Run([c], Answer(iam, c))
  }

  /** `a`, then `b` unless `a` failed. */
  function Then(iam: Iam, a: Run, b: Run): (r: Run)
    ensures a.err.Some? ==> r == a
    ensures a.err.None? ==> r.calls == a.calls + b.calls && r.err == b.err
    ensures StepByStep(iam, a) && StepByStep(iam, b) ==> StepByStep(iam, r)
  {
    if a.err.Some? then a
    else
      var r := Run(a.calls + b.calls, b.err);
      assert StepByStep(iam, a) && StepByStep(iam, b) ==> StepByStep(iam, r) by {
        if StepByStep(iam, a) && StepByStep(iam, b) {
          forall k | 0 <= k < |r.calls| - 1
            ensures Answer(iam, r.calls[k]).None?
          {
            if k < |a.calls| {
              assert r.calls[k] == a.calls[k];
            } else {
              assert r.calls[k] == b.calls[k - |a.calls|];
            }
          }
          if |b.calls| > 0 {
            assert r.calls[|r.calls| - 1] == b.calls[|b.calls| - 1];
          }
        }
      }
      r
  }

  /** Calls that all succeeded, then a run. */
  function Prepend(iam: Iam, cs: seq<Call>, r: Run): (q: Run)
    requires forall x :: x in cs ==> Answer(iam, x).None?
    ensures q.calls == cs + r.calls && q.err == r.err
    ensures StepByStep(iam, r) ==> StepByStep(iam, q)
  {
    var q := Run(cs + r.calls, r.err);
    assert StepByStep(iam, r) ==> StepByStep(iam, q) by {
      if StepByStep(iam, r) {
        forall k | 0 <= k < |q.calls| - 1
          ensures Answer(iam, q.calls[k]).None?
        {
          if k < |cs| {
            assert q.calls[k] in cs;
          } else {
            assert q.calls[k] == r.calls[k - |cs|];
          }
        }
        if |r.calls| > 0 {
          assert q.calls[|q.calls| - 1] == r.calls[|r.calls| - 1];
        } else if |cs| > 0 {
          assert q.calls[|q.calls| - 1] in cs;
        }
      }
    }
    q
  }

  /** A `for ... { if err := call; err != nil { return err } }` loop over planned calls: they
      are made in order up to and including the first that fails. */
  function RunUntilFailure(iam: Iam, planned: seq<Call>): (r: Run)
    ensures |r.calls| <= |planned| && r.calls == planned[..|r.calls|]
    ensures StepByStep(iam, r)
    ensures r.err.None? ==> r.calls == planned
    decreases |planned|
  {
    if |planned| == 0 then Run([], None)
    else if Answer(iam, planned[0]).Some? then Single(iam, planned[0])
    else
      var rest := RunUntilFailure(iam, planned[1..]);
      Then(iam, Single(iam, planned[0]), rest)
  }

  /** The planned calls of a run that ended without an error were all made, and succeeded. */
  lemma {:induction false} CompletedRunMadeEveryCall(iam: Iam, planned: seq<Call>, x: Call)
    requires RunUntilFailure(iam, planned).err.None? && x in planned
    ensures x in RunUntilFailure(iam, planned).calls && Answer(iam, x).None?
  {
    var r := RunUntilFailure(iam, planned);
    assert r.calls == planned;
    var k :| 0 <= k < |r.calls| && r.calls[k] == x;
    if k == |r.calls| - 1 {
      assert LastAnswer(iam, r.calls) == Answer(iam, x);
    }
  }

  /** The result a run gives when it ends, `value` standing for its success. */
  function Finish<T>(r: Run, value: T): (res: Result<T, Error>)
    ensures Err(res) == r.err
  {
    if r.err.Some? then Failure(r.err.value) else Success(value)
  }

  /** The group removals `deleteFilesystemUser` plans for the listed groups. */
  function Removals(userName: string, groups: seq<string>): (cs: seq<Call>)
    ensures |cs| == |groups|
    ensures forall k :: 0 <= k < |groups| ==> cs[k] == RemoveUserFromGroup(userName, groups[k])
    decreases |groups|
  {
    if |groups| == 0 then [] else [RemoveUserFromGroup(userName, groups[0])] + Removals(userName, groups[1..])
  }

  /** The key id of a listed key (nil reads as ""). */
  function KeyId(k: AccessKeyMetadata): string {
    k.accessKeyId.GetOr("")
  }

  function KeyIds(keys: seq<AccessKeyMetadata>): (ids: seq<string>)
    ensures |ids| == |keys|
    ensures forall k :: 0 <= k < |keys| ==> ids[k] == KeyId(keys[k])
    decreases |keys|
  {
    if |keys| == 0 then [] else [KeyId(keys[0])] + KeyIds(keys[1..])
  }

  /** The key deletions planned for the listed keys. */
  function KeyDeletions(userName: string, keys: seq<AccessKeyMetadata>): (cs: seq<Call>)
    ensures |cs| == |keys|
    ensures forall k :: 0 <= k < |keys| ==> cs[k] == DeleteAccessKey(userName, KeyId(keys[k]))
    decreases |keys|
  {
    if |keys| == 0 then [] else [DeleteAccessKey(userName, KeyId(keys[0]))] + KeyDeletions(userName, keys[1..])
  }

  /** The group every filesystem user of an org joins. */
  function AdminGroup(org: string): string {
    "SpinupEFSAdminGroup-" + org
  }

  /** The name of the filesystem `fsid` as the EFS client reports it. */
  function FsName(iam: Iam, fsid: string): string
    requires iam.getFileSystem(fsid).Success?
  {
    iam.getFileSystem(fsid).value.name.GetOr("")
  }

  /** The tags a new user gets: the filesystem's tags normalised with the full user name as
      Name, then ResourceName = the filesystem's name. */
  function NewUserTags(org: string, group: string, fs: EfsClient.FileSystemDescription, userName: string)
    : (tags: seq<Tag>)
    ensures |tags| >= 4
    ensures tags[|tags| - 1] == Tag(ResourceNameKey, fs.name.GetOr(""))
    ensures tags[|tags| - 4] == Tag(NameKey, userName)
    ensures tags[|tags| - 3] == Tag(OrgKey, org) && tags[|tags| - 2] == Tag(SpaceKey, group)
    ensures tags[..|tags| - 1] == NormalizeTags(org, userName, group, FromSdkTags(fs.tags))
  {
    NormalizeTags(org, userName, group, FromSdkTags(fs.tags)) + [Tag(ResourceNameKey, fs.name.GetOr(""))]
  }

  /** `createFilesystemUser`: create `<fsname>-<user>` under the filesystem's path, wait for
      it, then add it to the org's admin group; the first failure ends the run. */
  function CreateFilesystemUser(iam: Iam, org: string, group: string, fsid: string, user: string)
    : (o: Outcome<FileSystemUserResponse>)
    ensures StepByStep(iam, Run(o.calls, Err(o.result)))
    ensures 1 <= |o.calls| <= 4 && o.calls[0] == DescribeFileSystem(fsid)
    ensures |o.calls| >= 2 ==>
              var fs := iam.getFileSystem(fsid).value;
              var n := IamUserName(fs.name.GetOr(""), user);
              o.calls[1] == CreateUser(n, UserPath(org, group, fs.name.GetOr("")), ToSdkTags(NewUserTags(org, group, fs, n)))
    ensures |o.calls| >= 3 ==> o.calls[2] == WaitForUser(o.calls[1].userName)
    ensures |o.calls| == 4 ==> o.calls[3] == AddUserToGroup(o.calls[1].userName, AdminGroup(org))
    ensures o.result.Success? ==>
              |o.calls| == 4 && iam.createUser(o.calls[1].userName, o.calls[1].path, o.calls[1].tags).Success? &&
              o.result.value == FilesystemUserResponseFromIam(org,
                iam.createUser(o.calls[1].userName, o.calls[1].path, o.calls[1].tags).value, None)
  {
    var c0 := DescribeFileSystem(fsid);
    match iam.getFileSystem(fsid)
    case Failure(e) => Outcome(Failure(e), [c0])
    case Success(fs) =>
      var name := fs.name.GetOr("");
      var userName := IamUserName(name, user);
      var c1 := CreateUser(userName, UserPath(org, group, name), ToSdkTags(NewUserTags(org, group, fs, userName)));
      match iam.createUser(c1.userName, c1.path, c1.tags)
      case Failure(e) => Outcome(Failure(e), [c0, c1])
      case Success(created) =>
        var rest := Then(iam, Single(iam, WaitForUser(userName)), Single(iam, AddUserToGroup(userName, AdminGroup(org))));
        var run := Prepend(iam, [c0, c1], rest);
        Outcome(Finish(run, FilesystemUserResponseFromIam(org, created, None)), run.calls)
  }

  /** A user the IAM client returns as it was asked to create it is shown under the name
      the client asked for. */
  lemma CreatedUserKeepsRequestedName(iam: Iam, org: string, group: string, fsid: string, user: string)
    requires '/' !in org && '/' !in group
    requires iam.getFileSystem(fsid).Success? && '/' !in FsName(iam, fsid)
    requires var o := CreateFilesystemUser(iam, org, group, fsid, user);
             o.result.Success? ==>
               var c := o.calls[1];
               iam.createUser(c.userName, c.path, c.tags).value.userName == Some(c.userName) &&
               iam.createUser(c.userName, c.path, c.tags).value.path == Some(c.path)
    ensures var o := CreateFilesystemUser(iam, org, group, fsid, user);
            o.result.Success? ==> o.result.value.userName == user
  {
    var o := CreateFilesystemUser(iam, org, group, fsid, user);
    if o.result.Success? {
      var c := o.calls[1];
      var created := iam.createUser(c.userName, c.path, c.tags).value;
      UserNameRoundTrip(org, group, FsName(iam, fsid), user, created.tags, None);
    }
  }

  /** List the user's groups and remove it from each, stopping at the first failure. */
  function RemoveFromGroups(iam: Iam, userName: string): (r: Run)
    ensures StepByStep(iam, r)
    ensures |r.calls| >= 1 && r.calls[0] == ListGroupsForUser(userName)
    ensures forall x :: x in r.calls ==> x.ListGroupsForUser? || x.RemoveUserFromGroup?
    ensures r.err.None? ==> iam.listGroupsForUser(userName).Success?
  {
    var c := ListGroupsForUser(userName);
    match iam.listGroupsForUser(userName)
    case Failure(_) => Single(iam, c)
    case Success(groups) => Then(iam, Single(iam, c), RunUntilFailure(iam, Removals(userName, groups)))
  }

  /** List the user's access keys and delete each, stopping at the first failure. */
  function DeleteKeys(iam: Iam, userName: string): (r: Run)
    ensures StepByStep(iam, r)
    ensures |r.calls| >= 1 && r.calls[0] == ListAccessKeys(userName)
    ensures forall x :: x in r.calls ==> x.ListAccessKeys? || x.DeleteAccessKey?
    ensures r.err.None? ==> iam.listAccessKeys(userName).Success?
  {
    var c := ListAccessKeys(userName);
    match iam.listAccessKeys(userName)
    case Failure(_) => Single(iam, c)
    case Success(keys) => Then(iam, Single(iam, c), RunUntilFailure(iam, KeyDeletions(userName, keys)))
  }

  /** Every group IAM lists for the user had the user removed, successfully. */
  ghost predicate GroupsDetached(iam: Iam, userName: string, calls: seq<Call>) {
    iam.listGroupsForUser(userName).Success? &&
    forall g :: g in iam.listGroupsForUser(userName).value ==>
      RemoveUserFromGroup(userName, g) in calls && iam.removeUserFromGroup(userName, g).None?
  }

  /** Every key IAM lists for the user was deleted, successfully. */
  ghost predicate KeysDetached(iam: Iam, userName: string, calls: seq<Call>) {
    iam.listAccessKeys(userName).Success? &&
    forall k :: k in iam.listAccessKeys(userName).value ==>
      DeleteAccessKey(userName, KeyId(k)) in calls && iam.deleteAccessKey(userName, KeyId(k)).None?
  }

  /** Everything IAM ties to the user has been detached. */
  ghost predicate Detached(iam: Iam, userName: string, calls: seq<Call>) {
    GroupsDetached(iam, userName, calls) && KeysDetached(iam, userName, calls)
  }

  lemma GroupsRemoved(iam: Iam, userName: string)
    requires RemoveFromGroups(iam, userName).err.None?
    ensures GroupsDetached(iam, userName, RemoveFromGroups(iam, userName).calls)
  {
    var rg := RemoveFromGroups(iam, userName);
    var groups := iam.listGroupsForUser(userName).value;
    var planned := Removals(userName, groups);
    forall g | g in groups
      ensures RemoveUserFromGroup(userName, g) in rg.calls && iam.removeUserFromGroup(userName, g).None?
    {
      var k :| 0 <= k < |groups| && groups[k] == g;
      assert planned[k] == RemoveUserFromGroup(userName, g);
      CompletedRunMadeEveryCall(iam, planned, RemoveUserFromGroup(userName, g));
    }
  }

  lemma KeysDeleted(iam: Iam, userName: string)
    requires DeleteKeys(iam, userName).err.None?
    ensures KeysDetached(iam, userName, DeleteKeys(iam, userName).calls)
  {
    var dk := DeleteKeys(iam, userName);
    var keys := iam.listAccessKeys(userName).value;
    var planned := KeyDeletions(userName, keys);
    forall key | key in keys
      ensures DeleteAccessKey(userName, KeyId(key)) in dk.calls && iam.deleteAccessKey(userName, KeyId(key)).None?
    {
      var k :| 0 <= k < |keys| && keys[k] == key;
      assert planned[k] == DeleteAccessKey(userName, KeyId(key));
      CompletedRunMadeEveryCall(iam, planned, DeleteAccessKey(userName, KeyId(key)));
    }
  }

  /** Detachment is about calls made, so more calls keep it. */
  lemma DetachedGrows(iam: Iam, userName: string, calls: seq<Call>, more: seq<Call>)
    requires forall x :: x in calls ==> x in more
    requires Detached(iam, userName, calls)
    ensures Detached(iam, userName, more)
  {
  }

  /** Detach the user from its groups and keys, then delete it; the delete is the last
      call, made only once both detachments succeeded. */
  function DetachAndDelete(iam: Iam, userName: string): (r: Run)
    ensures StepByStep(iam, r)
    ensures |r.calls| >= 1 && r.calls[0] == ListGroupsForUser(userName)
    ensures forall k :: 0 <= k < |r.calls| - 1 ==> !r.calls[k].DeleteUser?
    ensures r.calls[|r.calls| - 1].DeleteUser? ==>
              r.calls[|r.calls| - 1] == DeleteUser(userName) &&
              RemoveFromGroups(iam, userName).err.None? && DeleteKeys(iam, userName).err.None? &&
              r.calls == RemoveFromGroups(iam, userName).calls + DeleteKeys(iam, userName).calls + [DeleteUser(userName)]
    ensures r.err.None? ==> r.calls[|r.calls| - 1] == DeleteUser(userName)
  {
    var rg := RemoveFromGroups(iam, userName);
    var dk := DeleteKeys(iam, userName);
    if rg.err.Some? then GroupsFailed(iam, rg)
    else if dk.err.Some? then KeysFailed(iam, rg, dk)
    else DeleteAfterDetaching(iam, rg, dk, DeleteUser(userName))
  }

  /** A group could not be detached: no user is deleted. */
  function GroupsFailed(iam: Iam, rg: Run): (r: Run)
    requires |rg.calls| >= 1
    requires forall x :: x in rg.calls ==> !x.DeleteUser?
    ensures r == rg
    ensures forall k :: 0 <= k < |r.calls| - 1 ==> !r.calls[k].DeleteUser?
    ensures !r.calls[|r.calls| - 1].DeleteUser?
  {
    assert rg.calls[|rg.calls| - 1] in rg.calls;
    rg
  }

  /** The groups were detached but a key could not be: no user is deleted. */
  function KeysFailed(iam: Iam, rg: Run, dk: Run): (r: Run)
    requires rg.err.None? && dk.err.Some? && |dk.calls| >= 1
    requires forall x :: x in rg.calls ==> !x.DeleteUser?
    requires forall x :: x in dk.calls ==> !x.DeleteUser?
    ensures r.calls == rg.calls + dk.calls && r.err == dk.err
    ensures StepByStep(iam, rg) && StepByStep(iam, dk) ==> StepByStep(iam, r)
    ensures forall k :: 0 <= k < |r.calls| - 1 ==> !r.calls[k].DeleteUser?
    ensures !r.calls[|r.calls| - 1].DeleteUser?
  {
    var r := Then(iam, rg, dk);
    assert r.calls[|r.calls| - 1] in dk.calls;
    r
  }

  /** Both detachments succeeded: the delete follows them. */
  function DeleteAfterDetaching(iam: Iam, rg: Run, dk: Run, del: Call): (r: Run)
    requires rg.err.None? && dk.err.None?
    requires forall x :: x in rg.calls ==> !x.DeleteUser?
    requires forall x :: x in dk.calls ==> !x.DeleteUser?
    ensures r.calls == rg.calls + dk.calls + [del] && r.err == Answer(iam, del)
    ensures StepByStep(iam, rg) && StepByStep(iam, dk) ==> StepByStep(iam, r)
    ensures forall k :: 0 <= k < |r.calls| - 1 ==> !r.calls[k].DeleteUser?
  {
    var r := Then(iam, rg, Then(iam, dk, Single(iam, del)));
    assert r.calls == rg.calls + dk.calls + [del];
    r
  }

  /** The user is deleted only once everything IAM ties to it has been detached. */
  lemma DeletedOnlyWhenDetached(iam: Iam, userName: string)
    requires DetachAndDelete(iam, userName).calls[|DetachAndDelete(iam, userName).calls| - 1].DeleteUser?
    ensures Detached(iam, userName, DetachAndDelete(iam, userName).calls)
  {
    var r := DetachAndDelete(iam, userName);
    GroupsRemoved(iam, userName);
    KeysDeleted(iam, userName);
  }

  /** `deleteFilesystemUser`: check the user exists under the filesystem's path, remove it
      from each of its groups, delete each of its access keys, then delete it; the first
      failure ends the run. */
  function DeleteFilesystemUser(iam: Iam, org: string, group: string, fsid: string, user: string)
    : (o: Outcome<()>)
    ensures StepByStep(iam, Run(o.calls, Err(o.result)))
    ensures |o.calls| >= 1 && o.calls[0] == DescribeFileSystem(fsid)
    ensures |o.calls| >= 2 ==>
              var name := FsName(iam, fsid);
              o.calls[1] == GetUserWithPath(UserPath(org, group, name), IamUserName(name, user))
    ensures |o.calls| >= 3 ==>
              o.calls[2..] == DetachAndDelete(iam, IamUserName(FsName(iam, fsid), user)).calls
    ensures o.result.Success? ==>
              o.calls[|o.calls| - 1] == DeleteUser(IamUserName(FsName(iam, fsid), user))
  {
    var c0 := DescribeFileSystem(fsid);
    match iam.getFileSystem(fsid)
    case Failure(e) => Outcome(Failure(e), [c0])
    case Success(fs) =>
      var name := fs.name.GetOr("");
      var userName := IamUserName(name, user);
      var c1 := GetUserWithPath(UserPath(org, group, name), userName);
      if iam.getUserWithPath(c1.path, userName).Failure? then
        Outcome(Failure(iam.getUserWithPath(c1.path, userName).error), [c0, c1])
      else
        var run := Prepend(iam, [c0, c1], DetachAndDelete(iam, userName));
        Outcome(Finish(run, ()), run.calls)
  }

  /** A delete run deletes at most one user, with its last call, and only once that user
      has been detached. */
  lemma DeleteUserIsLastAndDetached(iam: Iam, org: string, group: string, fsid: string, user: string)
    ensures var o := DeleteFilesystemUser(iam, org, group, fsid, user);
            forall x :: x in o.calls && x.DeleteUser? ==>
              x == o.calls[|o.calls| - 1] && Detached(iam, x.userName, o.calls)
  {
    var o := DeleteFilesystemUser(iam, org, group, fsid, user);
    forall x | x in o.calls && x.DeleteUser?
      ensures x == o.calls[|o.calls| - 1] && Detached(iam, x.userName, o.calls)
    {
      var k :| 0 <= k < |o.calls| && o.calls[k] == x;
      DeleteCallIsLast(iam, org, group, fsid, user, k);
    }
  }

  lemma DeleteCallIsLast(iam: Iam, org: string, group: string, fsid: string, user: string, k: nat)
    requires k < |DeleteFilesystemUser(iam, org, group, fsid, user).calls|
    requires DeleteFilesystemUser(iam, org, group, fsid, user).calls[k].DeleteUser?
    ensures var o := DeleteFilesystemUser(iam, org, group, fsid, user);
            k == |o.calls| - 1 && Detached(iam, o.calls[k].userName, o.calls)
  {
    var o := DeleteFilesystemUser(iam, org, group, fsid, user);
    var userName := IamUserName(FsName(iam, fsid), user);
    var dd := DetachAndDelete(iam, userName);
    DeleteInSuffix(o.calls, dd.calls, k);
    OnlyDeleteIsLast(iam, userName, k - 2);
    assert o.calls[k].userName == userName;
    DetachedGrows(iam, userName, dd.calls, o.calls);
  }

  /** A delete call in a run whose first two calls are not deletes sits in the tail. */
  lemma DeleteInSuffix(calls: seq<Call>, tail: seq<Call>, k: nat)
    requires |calls| >= 2 && !calls[0].DeleteUser? && !calls[1].DeleteUser?
    requires |calls| >= 3 ==> calls[2..] == tail
    requires k < |calls| && calls[k].DeleteUser?
    ensures 2 <= k && k - 2 < |tail| && tail[k - 2] == calls[k]
    ensures k == |calls| - 1 <==> k - 2 == |tail| - 1
    ensures forall y :: y in tail ==> y in calls
  {
  }

  /** Within one detach-and-delete run, a delete call can only be the last one, for the
      user being detached, after its detachment. */
  lemma OnlyDeleteIsLast(iam: Iam, userName: string, j: nat)
    requires j < |DetachAndDelete(iam, userName).calls|
    requires DetachAndDelete(iam, userName).calls[j].DeleteUser?
    ensures var dd := DetachAndDelete(iam, userName);
            j == |dd.calls| - 1 && dd.calls[j] == DeleteUser(userName) &&
            Detached(iam, userName, dd.calls)
  {
    DeletedOnlyWhenDetached(iam, userName);
  }

  /** `listFilesystemUsers`: the users under the filesystem's path, each without the
      `<fsname>-` prefix, in the order IAM lists them. */
  function ListFilesystemUsers(iam: Iam, org: string, group: string, fsid: string): (o: Outcome<seq<string>>)
    ensures StepByStep(iam, Run(o.calls, Err(o.result)))
    ensures 1 <= |o.calls| <= 2 && o.calls[0] == DescribeFileSystem(fsid)
    ensures |o.calls| == 2 ==> o.calls[1] == ListUsers(UserPath(org, group, FsName(iam, fsid)))
    ensures o.result.Success? ==>
              |o.calls| == 2 &&
              var listed := iam.listUsers(o.calls[1].path).value;
              |o.result.value| == |listed| &&
              forall i :: 0 <= i < |listed| ==>
                o.result.value[i] == Strs.TrimPrefix(listed[i], FsName(iam, fsid) + "-")
  {
    var c0 := DescribeFileSystem(fsid);
    match iam.getFileSystem(fsid)
    case Failure(e) => Outcome(Failure(e), [c0])
    case Success(fs) =>
      var name := fs.name.GetOr("");
      var c1 := ListUsers(UserPath(org, group, name));
      match iam.listUsers(c1.path)
      case Failure(e) => Outcome(Failure(e), [c0, c1])
      case Success(users) => Outcome(Success(TrimAll(users, name + "-")), [c0, c1])
  }

  function TrimAll(users: seq<string>, prefix: string): (r: seq<string>)
    ensures |r| == |users|
    ensures forall i :: 0 <= i < |users| ==> r[i] == Strs.TrimPrefix(users[i], prefix)
    decreases |users|
  {
    if |users| == 0 then [] else [Strs.TrimPrefix(users[0], prefix)] + TrimAll(users[1..], prefix)
  }

  /** Users named by the scheme list back under the names they were created with. */
  lemma ListedUsersLoseTheirPrefix(iam: Iam, org: string, group: string, fsid: string, names: seq<string>)
    requires iam.getFileSystem(fsid).Success?
    requires var n := FsName(iam, fsid);
             iam.listUsers(UserPath(org, group, n)) ==
               Success(seq(|names|, i requires 0 <= i < |names| => IamUserName(n, names[i])))
    ensures ListFilesystemUsers(iam, org, group, fsid).result == Success(names)
  {
    var n := FsName(iam, fsid);
    var listed := iam.listUsers(UserPath(org, group, n)).value;
    var r := TrimAll(listed, n + "-");
    assert ListFilesystemUsers(iam, org, group, fsid).result == Success(r);
    forall i | 0 <= i < |names|
      ensures r[i] == names[i]
    {
      assert listed[i] == (n + "-") + names[i];
      Strs.TrimPrefixOfConcat(n + "-", names[i]);
    }
    assert r == names;
  }

  /** `deleteAllFilesystemUsers`: list the users, then try to delete each one in turn; a
      failed delete is only logged. */
  datatype DeleteAll = DeleteAll(result: Result<seq<string>, Error>, listing: Outcome<seq<string>>, deletes: seq<Outcome<()>>)

  function DeleteAllFilesystemUsers(iam: Iam, org: string, group: string, fsid: string): (d: DeleteAll)
    ensures d.listing == ListFilesystemUsers(iam, org, group, fsid)
    ensures d.result == d.listing.result
    ensures d.result.Failure? ==> d.deletes == []
    ensures d.result.Success? ==>
              |d.deletes| == |d.result.value| &&
              forall i :: 0 <= i < |d.deletes| ==>
                d.deletes[i] == DeleteFilesystemUser(iam, org, group, fsid, d.result.value[i])
  {
    var listing := ListFilesystemUsers(iam, org, group, fsid);
    match listing.result
    case Failure(e) => DeleteAll(Failure(e), listing, [])
    case Success(users) => DeleteAll(Success(users), listing, DeleteEach(iam, org, group, fsid, users))
  }

  function DeleteEach(iam: Iam, org: string, group: string, fsid: string, users: seq<string>): (runs: seq<Outcome<()>>)
    ensures |runs| == |users|
    ensures forall i :: 0 <= i < |users| ==> runs[i] == DeleteFilesystemUser(iam, org, group, fsid, users[i])
    decreases |users|
  {
    if |users| == 0 then []
    else [DeleteFilesystemUser(iam, org, group, fsid, users[0])] + DeleteEach(iam, org, group, fsid, users[1..])
  }

  /** `getFilesystemUser`: the user under the filesystem's path and its keys. */
  function GetFilesystemUser(iam: Iam, org: string, group: string, fsid: string, user: string)
    : (o: Outcome<FileSystemUserResponse>)
    ensures StepByStep(iam, Run(o.calls, Err(o.result)))
    ensures 1 <= |o.calls| <= 3 && o.calls[0] == DescribeFileSystem(fsid)
    ensures |o.calls| >= 2 ==>
              var name := FsName(iam, fsid);
              o.calls[1] == GetUserWithPath(UserPath(org, group, name), IamUserName(name, user))
    ensures |o.calls| == 3 ==> o.calls[2] == ListAccessKeys(o.calls[1].userName)
    ensures o.result.Success? ==>
              |o.calls| == 3 &&
              iam.listAccessKeys(o.calls[1].userName).Success? &&
              o.result.value == FilesystemUserResponseFromIam(org,
                iam.getUserWithPath(o.calls[1].path, o.calls[1].userName).value,
                Some(iam.listAccessKeys(o.calls[1].userName).value))
  {
    var c0 := DescribeFileSystem(fsid);
    match iam.getFileSystem(fsid)
    case Failure(e) => Outcome(Failure(e), [c0])
    case Success(fs) =>
      var name := fs.name.GetOr("");
      var userName := IamUserName(name, user);
      var c1 := GetUserWithPath(UserPath(org, group, name), userName);
      match iam.getUserWithPath(c1.path, userName)
      case Failure(e) => Outcome(Failure(e), [c0, c1])
      case Success(u) =>
        var c2 := ListAccessKeys(userName);
        match iam.listAccessKeys(userName)
        case Failure(e) => Outcome(Failure(e), [c0, c1, c2])
        case Success(keys) => Outcome(Success(FilesystemUserResponseFromIam(org, u, Some(keys))), [c0, c1, c2])
  }

  /** Create, delete and get agree on the user's path and IAM name. */
  lemma NameSchemeAgrees(iam: Iam, org: string, group: string, fsid: string, user: string)
    requires iam.getFileSystem(fsid).Success?
    requires iam.createUser(IamUserName(FsName(iam, fsid), user), UserPath(org, group, FsName(iam, fsid)),
                            ToSdkTags(NewUserTags(org, group, iam.getFileSystem(fsid).value, IamUserName(FsName(iam, fsid), user)))).Success?
    ensures |CreateFilesystemUser(iam, org, group, fsid, user).calls| >= 2
    ensures |DeleteFilesystemUser(iam, org, group, fsid, user).calls| >= 2
    ensures |GetFilesystemUser(iam, org, group, fsid, user).calls| >= 2
    ensures var created := CreateFilesystemUser(iam, org, group, fsid, user).calls[1];
            var deleted := DeleteFilesystemUser(iam, org, group, fsid, user).calls[1];
            var got := GetFilesystemUser(iam, org, group, fsid, user).calls[1];
            created.userName == deleted.userName == got.userName &&
            created.path == deleted.path == got.path
  {
  }

  /** The result of `updateFilesystemUser`: a response and an error may come back together. */
  datatype UserUpdate = UserUpdate(response: Option<FileSystemUserResponse>, err: Option<Error>, calls: seq<Call>)

  /** The key rotation of `updateFilesystemUser`: list the old keys, create a new one, then
      delete the old ones in order. */
  function RotateKeys(iam: Iam, userName: string): (r: Run)
    ensures StepByStep(iam, r)
    ensures |r.calls| >= 1 && r.calls[0] == ListAccessKeys(userName)
    ensures |r.calls| >= 2 ==> r.calls[1] == CreateAccessKey(userName)
    ensures forall k :: 0 <= k < |r.calls| && r.calls[k].DeleteAccessKey? ==> k >= 2
    ensures r.err.None? ==>
              iam.listAccessKeys(userName).Success? && iam.createAccessKey(userName).Success? &&
              r.calls == [ListAccessKeys(userName), CreateAccessKey(userName)] +
                         KeyDeletions(userName, iam.listAccessKeys(userName).value)
  {
    var c0 := ListAccessKeys(userName);
    match iam.listAccessKeys(userName)
    case Failure(_) => Single(iam, c0)
    case Success(keys) =>
      var c1 := CreateAccessKey(userName);
      if iam.createAccessKey(userName).Failure? then Then(iam, Single(iam, c0), Single(iam, c1))
      else DeleteOldKeys(iam, userName, keys)
  }

  /** The new key exists: delete the old ones in order, after the listing and the create. */
  function DeleteOldKeys(iam: Iam, userName: string, keys: seq<AccessKeyMetadata>): (r: Run)
    requires iam.listAccessKeys(userName) == Success(keys) && iam.createAccessKey(userName).Success?
    ensures StepByStep(iam, r)
    ensures |r.calls| >= 2
    ensures r.calls[..2] == [ListAccessKeys(userName), CreateAccessKey(userName)]
    ensures forall k :: 0 <= k < |r.calls| && r.calls[k].DeleteAccessKey? ==> k >= 2
    ensures r.err.None? ==> r.calls == [ListAccessKeys(userName), CreateAccessKey(userName)] + KeyDeletions(userName, keys)
  {
    var cs := [ListAccessKeys(userName), CreateAccessKey(userName)];
    assert Answer(iam, cs[0]).None? && Answer(iam, cs[1]).None?;
    var rest := RunUntilFailure(iam, KeyDeletions(userName, keys));
    var r := Prepend(iam, cs, rest);
    assert r.calls == cs + rest.calls;
    assert r.calls[..2] == cs;
    r
  }

  /** `updateFilesystemUser`: after checking the user exists, and only when a key reset is
      asked for, rotate its keys. A failed delete returns the response built so far (the
      new key, no deleted ids) together with the error. */
  function UpdateFilesystemUser(iam: Iam, org: string, group: string, fsid: string, user: string, resetKey: bool)
    : (u: UserUpdate)
    ensures StepByStep(iam, Run(u.calls, u.err))
    ensures |u.calls| >= 1 && u.calls[0] == DescribeFileSystem(fsid)
    ensures u.err.None? ==> iam.getFileSystem(fsid).Success?
    ensures u.err.None? ==> u.response.Some? && u.response.value.userName == user
    ensures resetKey && u.err.None? ==>
              var n := IamUserName(FsName(iam, fsid), user);
              iam.listAccessKeys(n).Success? && iam.createAccessKey(n).Success? &&
              u.response.value.deletedAccessKeys == KeyIds(iam.listAccessKeys(n).value) &&
              u.response.value.accessKey == Some(iam.createAccessKey(n).value)
    ensures u.response.Some? && u.err.Some? ==>
              u.response.value.deletedAccessKeys == [] && u.response.value.accessKey.Some?
    ensures resetKey && iam.getFileSystem(fsid).Success? ==>
              var n := IamUserName(FsName(iam, fsid), user);
              CreateAccessKey(n) in u.calls && iam.createAccessKey(n).Success? ==>
              u.response.Some? && u.response.value.userName == user &&
              u.response.value.accessKey == Some(iam.createAccessKey(n).value)
    ensures u.response.None? ==> u.err.Some?
  {
    var c0 := DescribeFileSystem(fsid);
    match iam.getFileSystem(fsid)
    case Failure(e) => UserUpdate(None, Some(e), [c0])
    case Success(fs) =>
      var userName := IamUserName(fs.name.GetOr(""), user);
      var check := GetFilesystemUser(iam, org, group, fsid, user);
      var head := Then(iam, Single(iam, c0), Run(check.calls, Err(check.result)));
      var base := FileSystemUserResponse(user, [], None, [], [], []);
      if head.err.Some? then UserUpdate(None, head.err, head.calls)
      else if !resetKey then UserUpdate(Some(base), None, head.calls)
      else
        var rot := RotateKeys(iam, userName);
        var run := Then(iam, head, rot);
        var response :=
          if |rot.calls| < 2 || iam.createAccessKey(userName).Failure? then None
          else if rot.err.Some? then Some(base.(accessKey := Some(iam.createAccessKey(userName).value)))
          else Some(base.(accessKey := Some(iam.createAccessKey(userName).value),
                          deletedAccessKeys := KeyIds(iam.listAccessKeys(userName).value)));
        UserUpdate(response, run.err, run.calls)
  }

  /** Without a key reset no key is created or deleted. */
  lemma NoResetKeepsKeys(iam: Iam, org: string, group: string, fsid: string, user: string)
    ensures var u := UpdateFilesystemUser(iam, org, group, fsid, user, false);
            forall x :: x in u.calls ==> !x.CreateAccessKey? && !x.DeleteAccessKey?
  {
    var u := UpdateFilesystemUser(iam, org, group, fsid, user, false);
    if iam.getFileSystem(fsid).Success? {
      var check := GetFilesystemUser(iam, org, group, fsid, user);
      CheckMakesNoKeyCalls(iam, org, group, fsid, user);
      assert u.calls == [DescribeFileSystem(fsid)] + check.calls || u.calls == [DescribeFileSystem(fsid)];
    }
  }

  /** The existence check of an update makes no key calls. */
  lemma CheckMakesNoKeyCalls(iam: Iam, org: string, group: string, fsid: string, user: string)
    ensures forall x :: x in GetFilesystemUser(iam, org, group, fsid, user).calls ==>
              !x.CreateAccessKey? && !x.DeleteAccessKey?
  {
    var o := GetFilesystemUser(iam, org, group, fsid, user);
    forall x | x in o.calls
      ensures !x.CreateAccessKey? && !x.DeleteAccessKey?
    {
      var i :| 0 <= i < |o.calls| && o.calls[i] == x;
    }
  }

  /** With a key reset, the new key is created before any old key is deleted. */
  lemma NewKeyBeforeOldKeysGo(iam: Iam, org: string, group: string, fsid: string, user: string)
    ensures var u := UpdateFilesystemUser(iam, org, group, fsid, user, true);
            forall k :: 0 <= k < |u.calls| && u.calls[k].DeleteAccessKey? ==>
              CreateAccessKey(u.calls[k].userName) in u.calls[..k]
  {
    var u := UpdateFilesystemUser(iam, org, group, fsid, user, true);
    if iam.getFileSystem(fsid).Success? {
      var userName := IamUserName(FsName(iam, fsid), user);
      var check := GetFilesystemUser(iam, org, group, fsid, user);
      var head := Then(iam, Single(iam, DescribeFileSystem(fsid)), Run(check.calls, Err(check.result)));
      CheckMakesNoKeyCalls(iam, org, group, fsid, user);
      if head.err.None? {
        assert head.calls == [DescribeFileSystem(fsid)] + check.calls;
        assert forall x :: x in head.calls ==> !x.DeleteAccessKey?;
        var rot := RotateKeys(iam, userName);
        assert u.calls == head.calls + rot.calls;
        forall k | 0 <= k < |u.calls| && u.calls[k].DeleteAccessKey?
          ensures CreateAccessKey(u.calls[k].userName) in u.calls[..k]
        {
          KeyDeletedAfterCreate(iam, userName, head.calls, rot, k);
        }
      }
    }
  }

  lemma KeyDeletedAfterCreate(iam: Iam, userName: string, head: seq<Call>, rot: Run, k: nat)
    requires rot == RotateKeys(iam, userName)
    requires forall x :: x in head ==> !x.DeleteAccessKey?
    requires k < |head + rot.calls| && (head + rot.calls)[k].DeleteAccessKey?
    ensures CreateAccessKey((head + rot.calls)[k].userName) in (head + rot.calls)[..k]
  {
    var calls := head + rot.calls;
    assert k >= |head|;
    var j := k - |head|;
    assert rot.calls[j] == calls[k];
    assert iam.listAccessKeys(userName).Success?;
    DeletionsOf(iam, userName, j);
    assert rot.calls[j].userName == userName;
    assert calls[..k][|head| + 1] == CreateAccessKey(userName);
  }

  lemma DeletionsOf(iam: Iam, userName: string, j: nat)
    requires iam.listAccessKeys(userName).Success?
    requires 2 <= j < |RotateKeys(iam, userName).calls|
    ensures RotateKeys(iam, userName).calls[j] in KeyDeletions(userName, iam.listAccessKeys(userName).value)
  {
    var keys := iam.listAccessKeys(userName).value;
    var dels := RunUntilFailure(iam, KeyDeletions(userName, keys));
    assert RotateKeys(iam, userName).calls == [ListAccessKeys(userName), CreateAccessKey(userName)] + dels.calls;
    assert dels.calls[j - 2] == KeyDeletions(userName, keys)[j - 2];
  }

  /** `updateTagsForUser`: a policy or role failure ends it before any call; otherwise the
      filesystem's user is tagged with the normalised tags, its full IAM name as Name. */
  function UpdateTagsForUser(iam: Iam, policy: Option<Error>, assumed: Option<Error>, account: string,
                             org: string, group: string, fsid: string, user: string, tags: seq<Tag>)
    : (o: Outcome<()>)
    ensures policy.Some? ==> o == Outcome(Failure(ApiError(InternalError, "failed to generate policy", policy)), [])
    ensures policy.None? && assumed.Some? ==>
              o == Outcome(Failure(Plain(Forbidden, "failed to assume role in account: " + account)), [])
    ensures policy.None? && assumed.None? ==>
              StepByStep(iam, Run(o.calls, Err(o.result))) &&
              1 <= |o.calls| <= 2 && o.calls[0] == DescribeFileSystem(fsid) &&
              (|o.calls| == 2 ==>
                 var n := IamUserName(FsName(iam, fsid), user);
                 o.calls[1] == TagUser(n, ToSdkTags(NormalizeTags(org, n, group, tags))))
  {
    if policy.Some? then Outcome(Failure(ApiError(InternalError, "failed to generate policy", policy)), [])
    else if assumed.Some? then Outcome(Failure(Plain(Forbidden, "failed to assume role in account: " + account)), [])
    else
      var c0 := DescribeFileSystem(fsid);
      match iam.getFileSystem(fsid)
      case Failure(e) => Outcome(Failure(e), [c0])
      case Success(fs) =>
        var userName := IamUserName(fs.name.GetOr(""), user);
        var c1 := TagUser(userName, ToSdkTags(NormalizeTags(org, userName, group, tags)));
        match iam.tagUser(c1.userName, c1.tags)
        case Some(e) => Outcome(Failure(e), [c0, c1])
        case None => Outcome(Success(()), [c0, c1])
  }
}
