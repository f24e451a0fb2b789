/** The access-point workflows (`api/orchestration_accesspoints.go`): creating one, with
    its wait for the access point to become available, listing, getting and deleting. The
    EFS client of each configured account is a set of oracle parameters answering with the
    client's own (already classified) results. */
module AccessPoints {
  import opened Wrappers
  import opened ApiErrors
  import opened Tags
  import opened EfsClient
  import opened ApiTypes
  import opened Retry

  /** The request body of an access-point create. */
  datatype AccessPointCreateRequest = AccessPointCreateRequest(
    name: string, posixUser: Option<PosixUser>, rootDirectory: Option<RootDirectory>)

  /** The message an account without a configured EFS client gets. */
  const NoAccount := "account doesnt exist"

  /** The name a create uses: the requested one, or a generated uuid when it is empty. */
  function EffectiveName(req: AccessPointCreateRequest, uuid: string): (name: string)
    ensures req.name != "" ==> name == req.name
    ensures req.name == "" ==> name == uuid
  {
    if req.name == "" then uuid else req.name
  }

  /** The access point's tags: the filesystem's tags with each `Name` tag's value replaced
      by `<fsname>-<apname>`, every other tag copied as it is, in order. */
  function AccessPointTags(fsTags: seq<SdkTag>, fsName: string, apName: string): (tags: seq<SdkTag>)
    ensures |tags| == |fsTags|
    ensures forall i :: 0 <= i < |fsTags| ==>
              if fsTags[i].key.GetOr("") == NameKey then tags[i] == SdkTag(Some(NameKey), Some(fsName + "-" + apName))
              else tags[i] == fsTags[i]
    decreases |fsTags|
  {
    if |fsTags| == 0 then []
    else
      var t := if fsTags[0].key.GetOr("") == NameKey then SdkTag(Some(NameKey), Some(fsName + "-" + apName)) else fsTags[0];
      [t] + AccessPointTags(fsTags[1..], fsName, apName)
  }

  /** The input a create sends: the task id as client token, the filesystem id, the
      request's POSIX user and root directory, and the derived tags. */
  function CreateInput(fs: FileSystemDescription, fsid: string, req: AccessPointCreateRequest, uuid: string, taskId: string)
    : CreateAccessPointInput
  {
    CreateAccessPointInput(Some(taskId), Some(fsid), req.posixUser, req.rootDirectory,
                           AccessPointTags(fs.tags, fs.name.GetOr(""), EffectiveName(req, uuid)))
  }

  /** The synchronous part of a create: its result, the input it sent if it got that far,
      and the id of the task that waits for the access point, when one is started. */
  datatype Created = Created(result: Result<AccessPoint, Error>, sent: Option<CreateAccessPointInput>, task: Option<string>)

  /** `accessPointCreate`: an account without a client is NotFound and a failed filesystem
      lookup is returned as is, both before anything is created; otherwise the create's
      error, or the access point it describes. */
  function AccessPointCreate(accounts: set<string>, account: string, fsid: string, req: AccessPointCreateRequest,
                             uuid: string, taskId: string,
                             getFileSystem: string -> Result<FileSystemDescription, Error>,
                             create: CreateAccessPointInput -> Result<AccessPointDescription, Error>)
    : (c: Created)
    ensures account !in accounts ==> c == Created(Failure(Plain(NotFound, NoAccount)), None, None)
    ensures account in accounts && getFileSystem(fsid).Failure? ==>
              c == Created(Failure(getFileSystem(fsid).error), None, None)
    ensures account in accounts && getFileSystem(fsid).Success? ==>
              c.sent.Some? &&
              c.sent.value.clientToken == Some(taskId) && c.sent.value.fileSystemId == Some(fsid) &&
              c.sent.value.posixUser == req.posixUser && c.sent.value.rootDirectory == req.rootDirectory &&
              c.sent.value.tags == AccessPointTags(getFileSystem(fsid).value.tags,
                                                   getFileSystem(fsid).value.name.GetOr(""), EffectiveName(req, uuid))
    ensures c.sent.Some? && create(c.sent.value).Failure? ==> c.result == Failure(create(c.sent.value).error)
    ensures c.sent.Some? && create(c.sent.value).Success? ==>
              c.result == Success(AccessPointResponseFromEfs(create(c.sent.value).value))
    ensures c.task.Some? <==> c.result.Success?
    ensures c.task.Some? ==> c.task.value == taskId
  {
    if account !in accounts then Created(Failure(Plain(NotFound, NoAccount)), None, None)
    else
      match getFileSystem(fsid)
      case Failure(e) => Created(Failure(e), None, None)
      case Success(fs) =>
        var input := CreateInput(fs, fsid, req, uuid, taskId);
        match create(input)
        case Failure(e) => Created(Failure(e), Some(input), None)
        case Success(out) => Created(Success(AccessPointResponseFromEfs(out)), Some(input), Some(taskId))
  }

  /** Whether a described access point is available. */
  predicate IsAvailable(ap: AccessPointDescription) {
    ap.lifeCycleState.GetOr("") == "available"
  }

  /** One poll of the wait: a lookup error, a not-yet-available access point, or success. */
  function PollAccessPoint(apid: string, answer: Result<AccessPointDescription, Error>): (a: Attempt<Error>)
    ensures a.Succeeded? <==> answer.Success? && IsAvailable(answer.value)
    ensures !a.Stopped?
  {
    match answer
    case Failure(e) => Failed(e)
    case Success(ap) =>
      if !IsAvailable(ap) then Failed(Errorf("accesspoint " + apid + " not yet available")) else Succeeded
  }

  /** Lookup `n - 1` found the access point available. */
  predicate AvailableOnPoll(poll: nat -> Result<AccessPointDescription, Error>, n: nat) {
    n > 0 && poll(n - 1).Success? && IsAvailable(poll(n - 1).value)
  }

  /** No lookup before lookup `n - 1` found the access point available. */
  predicate UnavailableBefore(poll: nat -> Result<AccessPointDescription, Error>, n: nat) {
    forall k :: 0 <= k < n - 1 ==> !(poll(k).Success? && IsAvailable(poll(k).value))
  }

  /** The background wait of a create: up to ten lookups of the new access point, two
      seconds apart at first, until it is available. `poll(k)` is the k-th lookup's answer.
      The task fails exactly when the wait returns an error. */
  function AwaitAccessPoint(apid: string, poll: nat -> Result<AccessPointDescription, Error>,
                            jitter: (nat, int) -> int): (r: RetryRun<Error>)
    requires JitterInRange(jitter)
    ensures r.result.None? <==> AvailableOnPoll(poll, r.calls)
    ensures UnavailableBefore(poll, r.calls)
    ensures 1 <= r.calls <= 10
  {
    var f := (k: nat) => PollAccessPoint(apid, poll(k));
    var r := Retry.Retry(10, TwoSeconds, f, jitter, 0);
    assert f(r.calls - 1) == PollAccessPoint(apid, poll(r.calls - 1));
    assert UnavailableBefore(poll, r.calls) by {
      forall k | 0 <= k < r.calls - 1
        ensures !(poll(k).Success? && IsAvailable(poll(k).value))
      {
        assert f(k).Failed?;
        assert f(k) == PollAccessPoint(apid, poll(k));
      }
    }
    r
  }

  /** An access point that turns available within ten polls makes the task succeed, at
      the first poll that sees it available. */
  lemma AvailableWithinTenPolls(apid: string, poll: nat -> Result<AccessPointDescription, Error>,
                                jitter: (nat, int) -> int, k: nat)
    requires JitterInRange(jitter)
    requires k < 10 && poll(k).Success? && IsAvailable(poll(k).value)
    requires forall j :: 0 <= j < k ==> !(poll(j).Success? && IsAvailable(poll(j).value))
    ensures AwaitAccessPoint(apid, poll, jitter).result.None?
    ensures AwaitAccessPoint(apid, poll, jitter).calls == k + 1
  {
    var f := (i: nat) => PollAccessPoint(apid, poll(i));
    RetryIsFailingPrefix(10, TwoSeconds, f, jitter, 0);
    PrefixUpTo(f, k, 10);
  }

  /** The failing prefix stops at the first call that does not fail. */
  lemma {:induction false} PrefixUpTo(f: nat -> Attempt<Error>, k: nat, n: nat)
    requires k < n && !f(k).Failed?
    requires forall j :: 0 <= j < k ==> f(j).Failed?
    ensures FailingPrefix(f, 0, n) == k
  {
    PrefixFrom(f, 0, k, n);
  }

  lemma {:induction false} PrefixFrom(f: nat -> Attempt<Error>, from: nat, k: nat, n: nat)
    requires from <= k < from + n && !f(k).Failed?
    requires forall j :: from <= j < k ==> f(j).Failed?
    ensures FailingPrefix(f, from, n) == k - from
    decreases n
  {
    if from < k {
      PrefixFrom(f, from + 1, k, n - 1);
    }
  }

  /** An access point never available in ten polls fails the task with the last poll's error. */
  lemma NeverAvailable(apid: string, poll: nat -> Result<AccessPointDescription, Error>, jitter: (nat, int) -> int)
    requires JitterInRange(jitter)
    requires forall j :: 0 <= j < 10 ==> !(poll(j).Success? && IsAvailable(poll(j).value))
    ensures AwaitAccessPoint(apid, poll, jitter).calls == 10
    ensures AwaitAccessPoint(apid, poll, jitter).result == Some(PollAccessPoint(apid, poll(9)).err)
  {
    var f := (i: nat) => PollAccessPoint(apid, poll(i));
    AlwaysFailing(10, TwoSeconds, f, jitter);
  }

  /** `listFilesystemAccessPoints`: the ids of the filesystem's access points, in order. */
  function ListFilesystemAccessPoints(accounts: set<string>, account: string, fsid: string,
                                      list: string -> Result<seq<AccessPointDescription>, Error>)
    : (r: Result<seq<string>, Error>)
    ensures account !in accounts ==> r == Failure(Plain(NotFound, NoAccount))
    ensures account in accounts && list(fsid).Failure? ==> r == Failure(list(fsid).error)
    ensures account in accounts && list(fsid).Success? ==>
              r.Success? && |r.value| == |list(fsid).value| &&
              forall i :: 0 <= i < |r.value| ==> r.value[i] == list(fsid).value[i].accessPointId.GetOr("")
  {
    if account !in accounts then Failure(Plain(NotFound, NoAccount))
    else
      match list(fsid)
      case Failure(e) => Failure(e)
      case Success(aps) => Success(AccessPointIds(aps))
  }

  function AccessPointIds(aps: seq<AccessPointDescription>): (ids: seq<string>)
    ensures |ids| == |aps|
    ensures forall i :: 0 <= i < |aps| ==> ids[i] == aps[i].accessPointId.GetOr("")
    decreases |aps|
  {
    if |aps| == 0 then [] else [aps[0].accessPointId.GetOr("")] + AccessPointIds(aps[1..])
  }

  /** `getFilesystemAccessPoint`: the access point's response shape. */
  function GetFilesystemAccessPoint(accounts: set<string>, account: string, apid: string,
                                    get: string -> Result<AccessPointDescription, Error>)
    : (r: Result<AccessPoint, Error>)
    ensures account !in accounts ==> r == Failure(Plain(NotFound, NoAccount))
    ensures account in accounts && get(apid).Failure? ==> r == Failure(get(apid).error)
    ensures account in accounts && get(apid).Success? ==> r == Success(AccessPointResponseFromEfs(get(apid).value))
  {
    if account !in accounts then Failure(Plain(NotFound, NoAccount))
    else
      match get(apid)
      case Failure(e) => Failure(e)
      case Success(ap) => Success(AccessPointResponseFromEfs(ap))
  }

  /** `deleteFilesystemAccessPoint`: the client's error, if any. */
  function DeleteFilesystemAccessPoint(accounts: set<string>, account: string, apid: string,
                                       delete: string -> Option<Error>)
    : (r: Option<Error>)
    ensures account !in accounts ==> r == Some(Plain(NotFound, NoAccount))
    ensures account in accounts ==> r == delete(apid)
  {
    if account !in accounts then Some(Plain(NotFound, NoAccount)) else delete(apid)
  }

  /** A create answers with the same shape a later get of the described access point gives.
      The create builds its answer inline from the same six fields that
      `accessPointResponseFromEFS` reads, so the model builds both answers with
      `AccessPointResponseFromEfs`; this lemma holds by that choice and records it. */
  lemma CreateAnswersAsGet(accounts: set<string>, account: string, fsid: string, req: AccessPointCreateRequest,
                           uuid: string, taskId: string,
                           getFileSystem: string -> Result<FileSystemDescription, Error>,
                           create: CreateAccessPointInput -> Result<AccessPointDescription, Error>,
                           get: string -> Result<AccessPointDescription, Error>)
    requires var c := AccessPointCreate(accounts, account, fsid, req, uuid, taskId, getFileSystem, create);
             c.result.Success? && get(c.result.value.accessPointId) == create(c.sent.value)
    ensures var c := AccessPointCreate(accounts, account, fsid, req, uuid, taskId, getFileSystem, create);
            GetFilesystemAccessPoint(accounts, account, c.result.value.accessPointId, get) == c.result
  {
  }

  /** The access point carries the filesystem's tags, except that a Name tag names the
      access point after both: a tag keyed Name holds `<fsname>-<name>`, and every tag of
      the filesystem with another key is kept; without a Name tag the tags are the
      filesystem's own. */
  lemma AccessPointNamedAfterFileSystem(fsTags: seq<SdkTag>, fsName: string, apName: string)
    ensures forall t :: t in AccessPointTags(fsTags, fsName, apName) && t.key.GetOr("") == NameKey ==>
              t.value == Some(fsName + "-" + apName)
    ensures forall t :: t in fsTags && t.key.GetOr("") != NameKey ==> t in AccessPointTags(fsTags, fsName, apName)
    ensures (forall t :: t in fsTags ==> t.key.GetOr("") != NameKey) ==> AccessPointTags(fsTags, fsName, apName) == fsTags
  {
    var tags := AccessPointTags(fsTags, fsName, apName);
    forall t | t in tags && t.key.GetOr("") == NameKey
      ensures t.value == Some(fsName + "-" + apName)
    {
      var i :| 0 <= i < |tags| && tags[i] == t;
    }
    forall t | t in fsTags && t.key.GetOr("") != NameKey
      ensures t in tags
    {
      var i :| 0 <= i < |fsTags| && fsTags[i] == t;
      assert tags[i] == t;
    }
    if forall t :: t in fsTags ==> t.key.GetOr("") != NameKey {
      forall i | 0 <= i < |fsTags| ensures tags[i] == fsTags[i] {
        assert fsTags[i] in fsTags;
      }
    }
  }
}
