/** The wrapper around the EFS SDK (package `efs`): the descriptions the service returns,
    the inputs sent to it, and the client operations that validate their arguments, call
    the service, and map its errors through `ErrCode`.

    Each service call is an oracle parameter: a function from the input the client sends to
    the service's answer. A listing that follows pagination markers takes instead the
    sequence of pages the service returns, in order. */
module EfsClient {
  import opened Wrappers
  import opened ApiErrors
  import opened Tags
  import Strs
  import EfsErrors

  datatype SizeInBytes = SizeInBytes(
    timestamp: Option<int>, value: Option<int>, valueInIA: Option<int>, valueInStandard: Option<int>)

  datatype FileSystemDescription = FileSystemDescription(
    fileSystemId: Option<string>,
    fileSystemArn: Option<string>,
    name: Option<string>,
    lifeCycleState: Option<string>,
    availabilityZoneName: Option<string>,
    kmsKeyId: Option<string>,
    creationTime: Option<int>,
    numberOfMountTargets: Option<int>,
    sizeInBytes: Option<SizeInBytes>,
    tags: seq<SdkTag>)

  datatype MountTargetDescription = MountTargetDescription(
    mountTargetId: Option<string>,
    subnetId: Option<string>,
    lifeCycleState: Option<string>,
    availabilityZoneId: Option<string>,
    availabilityZoneName: Option<string>,
    ipAddress: Option<string>)

  datatype PosixUser = PosixUser(uid: Option<int>, gid: Option<int>, secondaryGids: seq<int>)
  datatype CreationInfo = CreationInfo(ownerUid: Option<int>, ownerGid: Option<int>, permissions: Option<string>)
  datatype RootDirectory = RootDirectory(path: Option<string>, creationInfo: Option<CreationInfo>)

  datatype AccessPointDescription = AccessPointDescription(
    accessPointId: Option<string>,
    accessPointArn: Option<string>,
    fileSystemId: Option<string>,
    lifeCycleState: Option<string>,
    name: Option<string>,
    posixUser: Option<PosixUser>,
    rootDirectory: Option<RootDirectory>,
    tags: seq<SdkTag>)

  datatype CreateFileSystemInput = CreateFileSystemInput(
    creationToken: Option<string>,
    encrypted: Option<bool>,
    kmsKeyId: Option<string>,
    performanceMode: Option<string>,
    availabilityZoneName: Option<string>,
    tags: seq<SdkTag>)

  datatype DescribeFileSystemsInput = DescribeFileSystemsInput(
    fileSystemId: Option<string>, marker: Option<string>, maxItems: Option<int>)

  datatype FileSystemPage = FileSystemPage(fileSystems: seq<FileSystemDescription>, nextMarker: Option<string>)

  datatype CreateAccessPointInput = CreateAccessPointInput(
    clientToken: Option<string>,
    fileSystemId: Option<string>,
    posixUser: Option<PosixUser>,
    rootDirectory: Option<RootDirectory>,
    tags: seq<SdkTag>)

  datatype DescribeAccessPointsInput = DescribeAccessPointsInput(
    fileSystemId: Option<string>, accessPointId: Option<string>, nextToken: Option<string>)

  datatype AccessPointPage = AccessPointPage(accessPoints: seq<AccessPointDescription>, nextToken: Option<string>)

  datatype CreateMountTargetInput = CreateMountTargetInput(
    fileSystemId: Option<string>, securityGroups: seq<string>, subnetId: Option<string>)

  datatype DescribeMountTargetsInput = DescribeMountTargetsInput(fileSystemId: Option<string>, maxItems: Option<int>)

  /** The error every operation returns for a missing or empty argument. */
  function InvalidInput(): Error {
    Plain(BadRequest, "invalid input")
  }

  /** The page size the listings ask for. */
  const MaxItems := 100

  /** The outcome of a service call, with a failure mapped through `ErrCode(msg, …)`. */
  function Lift<T>(msg: string, res: Result<T, ProviderError>): (r: Result<T, Error>)
    ensures res.Success? <==> r.Success?
    ensures res.Success? ==> r.value == res.value
    ensures res.Failure? ==> r.error == EfsErrors.ErrCode(msg, Provider(res.error))
  {
    match res
    case Success(v) => Success(v)
    case Failure(e) => Failure(EfsErrors.ErrCode(msg, Provider(e)))
  }

  /** The error of a call that returns only an error, mapped through `ErrCode(msg, …)`. */
  function LiftErr(msg: string, res: Option<ProviderError>): (r: Option<Error>)
    ensures res.None? <==> r.None?
    ensures res.Some? ==> r.value == EfsErrors.ErrCode(msg, Provider(res.value))
  {
    match res
    case None => None
    case Some(e) => Some(EfsErrors.ErrCode(msg, Provider(e)))
  }

  // ---- filesystems -------------------------------------------------------------------

  /** `CreateFileSystem`: a nil input is refused before the service is called; otherwise
      the service's description, or its error classified. */
  function CreateFileSystem(input: Option<CreateFileSystemInput>,
                            create: CreateFileSystemInput -> Result<FileSystemDescription, ProviderError>)
    : (r: Result<FileSystemDescription, Error>)
    ensures input.None? ==> r == Failure(InvalidInput())
    ensures input.Some? ==> r == Lift("failed to create filesystem", create(input.value))
  {
    if input.None? then Failure(InvalidInput())
    else Lift("failed to create filesystem", create(input.value))
  }

  /** `DeleteFileSystem`: an empty id is refused; otherwise the id is sent to the service. */
  function DeleteFileSystem(id: string, delete: string -> Option<ProviderError>): (r: Option<Error>)
    ensures id == "" ==> r == Some(InvalidInput())
    ensures id != "" ==> r == LiftErr("failed to delete filesystem", delete(id))
  {
    if id == "" then Some(InvalidInput())
    else LiftErr("failed to delete filesystem", delete(id))
  }

  /** The query `GetFileSystem` sends for one id. */
  function FileSystemQuery(id: string): DescribeFileSystemsInput {
    DescribeFileSystemsInput(Some(id), None, None)
  }

  /** `GetFileSystem`: succeeds exactly when the id is non-empty, the service answers, and
      it finds exactly one filesystem; none is NotFound, several is an internal error. */
  function GetFileSystem(id: string, describe: DescribeFileSystemsInput -> Result<FileSystemPage, ProviderError>)
    : (r: Result<FileSystemDescription, Error>)
    ensures r.Success? <==>
              id != "" && describe(FileSystemQuery(id)).Success? &&
              |describe(FileSystemQuery(id)).value.fileSystems| == 1
    ensures r.Success? ==> r.value == describe(FileSystemQuery(id)).value.fileSystems[0]
    ensures id == "" ==> r == Failure(InvalidInput())
    ensures id != "" && describe(FileSystemQuery(id)).Failure? ==>
              r == Failure(EfsErrors.ErrCode("failed to get filesystem", Provider(describe(FileSystemQuery(id)).error)))
    ensures id != "" && describe(FileSystemQuery(id)).Success? && |describe(FileSystemQuery(id)).value.fileSystems| == 0 ==>
              r == Failure(Plain(NotFound, id + " not found"))
    ensures id != "" && describe(FileSystemQuery(id)).Success? && |describe(FileSystemQuery(id)).value.fileSystems| > 1 ==>
              r.Failure? && r.error.ApiError? && r.error.kind == InternalError
  {
    if id == "" then Failure(InvalidInput())
    else
      match describe(FileSystemQuery(id))
      case Failure(e) => Failure(EfsErrors.ErrCode("failed to get filesystem", Provider(e)))
      case Success(page) =>
        var num := |page.fileSystems|;
        if num == 0 then Failure(Plain(NotFound, id + " not found"))
        else if num > 1 then
          Failure(Plain(InternalError, "unexpected number of filesystems found for id " + id +
                                       " (" + Strs.NatToString(num) + ")"))
        else Success(page.fileSystems[0])
  }

  /** A filesystem listing the service brings to an end: every page but the last succeeds
      and carries a marker for the next one; the last fails or carries none. */
  ghost predicate FileSystemListingEnds(pages: seq<Result<FileSystemPage, ProviderError>>) {
    && |pages| > 0
    && (forall i :: 0 <= i < |pages| - 1 ==> pages[i].Success? && pages[i].value.nextMarker.Some?)
    && (pages[|pages| - 1].Failure? || pages[|pages| - 1].value.nextMarker.None?)
  }

  /** The ids on one page of filesystems (`aws.StringValue` of each). */
  function PageIds(fss: seq<FileSystemDescription>): (ids: seq<string>)
    ensures |ids| == |fss|
    ensures forall j :: 0 <= j < |fss| ==> ids[j] == fss[j].fileSystemId.GetOr("")
  {
    if |fss| == 0 then [] else [fss[0].fileSystemId.GetOr("")] + PageIds(fss[1..])
  }

  /** The ids on the successful pages among `pages`, in order. */
  function ListedIds(pages: seq<Result<FileSystemPage, ProviderError>>): seq<string>
  {
    if |pages| == 0 then []
    else ListedIds(pages[..|pages| - 1]) +
         (if pages[|pages| - 1].Success? then PageIds(pages[|pages| - 1].value.fileSystems) else [])
  }

  /** The i-th request of a filesystem listing: the caller's query with a page size of
      100 and, after the first page, the marker the previous page returned. */
  function FileSystemListRequest(input: DescribeFileSystemsInput, pages: seq<Result<FileSystemPage, ProviderError>>, i: nat)
    : DescribeFileSystemsInput
    requires i <= |pages|
    requires i == 0 || pages[i - 1].Success?
  {
    input.(maxItems := Some(MaxItems), marker := if i == 0 then input.marker else pages[i - 1].value.nextMarker)
  }

  /** The loop of `ListFileSystems`: sends the i-th request, stops at the first failing
      page or the first page without a marker, and gathers the ids of all pages read. */
  method CollectFileSystemIds(input: DescribeFileSystemsInput, pages: seq<Result<FileSystemPage, ProviderError>>)
    returns (raw: Result<seq<string>, ProviderError>, sent: seq<DescribeFileSystemsInput>)
    requires FileSystemListingEnds(pages)
    ensures |sent| == |pages|
    ensures forall i :: 0 <= i < |sent| ==> sent[i] == FileSystemListRequest(input, pages, i)
    ensures pages[|pages| - 1].Failure? ==> raw == Failure(pages[|pages| - 1].error)
    ensures pages[|pages| - 1].Success? ==> raw == Success(ListedIds(pages))
  {
    var req := FileSystemListRequest(input, pages, 0);
    var output: seq<string> := [];
    sent := [];
    var i := 0;
    while true
      invariant 0 <= i < |pages|
      invariant |sent| == i
      invariant forall k :: 0 <= k < i ==> pages[k].Success? && pages[k].value.nextMarker.Some?
      invariant req == FileSystemListRequest(input, pages, i)
      invariant forall k :: 0 <= k < i ==> sent[k] == FileSystemListRequest(input, pages, k)
      invariant output == ListedIds(pages[..i])
      decreases |pages| - i
    {
      sent := sent + [req];
      assert pages[..i + 1][..i] == pages[..i];
      match pages[i]
      case Failure(e) =>
        assert i == |pages| - 1;
        return Failure(e), sent;
      case Success(out) =>
        output := output + PageIds(out.fileSystems);
        if out.nextMarker.None? {
          assert i == |pages| - 1;
          assert pages[..i + 1] == pages;
          return Success(output), sent;
        }
        i := i + 1;
        req := FileSystemListRequest(input, pages, i);
    }
  }

  /** `ListFileSystems`: a nil input is refused; otherwise follows the markers until the
      service stops sending one, asking for pages of 100, and returns every filesystem id in
      the order received. A failing page fails the whole listing. `pages[i]` is the
      service's answer to the i-th request and `sent` are the requests made. */
  method ListFileSystems(input: Option<DescribeFileSystemsInput>, pages: seq<Result<FileSystemPage, ProviderError>>)
    returns (r: Result<seq<string>, Error>, sent: seq<DescribeFileSystemsInput>)
    requires FileSystemListingEnds(pages)
    ensures input.None? ==> r == Failure(InvalidInput()) && sent == []
    ensures input.Some? ==> |sent| == |pages|
    ensures input.Some? ==> forall i :: 0 <= i < |sent| ==> sent[i] == FileSystemListRequest(input.value, pages, i)
    ensures input.Some? && pages[|pages| - 1].Failure? ==>
              r == Failure(EfsErrors.ErrCode("failed to list filesystems", Provider(pages[|pages| - 1].error)))
    ensures input.Some? && pages[|pages| - 1].Success? ==> r == Success(ListedIds(pages))
  {
    if input.None? {
      return Failure(InvalidInput()), [];
    }
    var raw;
    raw, sent := CollectFileSystemIds(input.value, pages);
    r := Lift("failed to list filesystems", raw);
  }

  /** Every filesystem on every successful page is in the listing. */
  lemma {:induction false} ListedIdsHasEveryPage(pages: seq<Result<FileSystemPage, ProviderError>>, i: nat, j: nat)
    requires i < |pages| && pages[i].Success? && j < |pages[i].value.fileSystems|
    ensures pages[i].value.fileSystems[j].fileSystemId.GetOr("") in ListedIds(pages)
    decreases |pages|
  {
    var last := |pages| - 1;
    if i < last {
      assert pages[..last][i] == pages[i];
      ListedIdsHasEveryPage(pages[..last], i, j);
    } else {
      assert PageIds(pages[i].value.fileSystems)[j] == pages[i].value.fileSystems[j].fileSystemId.GetOr("");
    }
  }

  /** The listing has one entry per filesystem on the successful pages. */
  function CountListed(pages: seq<Result<FileSystemPage, ProviderError>>): nat
  {
    if |pages| == 0 then 0
    else CountListed(pages[..|pages| - 1]) +
         (if pages[|pages| - 1].Success? then |pages[|pages| - 1].value.fileSystems| else 0)
  }

  lemma {:induction false} ListedIdsLength(pages: seq<Result<FileSystemPage, ProviderError>>)
    ensures |ListedIds(pages)| == CountListed(pages)
    decreases |pages|
  {
    if |pages| > 0 {
      ListedIdsLength(pages[..|pages| - 1]);
    }
  }

  // ---- access points -----------------------------------------------------------------

  /** `CreateAccessPoint`: a nil input or one without a filesystem id is refused before the
      service is called. */
  function CreateAccessPoint(input: Option<CreateAccessPointInput>,
                             create: CreateAccessPointInput -> Result<AccessPointDescription, ProviderError>)
    : (r: Result<AccessPointDescription, Error>)
    ensures input.None? || input.value.fileSystemId.None? ==> r == Failure(InvalidInput())
    ensures input.Some? && input.value.fileSystemId.Some? ==>
              r == Lift("failed to create access point", create(input.value))
  {
    if input.None? || input.value.fileSystemId.None? then Failure(InvalidInput())
    else Lift("failed to create access point", create(input.value))
  }

  /** An access-point listing the service brings to an end, as for filesystems. */
  ghost predicate AccessPointListingEnds(pages: seq<Result<AccessPointPage, ProviderError>>) {
    && |pages| > 0
    && (forall i :: 0 <= i < |pages| - 1 ==> pages[i].Success? && pages[i].value.nextToken.Some?)
    && (pages[|pages| - 1].Failure? || pages[|pages| - 1].value.nextToken.None?)
  }

  /** The access points on the successful pages among `pages`, in order. */
  function ListedAccessPoints(pages: seq<Result<AccessPointPage, ProviderError>>): seq<AccessPointDescription>
  {
    if |pages| == 0 then []
    else ListedAccessPoints(pages[..|pages| - 1]) +
         (if pages[|pages| - 1].Success? then pages[|pages| - 1].value.accessPoints else [])
  }

  /** The i-th request of an access-point listing: the filesystem id and, after the first
      page, the token the previous page returned. */
  function AccessPointListRequest(fsid: string, pages: seq<Result<AccessPointPage, ProviderError>>, i: nat)
    : DescribeAccessPointsInput
    requires i <= |pages|
    requires i == 0 || pages[i - 1].Success?
  {
    DescribeAccessPointsInput(Some(fsid), None, if i == 0 then None else pages[i - 1].value.nextToken)
  }

  /** The loop of `ListAccessPoints`: sends the i-th request, stops at the first failing
      page or the first page without a token, and gathers the access points of all pages. */
  method CollectAccessPoints(fsid: string, pages: seq<Result<AccessPointPage, ProviderError>>)
    returns (raw: Result<seq<AccessPointDescription>, ProviderError>, sent: seq<DescribeAccessPointsInput>)
    requires AccessPointListingEnds(pages)
    ensures |sent| == |pages|
    ensures forall i :: 0 <= i < |sent| ==> sent[i] == AccessPointListRequest(fsid, pages, i)
    ensures pages[|pages| - 1].Failure? ==> raw == Failure(pages[|pages| - 1].error)
    ensures pages[|pages| - 1].Success? ==> raw == Success(ListedAccessPoints(pages))
  {
    var req := AccessPointListRequest(fsid, pages, 0);
    var output: seq<AccessPointDescription> := [];
    sent := [];
    var i := 0;
    while true
      invariant 0 <= i < |pages|
      invariant |sent| == i
      invariant forall k :: 0 <= k < i ==> pages[k].Success? && pages[k].value.nextToken.Some?
      invariant req == AccessPointListRequest(fsid, pages, i)
      invariant forall k :: 0 <= k < i ==> sent[k] == AccessPointListRequest(fsid, pages, k)
      invariant output == ListedAccessPoints(pages[..i])
      decreases |pages| - i
    {
      sent := sent + [req];
      assert pages[..i + 1][..i] == pages[..i];
      match pages[i]
      case Failure(e) =>
        assert i == |pages| - 1;
        return Failure(e), sent;
      case Success(out) =>
        output := output + out.accessPoints;
        if out.nextToken.None? {
          assert i == |pages| - 1;
          assert pages[..i + 1] == pages;
          return Success(output), sent;
        }
        i := i + 1;
        req := AccessPointListRequest(fsid, pages, i);
    }
  }

  /** `ListAccessPoints`: an empty filesystem id is refused; otherwise the access points of
      that filesystem, following the tokens until the service stops sending one. */
  method ListAccessPoints(fsid: string, pages: seq<Result<AccessPointPage, ProviderError>>)
    returns (r: Result<seq<AccessPointDescription>, Error>, sent: seq<DescribeAccessPointsInput>)
    requires AccessPointListingEnds(pages)
    ensures fsid == "" ==> r == Failure(InvalidInput()) && sent == []
    ensures fsid != "" ==> |sent| == |pages|
    ensures fsid != "" ==> forall i :: 0 <= i < |sent| ==> sent[i] == AccessPointListRequest(fsid, pages, i)
    ensures fsid != "" && pages[|pages| - 1].Failure? ==>
              r == Failure(EfsErrors.ErrCode("failed to get access points", Provider(pages[|pages| - 1].error)))
    ensures fsid != "" && pages[|pages| - 1].Success? ==> r == Success(ListedAccessPoints(pages))
  {
    if fsid == "" {
      return Failure(InvalidInput()), [];
    }
    var raw;
    raw, sent := CollectAccessPoints(fsid, pages);
    r := Lift("failed to get access points", raw);
  }

  /** The query `GetAccessPoint` sends for one id. */
  function AccessPointQuery(apid: string): DescribeAccessPointsInput {
    DescribeAccessPointsInput(None, Some(apid), None)
  }

  /** `GetAccessPoint`: succeeds exactly when the id is non-empty, the service answers, and
      it finds exactly one access point; any other count is a bad request. */
  function GetAccessPoint(apid: string, describe: DescribeAccessPointsInput -> Result<AccessPointPage, ProviderError>)
    : (r: Result<AccessPointDescription, Error>)
    ensures r.Success? <==>
              apid != "" && describe(AccessPointQuery(apid)).Success? &&
              |describe(AccessPointQuery(apid)).value.accessPoints| == 1
    ensures r.Success? ==> r.value == describe(AccessPointQuery(apid)).value.accessPoints[0]
    ensures apid == "" ==> r == Failure(InvalidInput())
    ensures apid != "" && describe(AccessPointQuery(apid)).Failure? ==>
              r == Failure(EfsErrors.ErrCode("failed to get access point", Provider(describe(AccessPointQuery(apid)).error)))
    ensures apid != "" && describe(AccessPointQuery(apid)).Success? &&
            |describe(AccessPointQuery(apid)).value.accessPoints| != 1 ==>
              r == Failure(Plain(BadRequest, "unexpected number of access points"))
  {
    if apid == "" then Failure(InvalidInput())
    else
      match describe(AccessPointQuery(apid))
      case Failure(e) => Failure(EfsErrors.ErrCode("failed to get access point", Provider(e)))
      case Success(out) =>
        if |out.accessPoints| != 1 then Failure(Plain(BadRequest, "unexpected number of access points"))
        else Success(out.accessPoints[0])
  }

  /** `DeleteAccessPoint`: an empty id is refused; otherwise the id is sent to the service. */
  function DeleteAccessPoint(apid: string, delete: string -> Option<ProviderError>): (r: Option<Error>)
    ensures apid == "" ==> r == Some(InvalidInput())
    ensures apid != "" ==> r == LiftErr("failed to delete access point", delete(apid))
  {
    if apid == "" then Some(InvalidInput())
    else LiftErr("failed to delete access point", delete(apid))
  }

  // ---- mount targets -----------------------------------------------------------------

  /** `CreateMountTarget`: refused before the service is called when the input, its
      filesystem id or its subnet id is missing. */
  function CreateMountTarget(input: Option<CreateMountTargetInput>,
                             create: CreateMountTargetInput -> Result<MountTargetDescription, ProviderError>)
    : (r: Result<MountTargetDescription, Error>)
    ensures input.None? || input.value.fileSystemId.None? || input.value.subnetId.None? ==>
              r == Failure(InvalidInput())
    ensures input.Some? && input.value.fileSystemId.Some? && input.value.subnetId.Some? ==>
              r == Lift("failed to create mount target", create(input.value))
  {
    if input.None? || input.value.fileSystemId.None? || input.value.subnetId.None? then Failure(InvalidInput())
    else Lift("failed to create mount target", create(input.value))
  }

  /** The query `ListMountTargetsForFileSystem` sends: one page of up to 100 for the id. */
  function MountTargetQuery(id: string): DescribeMountTargetsInput {
    DescribeMountTargetsInput(Some(id), Some(MaxItems))
  }

  /** `ListMountTargetsForFileSystem`: an empty id is refused; otherwise the first page of
      mount targets of that filesystem (no marker is followed). */
  function ListMountTargetsForFileSystem(id: string,
                                         describe: DescribeMountTargetsInput -> Result<seq<MountTargetDescription>, ProviderError>)
    : (r: Result<seq<MountTargetDescription>, Error>)
    ensures id == "" ==> r == Failure(InvalidInput())
    ensures id != "" ==> r == Lift("failed to list mount targets for filesystem", describe(MountTargetQuery(id)))
  {
    if id == "" then Failure(InvalidInput())
    else Lift("failed to list mount targets for filesystem", describe(MountTargetQuery(id)))
  }

  /** `DeleteMountTarget`: an empty id is refused; otherwise the id is sent to the service. */
  function DeleteMountTarget(id: string, delete: string -> Option<ProviderError>): (r: Option<Error>)
    ensures id == "" ==> r == Some(InvalidInput())
    ensures id != "" ==> r == LiftErr("failed to delete mount target", delete(id))
  {
    if id == "" then Some(InvalidInput())
    else LiftErr("failed to delete mount target", delete(id))
  }

  /** Every client error that came from the service keeps the AWS code's classification. */
  lemma ServiceErrorsKeepTheirKind<T>(msg: string, code: string, message: string)
    ensures Lift<T>(msg, Failure(AwsError(code, message))).error.kind == EfsErrors.TableKind(code)
    ensures Lift<T>(msg, Failure(AwsError(code, message))).error.cause == Some(Provider(AwsError(code, message)))
  {
  }
}
