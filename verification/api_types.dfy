/** The API's response shapes and the mappings from the SDK's descriptions to them
    (`api/types.go`). A nil pointer in a description reads as the zero value. */
module ApiTypes {
  import opened Wrappers
  import opened Tags
  import opened EfsClient
  import Strs

  datatype FileSystemSize = FileSystemSize(timestamp: int, value: int, valueInIA: int, valueInStandard: int)

  datatype MountTarget = MountTarget(
    availabilityZoneId: string, availabilityZoneName: string, ipAddress: string,
    lifeCycleState: string, mountTargetId: string, subnetId: string)

  datatype AccessPoint = AccessPoint(
    accessPointArn: string, accessPointId: string, lifeCycleState: string, name: string,
    posixUser: Option<PosixUser>, rootDirectory: Option<RootDirectory>)

  datatype FileSystemResponse = FileSystemResponse(
    accessPoints: seq<AccessPoint>,
    availabilityZone: string,
    backupPolicy: string,
    creationTime: int,
    fileSystemArn: string,
    fileSystemId: string,
    kmsKeyId: string,
    lifeCycleState: string,
    lifeCycleConfiguration: string,
    transitionToPrimaryStorageClass: string,
    mountTargets: seq<MountTarget>,
    name: string,
    numberOfAccessPoints: int,
    numberOfMountTargets: int,
    oneZone: bool,
    sizeInBytes: Option<FileSystemSize>,
    tags: seq<Tag>)

  /** The value the response reports for an unset lifecycle or transition rule. */
  const NoRule := "NONE"

  /** `accessPointResponseFromEFS`. */
  function AccessPointResponseFromEfs(ap: AccessPointDescription): (r: AccessPoint)
    ensures r.accessPointId == ap.accessPointId.GetOr("") && r.name == ap.name.GetOr("")
    ensures r.posixUser == ap.posixUser && r.rootDirectory == ap.rootDirectory
  {
    AccessPoint(ap.accessPointArn.GetOr(""), ap.accessPointId.GetOr(""), ap.lifeCycleState.GetOr(""),
                ap.name.GetOr(""), ap.posixUser, ap.rootDirectory)
  }

  function AccessPointsFromEfs(aps: seq<AccessPointDescription>): (r: seq<AccessPoint>)
    ensures |r| == |aps|
    ensures forall i :: 0 <= i < |aps| ==> r[i] == AccessPointResponseFromEfs(aps[i])
  {
    if |aps| == 0 then [] else [AccessPointResponseFromEfs(aps[0])] + AccessPointsFromEfs(aps[1..])
  }

  function MountTargetFromEfs(m: MountTargetDescription): MountTarget {
    MountTarget(m.availabilityZoneId.GetOr(""), m.availabilityZoneName.GetOr(""), m.ipAddress.GetOr(""),
                m.lifeCycleState.GetOr(""), m.mountTargetId.GetOr(""), m.subnetId.GetOr(""))
  }

  function MountTargetsFromEfs(mts: seq<MountTargetDescription>): (r: seq<MountTarget>)
    ensures |r| == |mts|
    ensures forall i :: 0 <= i < |mts| ==> r[i] == MountTargetFromEfs(mts[i])
  {
    if |mts| == 0 then [] else [MountTargetFromEfs(mts[0])] + MountTargetsFromEfs(mts[1..])
  }

  function SizeFromEfs(s: SizeInBytes): FileSystemSize {
    FileSystemSize(s.timestamp.GetOr(0), s.value.GetOr(0), s.valueInIA.GetOr(0), s.valueInStandard.GetOr(0))
  }

  /** `fileSystemResponseFromEFS(fs, mts, aps, backup, ia, primary)`: the filesystem's own
      fields, one entry per mount target and access point in order, the access-point count,
      the zone only for a One Zone filesystem, and "NONE" for an empty lifecycle rule. */
  function FileSystemResponseFromEfs(fs: FileSystemDescription, mts: seq<MountTargetDescription>,
                                     aps: seq<AccessPointDescription>, backup: string, ia: string, primary: string)
    : (r: FileSystemResponse)
    ensures r.oneZone <==> fs.availabilityZoneName.Some?
    ensures r.availabilityZone == fs.availabilityZoneName.GetOr("")
    ensures r.fileSystemId == fs.fileSystemId.GetOr("") && r.name == fs.name.GetOr("")
    ensures r.backupPolicy == backup
    ensures r.tags == FromSdkTags(fs.tags)
    ensures r.numberOfAccessPoints == |aps| == |r.accessPoints|
    ensures forall i :: 0 <= i < |aps| ==> r.accessPoints[i] == AccessPointResponseFromEfs(aps[i])
    ensures |r.mountTargets| == |mts|
    ensures forall i :: 0 <= i < |mts| ==> r.mountTargets[i].mountTargetId == mts[i].mountTargetId.GetOr("")
    ensures r.numberOfMountTargets == fs.numberOfMountTargets.GetOr(0)
    ensures r.sizeInBytes.Some? <==> fs.sizeInBytes.Some?
    ensures r.lifeCycleConfiguration != "" && r.transitionToPrimaryStorageClass != ""
    ensures ia != "" ==> r.lifeCycleConfiguration == ia
    ensures primary != "" ==> r.transitionToPrimaryStorageClass == primary
  {
    FileSystemResponse(
      accessPoints := AccessPointsFromEfs(aps),
      availabilityZone := if fs.availabilityZoneName.Some? then fs.availabilityZoneName.value else "",
      backupPolicy := backup,
      creationTime := fs.creationTime.GetOr(0),
      fileSystemArn := fs.fileSystemArn.GetOr(""),
      fileSystemId := fs.fileSystemId.GetOr(""),
      kmsKeyId := fs.kmsKeyId.GetOr(""),
      lifeCycleState := fs.lifeCycleState.GetOr(""),
      lifeCycleConfiguration := if ia == "" then NoRule else ia,
      transitionToPrimaryStorageClass := if primary == "" then NoRule else primary,
      mountTargets := MountTargetsFromEfs(mts),
      name := fs.name.GetOr(""),
      numberOfAccessPoints := |aps|,
      numberOfMountTargets := fs.numberOfMountTargets.GetOr(0),
      oneZone := fs.availabilityZoneName.Some?,
      sizeInBytes := if fs.sizeInBytes.Some? then Some(SizeFromEfs(fs.sizeInBytes.value)) else None,
      tags := FromSdkTags(fs.tags))
  }

  /** The tags the response reports are the filesystem's own, read back unchanged when the
      filesystem was tagged through the API. */
  lemma ResponseTagsRoundTrip(fs: FileSystemDescription, tags: seq<Tag>, mts: seq<MountTargetDescription>,
                              aps: seq<AccessPointDescription>, backup: string, ia: string, primary: string)
    requires fs.tags == ToSdkTags(tags)
    ensures FileSystemResponseFromEfs(fs, mts, aps, backup, ia, primary).tags == tags
  {
    FromToRoundTrip(tags);
  }

  // ---- users -------------------------------------------------------------------------

  datatype IamUser = IamUser(userName: Option<string>, path: Option<string>, tags: seq<SdkTag>)
  datatype AccessKeyMetadata = AccessKeyMetadata(accessKeyId: Option<string>, status: Option<string>, userName: Option<string>)
  datatype AccessKey = AccessKey(accessKeyId: Option<string>, secretAccessKey: Option<string>, status: Option<string>, userName: Option<string>)

  datatype FileSystemUserResponse = FileSystemUserResponse(
    userName: string,
    accessKeys: seq<AccessKeyMetadata>,
    accessKey: Option<AccessKey>,
    deletedAccessKeys: seq<string>,
    groups: seq<string>,
    tags: seq<Tag>)

  /** The user name the response shows: the IAM name without the `<fsname>-` prefix taken
      from the second-to-last segment of the user's path, when the path has more than two
      segments. */
  function DisplayName(userName: string, path: string): (name: string)
    ensures |Strs.Split(path, '/')| <= 2 ==> name == userName
    ensures var segs := Strs.Split(path, '/');
              |segs| > 2 && Strs.HasPrefix(userName, segs[|segs| - 2] + "-") ==>
                segs[|segs| - 2] + "-" + name == userName
    ensures var segs := Strs.Split(path, '/');
              |segs| > 2 && !Strs.HasPrefix(userName, segs[|segs| - 2] + "-") ==> name == userName
  {
    var segs := Strs.Split(path, '/');
    if |segs| > 2 then Strs.TrimPrefix(userName, segs[|segs| - 2] + "-") else userName
  }

  /** `filesystemUserResponseFromIAM(org, u, keys)`: nil keys become an empty list. */
  function FilesystemUserResponseFromIam(org: string, u: IamUser, keys: Option<seq<AccessKeyMetadata>>)
    : (r: FileSystemUserResponse)
    ensures r.userName == DisplayName(u.userName.GetOr(""), u.path.GetOr(""))
    ensures r.accessKeys == keys.GetOr([])
    ensures r.tags == FromSdkTags(u.tags)
    ensures r.accessKey.None? && r.deletedAccessKeys == [] && r.groups == []
  {
    FileSystemUserResponse(DisplayName(u.userName.GetOr(""), u.path.GetOr("")), keys.GetOr([]), None, [], [],
                           FromSdkTags(u.tags))
  }

  /** The IAM path of a filesystem's users, `/spinup/<org>/<group>/<fsname>/`: the segments
      an empty one, `spinup`, the org, the group, the filesystem name and an empty one,
      joined with slashes. */
  function UserPath(org: string, group: string, fsName: string): string {
    Strs.Join(["", "spinup", org, group, fsName, ""], '/')
  }

  /** The IAM name of a filesystem user: `<fsname>-<user>`. */
  function IamUserName(fsName: string, user: string): string {
    fsName + "-" + user
  }

  /** The path's segments: an empty one, `spinup`, the org, the group, the filesystem and
      an empty one. */
  lemma UserPathSegments(org: string, group: string, fsName: string)
    requires '/' !in org && '/' !in group && '/' !in fsName
    ensures Strs.Split(UserPath(org, group, fsName), '/') == ["", "spinup", org, group, fsName, ""]
  {
    assert '/' !in "spinup" by { assert "spinup" == ['s', 'p', 'i', 'n', 'u', 'p']; }
    Strs.SplitJoin(["", "spinup", org, group, fsName, ""], '/');
  }

  /** A user created for a filesystem is shown under the name it was requested with. */
  lemma UserNameRoundTrip(org: string, group: string, fsName: string, user: string, tags: seq<SdkTag>,
                          keys: Option<seq<AccessKeyMetadata>>)
    requires '/' !in org && '/' !in group && '/' !in fsName
    ensures FilesystemUserResponseFromIam(org,
              IamUser(Some(IamUserName(fsName, user)), Some(UserPath(org, group, fsName)), tags), keys).userName == user
  {
    UserPathSegments(org, group, fsName);
    assert IamUserName(fsName, user) == (fsName + "-") + user;
    Strs.TrimPrefixOfConcat(fsName + "-", user);
  }
}
