/** The synchronous part of `filesystemCreate` and its helper `subnetAzs`: everything the
    request goes through before the create call, the create call itself, and the answer.
    Role assumption, the KMS lookup and the EC2 lookups are parameters holding their
    outcomes; the create call is an oracle answering with the EFS client's result. */
module FsCreate {
  import opened Wrappers
  import opened ApiErrors
  import opened Tags
  import opened EfsClient
  import opened ApiTypes
  import opened Settings
  import Kms
  import Ec2
  import AccessPoints

  /** `FileSystemCreateRequest`. The subnet and security-group lists may be nil. */
  datatype FileSystemCreateRequest = FileSystemCreateRequest(
    name: string,
    accessPoints: seq<AccessPoints.AccessPointCreateRequest>,
    backupPolicy: string,
    kmsKeyId: string,
    lifeCycleConfiguration: string,
    transitionToPrimaryStorageClass: string,
    oneZone: bool,
    sgs: Option<seq<string>>,
    subnets: Option<seq<string>>,
    tags: seq<Tag>)

  // ---- subnetAzs ----------------------------------------------------------------------

  /** What `subnetAzs` depends on: the policy and role outcomes of its own session and the
      EC2 client's `GetSubnet` answers. */
  datatype AzLookup = AzLookup(
    policyErr: Option<Error>, assumeErr: Option<Error>,
    getSubnet: string -> Result<Ec2.Subnet, Error>)

  const NoUsableZone := "failed to determine usable availability zone"

  /** The zone of a looked-up subnet (`aws.StringValue`). */
  function ZoneOf(s: Ec2.Subnet): string {
    s.availabilityZone.GetOr("")
  }

  /** The loop of `subnetAzs`: each subnet in turn is looked up and mapped to its zone; the
      first failed lookup ends it with that lookup's error. */
  function CollectZones(subnets: seq<string>, getSubnet: string -> Result<Ec2.Subnet, Error>)
    : (r: Result<map<string, string>, Error>)
    ensures r.Success? <==> forall i :: 0 <= i < |subnets| ==> getSubnet(subnets[i]).Success?
    ensures r.Success? ==> r.value.Keys == set i | 0 <= i < |subnets| :: subnets[i]
    ensures r.Success? ==> forall i :: 0 <= i < |subnets| ==> r.value[subnets[i]] == ZoneOf(getSubnet(subnets[i]).value)
    ensures r.Failure? ==> exists i :: 0 <= i < |subnets| && getSubnet(subnets[i]) == Failure(r.error) &&
                                      forall j :: 0 <= j < i ==> getSubnet(subnets[j]).Success?
    decreases |subnets|
  {
    if |subnets| == 0 then Success(map[])
    else
      match getSubnet(subnets[0])
      case Failure(e) => Failure(e)
      case Success(sn) =>
        var rest := CollectZones(subnets[1..], getSubnet);
        if rest.Failure? then
          ghost var i :| 0 <= i < |subnets[1..]| && getSubnet(subnets[1..][i]) == Failure(rest.error) &&
                         forall j :: 0 <= j < i ==> getSubnet(subnets[1..][j]).Success?;
          assert getSubnet(subnets[i + 1]) == Failure(rest.error);
          Failure(rest.error)
        else
          var m := rest.value[subnets[0] := ZoneOf(sn)];
          assert forall i :: 1 <= i < |subnets| ==> subnets[i] == subnets[1..][i - 1];
          Success(m)
  }

  /** `subnetAzs(account, defSubnets)`: the policy or role failure of its own session as is,
      a failed subnet lookup as is, and an empty map as a bad request; otherwise the map
      from each listed subnet to its zone. */
  function SubnetAzs(defSubnets: seq<string>, env: AzLookup): (r: Result<map<string, string>, Error>)
    ensures env.policyErr.Some? ==> r == Failure(env.policyErr.value)
    ensures env.policyErr.None? && env.assumeErr.Some? ==> r == Failure(env.assumeErr.value)
    ensures env.policyErr.None? && env.assumeErr.None? && CollectZones(defSubnets, env.getSubnet).Failure? ==>
              r == CollectZones(defSubnets, env.getSubnet)
    ensures env.policyErr.None? && env.assumeErr.None? && CollectZones(defSubnets, env.getSubnet).Success? &&
            |defSubnets| == 0 ==>
              r == Failure(Plain(BadRequest, NoUsableZone))
    ensures r.Success? ==> |defSubnets| > 0 && r == CollectZones(defSubnets, env.getSubnet)
  {
    if env.policyErr.Some? then Failure(env.policyErr.value)
    else if env.assumeErr.Some? then Failure(env.assumeErr.value)
    else
      match CollectZones(defSubnets, env.getSubnet)
      case Failure(e) => Failure(e)
      case Success(m) =>
        if |m| == 0 then
          Failure(Plain(BadRequest, NoUsableZone))
        else
          assert |m.Keys| > 0;
          Success(m)
  }

  /** No subnets give no zone, whatever the lookups would say. */
  lemma NoSubnetsNoZone(env: AzLookup)
    requires env.policyErr.None? && env.assumeErr.None?
    ensures SubnetAzs([], env) == Failure(Plain(BadRequest, NoUsableZone))
  {
  }

  // ---- the request --------------------------------------------------------------------

  /** What `filesystemCreate` depends on besides the request: the outcomes of its policy
      generation, role assumption and KMS lookup, the inputs of `subnetAzs`, the key the range over the zone map
      stops at (`chosen`, counted over the subnet list), and the create call. */
  datatype CreateEnv = CreateEnv(
    policyErr: Option<Error>,
    assumeErr: Option<Error>,
    kms: Kms.Lookup,
    azs: AzLookup,
    chosen: nat,
    create: CreateFileSystemInput -> Result<FileSystemDescription, Error>)

  /** The request after validation: its normalised tags, the key to encrypt with and the
      three normalised settings. */
  datatype Validated = Validated(tags: seq<Tag>, kmsKeyId: string, lifecycle: string, transition: string, backup: string)

  /** The key id the lookup yields; its error is ignored and leaves the id empty. */
  function LookedUpKey(kms: Kms.Lookup): string {
    if kms.Found? then kms.keyId else ""
  }

  /** The checks made before anything is created, in the order the code makes them: the
      name, then the lifecycle rule, the transition rule and the backup policy. */
  function Validate(org: string, group: string, req: FileSystemCreateRequest, lookedUp: string): (r: Result<Validated, Error>)
    ensures req.name == "" ==> r == Failure(Plain(BadRequest, "Name is a required field"))
    ensures req.name != "" && CreateLifecycle(req.lifeCycleConfiguration).Failure? ==>
              r == Failure(CreateLifecycle(req.lifeCycleConfiguration).error)
    ensures req.name != "" && CreateLifecycle(req.lifeCycleConfiguration).Success? &&
            CreateTransition(req.transitionToPrimaryStorageClass).Failure? ==>
              r == Failure(CreateTransition(req.transitionToPrimaryStorageClass).error)
    ensures req.name != "" && CreateLifecycle(req.lifeCycleConfiguration).Success? &&
            CreateTransition(req.transitionToPrimaryStorageClass).Success? &&
            CreateBackup(req.backupPolicy).Failure? ==>
              r == Failure(CreateBackup(req.backupPolicy).error)
    ensures r.Success? <==>
              req.name != "" && CreateLifecycle(req.lifeCycleConfiguration).Success? &&
              CreateTransition(req.transitionToPrimaryStorageClass).Success? && CreateBackup(req.backupPolicy).Success?
    ensures r.Success? ==>
              r.value.tags == NormalizeTags(org, req.name, group, req.tags) &&
              r.value.kmsKeyId == (if req.kmsKeyId == "" then lookedUp else req.kmsKeyId) &&
              r.value.lifecycle == CreateLifecycle(req.lifeCycleConfiguration).value &&
              r.value.transition == CreateTransition(req.transitionToPrimaryStorageClass).value &&
              r.value.backup == CreateBackup(req.backupPolicy).value
  {
    if req.name == "" then Failure(Plain(BadRequest, "Name is a required field"))
    else
      var tags := NormalizeTags(org, req.name, group, req.tags);
      var key := if req.kmsKeyId == "" then lookedUp else req.kmsKeyId;
      match CreateLifecycle(req.lifeCycleConfiguration)
      case Failure(e) => Failure(e)
      case Success(lc) =>
        match CreateTransition(req.transitionToPrimaryStorageClass)
        case Failure(e) => Failure(e)
        case Success(tr) =>
          match CreateBackup(req.backupPolicy)
          case Failure(e) => Failure(e)
          case Success(b) => Success(Validated(tags, key, lc, tr, b))
  }

  /** Where the filesystem goes: its subnets, and its zone for a One Zone filesystem. */
  datatype Placement = Placement(subnets: seq<string>, zone: Option<string>)

  /** The request's subnets. The client's default subnets are the request's own list
      (`WithDefaultSubnets(req.Subnets)`), so falling back to them when the request has
      none gives nil again, which ranges as empty. */
  function RequestedSubnets(req: FileSystemCreateRequest): (r: seq<string>)
    ensures req.subnets.None? ==> r == []
    ensures req.subnets.Some? ==> r == req.subnets.value
  {
    req.subnets.GetOr([])
  }

  /** The placement: every requested subnet for a regional filesystem; for One Zone, the
      single subnet the range over the `subnetAzs` map stops at and that subnet's zone. */
  function Place(req: FileSystemCreateRequest, env: CreateEnv): (r: Result<Placement, Error>)
    ensures !req.oneZone ==> r == Success(Placement(RequestedSubnets(req), None))
    ensures req.oneZone && SubnetAzs(RequestedSubnets(req), env.azs).Failure? ==>
              r == Failure(SubnetAzs(RequestedSubnets(req), env.azs).error)
    ensures req.oneZone && r.Success? ==>
              var m := SubnetAzs(RequestedSubnets(req), env.azs);
              m.Success? && |r.value.subnets| == 1 && r.value.subnets[0] in m.value &&
              r.value.subnets[0] in RequestedSubnets(req) &&
              r.value.zone == Some(m.value[r.value.subnets[0]])
    ensures req.oneZone ==> (r.Success? <==> SubnetAzs(RequestedSubnets(req), env.azs).Success?)
  {
    var subnets := RequestedSubnets(req);
    if !req.oneZone then Success(Placement(subnets, None))
    else
      match SubnetAzs(subnets, env.azs)
      case Failure(e) => Failure(e)
      case Success(m) =>
        var subnet := subnets[env.chosen % |subnets|];
        Success(Placement([subnet], Some(m[subnet])))
  }

  /** The create call's input: the task id as creation token, encryption with the chosen
      key, general-purpose performance, the normalised tags and the One Zone zone. */
  function CreateInput(v: Validated, p: Placement, taskId: string): CreateFileSystemInput {
    CreateFileSystemInput(Some(taskId), Some(true), Some(v.kmsKeyId), Some("generalPurpose"), p.zone, ToSdkTags(v.tags))
  }

  /** What the background task works from: the new filesystem's id, the settings to apply,
      the subnets to put mount targets in, their security groups, and the access points. */
  datatype Plan = Plan(
    fsid: string, backup: string, lifecycle: string, transition: string,
    subnets: seq<string>, sgs: seq<string>, accessPoints: seq<AccessPoints.AccessPointCreateRequest>)

  /** The synchronous outcome: the answer, the create input if the create was called, and
      the plan of the task started when it succeeded. */
  datatype Created = Created(result: Result<FileSystemResponse, Error>, sent: Option<CreateFileSystemInput>, plan: Option<Plan>)

  /** The security groups of the mount targets. The client's default groups are the
      request's own list (`WithDefaultSgs(req.Sgs)`), so a request without groups sends
      none. */
  function MountTargetSgs(req: FileSystemCreateRequest): (r: seq<string>)
    ensures req.sgs.None? ==> r == []
    ensures req.sgs.Some? ==> r == req.sgs.value
  {
    req.sgs.GetOr([])
  }

  /** `filesystemCreate(account, group, req)` up to the start of its task. A panic in the
      KMS lookup is outside the model. */
  function FilesystemCreate(env: CreateEnv, org: string, group: string, req: FileSystemCreateRequest, taskId: string)
    : (c: Created)
    requires !env.kms.Panicked?
    ensures env.policyErr.Some? ==> c == Created(Failure(Plain(NotFound, "cannot generate policy")), None, None)
    ensures env.policyErr.None? && env.assumeErr.Some? ==>
              c == Created(Failure(Plain(NotFound, "failed to assume role in account")), None, None)
    ensures env.policyErr.None? && env.assumeErr.None? && Validate(org, group, req, LookedUpKey(env.kms)).Failure? ==>
              c == Created(Failure(Validate(org, group, req, LookedUpKey(env.kms)).error), None, None)
    ensures env.policyErr.None? && env.assumeErr.None? && Validate(org, group, req, LookedUpKey(env.kms)).Success? &&
            Place(req, env).Failure? ==>
              c == Created(Failure(Place(req, env).error), None, None)
    ensures c.sent.Some? <==>
              env.policyErr.None? && env.assumeErr.None? &&
              Validate(org, group, req, LookedUpKey(env.kms)).Success? && Place(req, env).Success?
    ensures c.sent.Some? ==>
              c.sent.value == CreateInput(Validate(org, group, req, LookedUpKey(env.kms)).value, Place(req, env).value, taskId)
    ensures c.sent.Some? && env.create(c.sent.value).Failure? ==> c.result == Failure(env.create(c.sent.value).error)
    ensures c.plan.Some? <==> c.result.Success?
    ensures c.result.Success? ==>
              c.sent.Some? && env.create(c.sent.value).Success? &&
              var v := Validate(org, group, req, LookedUpKey(env.kms)).value;
              var fs := env.create(c.sent.value).value;
              c.result.value == FileSystemResponseFromEfs(fs, [], [], v.backup, v.lifecycle, v.transition) &&
              c.plan.value == Plan(fs.fileSystemId.GetOr(""), v.backup, v.lifecycle, v.transition,
                                   Place(req, env).value.subnets, MountTargetSgs(req), req.accessPoints)
  {
    if env.policyErr.Some? then Created(Failure(Plain(NotFound, "cannot generate policy")), None, None)
    else if env.assumeErr.Some? then Created(Failure(Plain(NotFound, "failed to assume role in account")), None, None)
    else
      match Validate(org, group, req, LookedUpKey(env.kms))
      case Failure(e) => Created(Failure(e), None, None)
      case Success(v) =>
        match Place(req, env)
        case Failure(e) => Created(Failure(e), None, None)
        case Success(p) =>
          var input := CreateInput(v, p, taskId);
          match env.create(input)
          case Failure(e) => Created(Failure(e), Some(input), None)
          case Success(fs) =>
            Created(Success(FileSystemResponseFromEfs(fs, [], [], v.backup, v.lifecycle, v.transition)), Some(input),
                    Some(Plan(fs.fileSystemId.GetOr(""), v.backup, v.lifecycle, v.transition,
                              p.subnets, MountTargetSgs(req), req.accessPoints)))
  }

  /** Nothing is created unless the name is set and all three settings are valid. */
  lemma ValidatedBeforeCreate(env: CreateEnv, org: string, group: string, req: FileSystemCreateRequest, taskId: string)
    requires !env.kms.Panicked?
    ensures FilesystemCreate(env, org, group, req, taskId).sent.Some? ==>
              req.name != "" &&
              CreateLifecycle(req.lifeCycleConfiguration).Success? &&
              CreateTransition(req.transitionToPrimaryStorageClass).Success? &&
              CreateBackup(req.backupPolicy).Success?
  {
  }

  /** The create asks for an encrypted general-purpose filesystem tokened by the task,
      tagged with the normalised tags, with the request's key or else the looked-up one. */
  lemma CreateInputShape(env: CreateEnv, org: string, group: string, req: FileSystemCreateRequest, taskId: string)
    requires !env.kms.Panicked?
    ensures var c := FilesystemCreate(env, org, group, req, taskId);
            c.sent.Some? ==>
              c.sent.value.creationToken == Some(taskId) && c.sent.value.encrypted == Some(true) &&
              c.sent.value.performanceMode == Some("generalPurpose") &&
              c.sent.value.kmsKeyId == Some(if req.kmsKeyId == "" then LookedUpKey(env.kms) else req.kmsKeyId) &&
              FromSdkTags(c.sent.value.tags) == NormalizeTags(org, req.name, group, req.tags) &&
              (c.sent.value.availabilityZoneName.Some? <==> req.oneZone)
  {
    var c := FilesystemCreate(env, org, group, req, taskId);
    if c.sent.Some? {
      FromToRoundTrip(NormalizeTags(org, req.name, group, req.tags));
    }
  }

  /** A One Zone filesystem goes into a single subnet among the requested ones, in that
      subnet's zone as `subnetAzs` reports it; a regional one into every requested subnet. */
  lemma OneZonePinsOneSubnet(env: CreateEnv, org: string, group: string, req: FileSystemCreateRequest, taskId: string)
    requires !env.kms.Panicked?
    ensures var c := FilesystemCreate(env, org, group, req, taskId);
            c.plan.Some? && req.oneZone ==>
              var subnets := RequestedSubnets(req);
              var m := SubnetAzs(subnets, env.azs);
              m.Success? && |c.plan.value.subnets| == 1 && c.plan.value.subnets[0] in subnets &&
              c.sent.value.availabilityZoneName == Some(m.value[c.plan.value.subnets[0]]) &&
              c.sent.value.availabilityZoneName == Some(ZoneOf(env.azs.getSubnet(c.plan.value.subnets[0]).value))
    ensures var c := FilesystemCreate(env, org, group, req, taskId);
            c.plan.Some? && !req.oneZone ==> c.plan.value.subnets == RequestedSubnets(req)
  {
    var c := FilesystemCreate(env, org, group, req, taskId);
    if c.plan.Some? && req.oneZone {
      var subnets := RequestedSubnets(req);
      var s := c.plan.value.subnets[0];
      var i :| 0 <= i < |subnets| && subnets[i] == s;
    }
  }

  /** A request without subnets plans no mount targets for a regional filesystem and, for
      One Zone, is refused once validated, since `subnetAzs` of no subnets finds no zone. A
      request without security groups gives its mount targets none. */
  lemma NoSubnetsNoMountTargets(env: CreateEnv, org: string, group: string, req: FileSystemCreateRequest, taskId: string)
    requires !env.kms.Panicked?
    ensures var c := FilesystemCreate(env, org, group, req, taskId);
            req.subnets.None? && !req.oneZone && c.plan.Some? ==> c.plan.value.subnets == []
    ensures var c := FilesystemCreate(env, org, group, req, taskId);
            req.subnets.None? && req.oneZone && env.policyErr.None? && env.assumeErr.None? &&
            env.azs.policyErr.None? && env.azs.assumeErr.None? &&
            Validate(org, group, req, LookedUpKey(env.kms)).Success? ==>
              c == Created(Failure(Plain(BadRequest, NoUsableZone)), None, None)
    ensures var c := FilesystemCreate(env, org, group, req, taskId);
            req.sgs.None? && c.plan.Some? ==> c.plan.value.sgs == []
  {
    if req.subnets.None? && env.azs.policyErr.None? && env.azs.assumeErr.None? {
      NoSubnetsNoZone(env.azs);
    }
  }

  /** The answer reports the settings as validated, and the tags as sent when the service
      echoes them. */
  lemma ResponseShowsRequest(env: CreateEnv, org: string, group: string, req: FileSystemCreateRequest, taskId: string)
    requires !env.kms.Panicked?
    requires var c := FilesystemCreate(env, org, group, req, taskId);
             c.result.Success? ==> env.create(c.sent.value).value.tags == c.sent.value.tags
    ensures var c := FilesystemCreate(env, org, group, req, taskId);
            c.result.Success? ==>
              c.result.value.backupPolicy == CreateBackup(req.backupPolicy).value &&
              c.result.value.lifeCycleConfiguration == CreateLifecycle(req.lifeCycleConfiguration).value &&
              c.result.value.transitionToPrimaryStorageClass == CreateTransition(req.transitionToPrimaryStorageClass).value &&
              c.result.value.tags == NormalizeTags(org, req.name, group, req.tags) &&
              c.result.value.mountTargets == [] && c.result.value.accessPoints == []
  {
    var c := FilesystemCreate(env, org, group, req, taskId);
    if c.result.Success? {
      FromToRoundTrip(NormalizeTags(org, req.name, group, req.tags));
    }
  }
}
