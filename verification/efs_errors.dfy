/** Classification of EFS service error codes into API error kinds (efs.ErrCode). */
module EfsErrors {
  import opened Wrappers
  import opened ApiErrors

  // The EFS SDK's error code constants used by the classifier.
  const AccessPointAlreadyExists := "AccessPointAlreadyExists"
  const FileSystemAlreadyExists := "FileSystemAlreadyExists"
  const FileSystemInUse := "FileSystemInUse"
  const IpAddressInUse := "IpAddressInUse"
  const MountTargetConflict := "MountTargetConflict"
  const AccessPointNotFound := "AccessPointNotFound"
  const FileSystemNotFound := "FileSystemNotFound"
  const MountTargetNotFound := "MountTargetNotFound"
  const BadRequestCode := "BadRequest"
  const IncorrectFileSystemLifeCycleState := "IncorrectFileSystemLifeCycleState"
  const IncorrectMountTargetState := "IncorrectMountTargetState"
  const InsufficientThroughputCapacity := "InsufficientThroughputCapacity"
  const InvalidPolicyException := "InvalidPolicyException"
  const PolicyNotFound := "PolicyNotFound"
  const SecurityGroupLimitExceeded := "SecurityGroupLimitExceeded"
  const SecurityGroupNotFound := "SecurityGroupNotFound"
  const SubnetNotFound := "SubnetNotFound"
  const UnsupportedAvailabilityZone := "UnsupportedAvailabilityZone"
  const ValidationException := "ValidationException"
  const AccessPointLimitExceeded := "AccessPointLimitExceeded"
  const FileSystemLimitExceeded := "FileSystemLimitExceeded"
  const NetworkInterfaceLimitExceeded := "NetworkInterfaceLimitExceeded"
  const NoFreeAddressesInSubnet := "NoFreeAddressesInSubnet"
  const ThroughputLimitExceeded := "ThroughputLimitExceeded"
  const TooManyRequests := "TooManyRequests"
  const DependencyTimeout := "DependencyTimeout"
  const InternalServerError := "InternalServerError"

  /** The codes of each group of the classifier, as a table independent of the switch. */
  const ConflictCodes: set<string> :=
    {"AccessPointAlreadyExists", "FileSystemAlreadyExists", "FileSystemInUse",
     "IpAddressInUse", "MountTargetConflict", "Conflict"}
  const NotFoundCodes: set<string> :=
    {"AccessPointNotFound", "FileSystemNotFound", "MountTargetNotFound", "NotFound"}
  const BadRequestCodes: set<string> :=
    {"BadRequest", "IncorrectFileSystemLifeCycleState", "IncorrectMountTargetState",
     "InsufficientThroughputCapacity", "InvalidPolicyException", "PolicyNotFound",
     "SecurityGroupLimitExceeded", "SecurityGroupNotFound", "SubnetNotFound",
     "UnsupportedAvailabilityZone", "ValidationException"}
  const LimitCodes: set<string> :=
    {"AccessPointLimitExceeded", "FileSystemLimitExceeded", "NetworkInterfaceLimitExceeded",
     "NoFreeAddressesInSubnet", "ThroughputLimitExceeded", "TooManyRequests", "LimitExceeded"}
  const UnavailableCodes: set<string> :=
    {"DependencyTimeout", "InternalServerError", "ServiceUnavailable"}

  /** Every code the classifier names explicitly. */
  const KnownCodes: set<string> :=
    {"Forbidden"} + ConflictCodes + NotFoundCodes + BadRequestCodes + LimitCodes + UnavailableCodes

  /** The kind the table assigns to a code; unknown codes are bad requests. */
  function TableKind(code: string): ErrorKind {
    if code == "Forbidden" then Forbidden
    else if code in ConflictCodes then Conflict
    else if code in NotFoundCodes then NotFound
    else if code in BadRequestCodes then BadRequest
    else if code in LimitCodes then LimitExceeded
    else if code in UnavailableCodes then ServiceUnavailable
    else BadRequest
  }

  /** The switch on the AWS code, case by case in the source's order. */
  function KindForCode(code: string): ErrorKind {
    if code == "Forbidden" then Forbidden
    else if code == AccessPointAlreadyExists || code == FileSystemAlreadyExists
         || code == FileSystemInUse || code == IpAddressInUse
         || code == MountTargetConflict || code == "Conflict" then Conflict
    else if code == AccessPointNotFound || code == FileSystemNotFound
         || code == MountTargetNotFound || code == "NotFound" then NotFound
    else if code == BadRequestCode || code == IncorrectFileSystemLifeCycleState
         || code == IncorrectMountTargetState || code == InsufficientThroughputCapacity
         || code == InvalidPolicyException || code == PolicyNotFound
         || code == SecurityGroupLimitExceeded || code == SecurityGroupNotFound
         || code == SubnetNotFound || code == UnsupportedAvailabilityZone
         || code == ValidationException then BadRequest
    else if code == AccessPointLimitExceeded || code == FileSystemLimitExceeded
         || code == NetworkInterfaceLimitExceeded || code == NoFreeAddressesInSubnet
         || code == ThroughputLimitExceeded || code == TooManyRequests
         || code == "LimitExceeded" then LimitExceeded
    else if code == DependencyTimeout || code == InternalServerError
         || code == "ServiceUnavailable" then ServiceUnavailable
    else BadRequest
  }

  /** The source's switch agrees with the table on every code. */
  lemma SwitchMatchesTable(code: string)
    ensures KindForCode(code) == TableKind(code)
  {
    if code in ConflictCodes {
      assert code != "Forbidden";
    } else if code in NotFoundCodes {
      assert code != "Forbidden" && code !in ConflictCodes;
    } else if code in BadRequestCodes {
      InBadRequestGroup(code);
    } else if code in LimitCodes {
      InLimitGroup(code);
    } else if code in UnavailableCodes {
      InUnavailableGroup(code);
    }
  }

  lemma InBadRequestGroup(code: string)
    requires code in BadRequestCodes
    ensures code != "Forbidden" && code !in ConflictCodes && code !in NotFoundCodes
    ensures KindForCode(code) == BadRequest && TableKind(code) == BadRequest
  {
  }

  lemma InLimitGroup(code: string)
    requires code in LimitCodes
    ensures code != "Forbidden" && code !in ConflictCodes && code !in NotFoundCodes && code !in BadRequestCodes
    ensures KindForCode(code) == LimitExceeded && TableKind(code) == LimitExceeded
  {
  }

  lemma InUnavailableGroup(code: string)
    requires code in UnavailableCodes
    ensures code != "Forbidden" && code !in ConflictCodes && code !in NotFoundCodes
    ensures code !in BadRequestCodes && code !in LimitCodes
    ensures KindForCode(code) == ServiceUnavailable && TableKind(code) == ServiceUnavailable
  {
  }

  /** `efs.ErrCode(msg, err)`: maps any error to an API error. An AWS error at the root of
      `err` is classified by its code and becomes the cause; an unknown code also gets the
      AWS message appended; anything else is an internal error caused by `err` itself. */
  function ErrCode(msg: string, err: Error): (r: Error)
    ensures r.ApiError?
    ensures AwsCause(err).None? ==> r == ApiError(InternalError, msg, Some(err))
    ensures AwsCause(err).Some? ==> r.cause == Some(Provider(AwsCause(err).value))
    ensures AwsCause(err).Some? ==> r.kind == TableKind(AwsCause(err).value.code)
    ensures AwsCause(err).Some? && AwsCause(err).value.code in KnownCodes ==> r.msg == msg
    ensures AwsCause(err).Some? && AwsCause(err).value.code !in KnownCodes ==>
              r.msg == msg + ": " + AwsCause(err).value.message
  {
    match AwsCause(err)
    case Some(aerr) =>
      SwitchMatchesTable(aerr.code);
      if aerr.code in KnownCodes then ApiError(KindForCode(aerr.code), msg, Some(Provider(aerr)))
      else ApiError(BadRequest, msg + ": " + aerr.message, Some(Provider(aerr)))
    case None => ApiError(InternalError, msg, Some(err))
  }

  /** A code wrapped in any number of context layers is classified like the bare code. */
  lemma {:induction false} ErrCodeSeesThroughWrapping(msg: string, code: string, m: string, ctx: seq<string>)
    ensures ErrCode(msg, Provider(WrapAll(ctx, AwsError(code, m)))) == ErrCode(msg, Provider(AwsError(code, m)))
    decreases |ctx|
  {
    if |ctx| > 0 {
      assert Cause(WrapAll(ctx, AwsError(code, m))) == Cause(WrapAll(ctx[1..], AwsError(code, m)));
      ErrCodeSeesThroughWrapping(msg, code, m, ctx[1..]);
    }
  }

  /** `inner` wrapped once per context string, outermost first. */
  function WrapAll(ctx: seq<string>, inner: ProviderError): ProviderError
    decreases |ctx|
  {
    if |ctx| == 0 then inner else Wrapped(ctx[0], WrapAll(ctx[1..], inner))
  }
}
