/** Classification of KMS service error codes into API error kinds (kms.ErrCode). */
module KmsErrors {
  import opened Wrappers
  import opened ApiErrors

  /** The codes the KMS classifier names, each with the kind it maps to. */
  const Named: map<string, ErrorKind> :=
    map["Forbidden" := Forbidden, "Conflict" := Conflict, "NotFound" := NotFound,
        "Bad Request" := BadRequest, "LimitExceeded" := LimitExceeded,
        "ServiceUnavailable" := ServiceUnavailable]

  /** `kms.ErrCode(msg, err)`: a named AWS code maps to its kind with `msg` unchanged; any
      other AWS code is a bad request with the AWS message appended; a non-AWS error is an
      internal error. */
  function ErrCode(msg: string, err: Error): (r: Error)
    ensures r.ApiError?
    ensures AwsCause(err).None? ==> r == ApiError(InternalError, msg, Some(err))
    ensures AwsCause(err).Some? ==> r.cause == Some(Provider(AwsCause(err).value))
    ensures AwsCause(err).Some? && AwsCause(err).value.code in Named ==>
              r.kind == Named[AwsCause(err).value.code] && r.msg == msg
    ensures AwsCause(err).Some? && AwsCause(err).value.code !in Named ==>
              r.kind == BadRequest && r.msg == msg + ": " + AwsCause(err).value.message
  {
    match AwsCause(err)
    case Some(aerr) =>
      var cause := Some(Provider(aerr));
      if aerr.code == "Forbidden" then ApiError(Forbidden, msg, cause)
      else if aerr.code == "Conflict" then ApiError(Conflict, msg, cause)
      else if aerr.code == "NotFound" then ApiError(NotFound, msg, cause)
      else if aerr.code == "Bad Request" then ApiError(BadRequest, msg, cause)
      else if aerr.code == "LimitExceeded" then ApiError(LimitExceeded, msg, cause)
      else if aerr.code == "ServiceUnavailable" then ApiError(ServiceUnavailable, msg, cause)
      else ApiError(BadRequest, msg + ": " + aerr.message, cause)
    case None => ApiError(InternalError, msg, Some(err))
  }

  /** Only the spelling with a space is an explicit bad request: the EFS spelling
      "BadRequest" falls to the default case and gets the AWS message appended. */
  lemma BadRequestSpelling(msg: string, m: string)
    ensures ErrCode(msg, Provider(AwsError("Bad Request", m))) == ApiError(BadRequest, msg, Some(Provider(AwsError("Bad Request", m))))
    ensures ErrCode(msg, Provider(AwsError("BadRequest", m))).msg == msg + ": " + m
  {
    assert "BadRequest" !in Named;
  }
}
