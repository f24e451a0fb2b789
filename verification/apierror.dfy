/** The error values that flow through the system: the API's own error kinds (the
    `apierror` package) and raw errors coming back from a cloud provider SDK. */
module ApiErrors {
  import opened Wrappers

  /** The provider-agnostic error kinds the API reports (apierror.Err*). */
  datatype ErrorKind =
    | BadRequest
    | NotFound
    | Conflict
    | Forbidden
    | LimitExceeded
    | ServiceUnavailable
    | InternalError

  /** A raw error as an SDK call returns it: an AWS error carrying a service code and
      message, any other error, or an error wrapped with extra context. */
  datatype ProviderError =
    | AwsError(code: string, message: string)
    | PlainError(message: string)
    | Wrapped(context: string, inner: ProviderError)

  /** Any Go `error` the core passes around: an API error (with an optional cause), a
      provider error handed back unmapped, or an error made with `fmt.Errorf` from a text
      followed by another error's text (`%s`), which keeps no link to that error. */
  datatype Error =
    | ApiError(kind: ErrorKind, msg: string, cause: Option<Error>)
    | Provider(err: ProviderError)
    | Annotated(context: string, inner: Error)

  /** `errors.Cause`: strips every wrapping layer, leaving the innermost error. */
  function Cause(e: ProviderError): (c: ProviderError)
    ensures !c.Wrapped?
    ensures e.Wrapped? || c == e
  {
    match e
    case Wrapped(_, inner) => Cause(inner)
    case _ => e
  }

  /** The AWS error at the root of `err`, when there is one (the `.(awserr.Error)` assertion). */
  function AwsCause(err: Error): (r: Option<ProviderError>)
    ensures r.Some? ==> r.value.AwsError?
    ensures r.Some? <==> err.Provider? && Cause(err.err).AwsError?
  {
    if err.Provider? && Cause(err.err).AwsError? then Some(Cause(err.err)) else None
  }

  /** `apierror.New(kind, msg, nil)`. */
  function Plain(kind: ErrorKind, msg: string): Error {
    ApiError(kind, msg, None)
  }

  /** An error made with `fmt.Errorf`: it carries only its text. */
  function Errorf(msg: string): Error {
    Provider(PlainError(msg))
  }

  /** The kind of an error when it is an API error, None for a raw provider error. */
  function KindOf(e: Error): Option<ErrorKind> {
    if e.ApiError? then Some(e.kind) else None
  }
}
