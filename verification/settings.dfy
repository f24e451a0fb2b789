/** The validation and normalisation of a filesystem's settings in a create and an update
    (`filesystemCreate` and `filesystemUpdate`): the lifecycle rule (transition to
    Infrequent Access), the transition back to primary storage, and the backup policy. */
module Settings {
  import opened Wrappers
  import opened ApiErrors

  const None_ := "NONE"
  const Disabled := "DISABLED"
  const Enabled := "ENABLED"
  const AfterOneAccess := "AFTER_1_ACCESS"

  const LifecycleError := "invalid lifecycle configuration, valid values are NONE | AFTER_7_DAYS | AFTER_14_DAYS | AFTER_30_DAYS | AFTER_60_DAYS | AFTER_90_DAYS"
  const TransitionError := "invalid transition to primary storage class rule, valid values are NONE | AFTER_1_ACCESS"
  const BackupError := "invalid backup policy, valid values are ENABLED | DISABLED"

  /** The Infrequent Access rules a request may name. */
  predicate IsLifecycleRule(s: string) {
    s == "AFTER_7_DAYS" || s == "AFTER_14_DAYS" || s == "AFTER_30_DAYS" || s == "AFTER_60_DAYS" || s == "AFTER_90_DAYS"
  }

  /** A create's lifecycle rule: empty or NONE is NONE, a rule is kept, anything else is a
      bad request. */
  function CreateLifecycle(s: string): (r: Result<string, Error>)
    ensures r.Success? <==> s == "" || s == None_ || IsLifecycleRule(s)
    ensures r.Success? ==> r.value == (if s == "" then None_ else s)
    ensures r.Failure? ==> r.error == Plain(BadRequest, LifecycleError)
  {
    if s == "" || s == None_ then Success(None_)
    else if IsLifecycleRule(s) then Success(s)
    else Failure(Plain(BadRequest, LifecycleError))
  }

  /** A create's transition to primary storage: empty or NONE is NONE, AFTER_1_ACCESS is
      kept, anything else is a bad request. */
  function CreateTransition(s: string): (r: Result<string, Error>)
    ensures r.Success? <==> s == "" || s == None_ || s == AfterOneAccess
    ensures r.Success? ==> r.value == (if s == "" then None_ else s)
    ensures r.Failure? ==> r.error == Plain(BadRequest, TransitionError)
  {
    if s == "" || s == None_ then Success(None_)
    else if s == AfterOneAccess then Success(s)
    else Failure(Plain(BadRequest, TransitionError))
  }

  /** A create's backup policy: empty is DISABLED, DISABLED and ENABLED are kept, anything
      else is a bad request. */
  function CreateBackup(s: string): (r: Result<string, Error>)
    ensures r.Success? <==> s == "" || s == Disabled || s == Enabled
    ensures r.Success? ==> r.value == (if s == "" then Disabled else s)
    ensures r.Failure? ==> r.error == Plain(BadRequest, BackupError)
  {
    if s == "" then Success(Disabled)
    else if s == Disabled || s == Enabled then Success(s)
    else Failure(Plain(BadRequest, BackupError))
  }

  /** Normalised create settings are fixed points: validating them again changes nothing,
      and none of them is empty. */
  lemma CreateSettingsIdempotent(lc: string, tr: string, backup: string)
    ensures CreateLifecycle(lc).Success? ==>
              CreateLifecycle(lc).value != "" && CreateLifecycle(CreateLifecycle(lc).value) == CreateLifecycle(lc)
    ensures CreateTransition(tr).Success? ==>
              CreateTransition(tr).value != "" && CreateTransition(CreateTransition(tr).value) == CreateTransition(tr)
    ensures CreateBackup(backup).Success? ==>
              CreateBackup(backup).value != "" && CreateBackup(CreateBackup(backup).value) == CreateBackup(backup)
  {
  }

  /** An update's lifecycle rule: empty keeps the filesystem's `current` rule, NONE and the
      rules are kept, anything else is a bad request. */
  function UpdateLifecycle(s: string, current: string): (r: Result<string, Error>)
    ensures r.Success? <==> s == "" || s == None_ || IsLifecycleRule(s)
    ensures r.Success? ==> r.value == (if s == "" then current else s)
    ensures r.Failure? ==> r.error == Plain(BadRequest, LifecycleError)
  {
    if s == "" then Success(current)
    else if s == None_ || IsLifecycleRule(s) then Success(s)
    else Failure(Plain(BadRequest, LifecycleError))
  }

  /** An update's transition to primary storage: empty keeps `current`, NONE and
      AFTER_1_ACCESS are kept, anything else is a bad request. */
  function UpdateTransition(s: string, current: string): (r: Result<string, Error>)
    ensures r.Success? <==> s == "" || s == None_ || s == AfterOneAccess
    ensures r.Success? ==> r.value == (if s == "" then current else s)
    ensures r.Failure? ==> r.error == Plain(BadRequest, TransitionError)
  {
    if s == "" then Success(current)
    else if s == None_ || s == AfterOneAccess then Success(s)
    else Failure(Plain(BadRequest, TransitionError))
  }

  /** An update's backup policy: empty means "leave it", DISABLED and ENABLED are kept,
      anything else is a bad request. */
  function UpdateBackup(s: string): (r: Result<string, Error>)
    ensures r.Success? <==> s == "" || s == Disabled || s == Enabled
    ensures r.Success? ==> r.value == s
    ensures r.Failure? ==> r.error == Plain(BadRequest, BackupError)
  {
    if s == "" || s == Disabled || s == Enabled then Success(s)
    else Failure(Plain(BadRequest, BackupError))
  }

  /** Create and update accept the same non-empty values and refuse the same ones. */
  lemma CreateAndUpdateAgree(lc: string, tr: string, backup: string, curLc: string, curTr: string)
    requires lc != "" && tr != "" && backup != ""
    ensures CreateLifecycle(lc) == UpdateLifecycle(lc, curLc)
    ensures CreateTransition(tr) == UpdateTransition(tr, curTr)
    ensures CreateBackup(backup) == UpdateBackup(backup)
  {
  }
}
