/** Preparing an account for user management (`api/orchestration_account.go`): the org's
    admin policy and admin group are created when missing, the policy document is brought
    up to date, and the policy is attached to the group.

    IAM is a small state: the policies and groups by name. Any call may be made to fail:
    `faults` names the calls that fail and `errOf` the error each returns. */
module Account {
  import opened Wrappers
  import opened ApiErrors
  import Users

  datatype Policy = Policy(path: string, arn: string, document: string)
  datatype Group = Group(path: string, attached: seq<string>)
  datatype IamState = IamState(policies: map<string, Policy>, groups: map<string, Group>)

  /** The IAM calls the preparation makes. */
  datatype AccountOp =
    | GetPolicy | CreatePolicy | WaitForPolicy | GetPolicyVersion | UpdatePolicy
    | GetGroup | CreateGroup | ListAttached | AttachPolicy

  /** What decoding and comparing a stored policy document gives: an unescape error, a
      document that does not unmarshal, one equal to the admin policy, or one that differs. */
  datatype DocCheck = Undecodable(err: Error) | Unparsable | Same | Differs

  /** The service's fixed behaviour: the failing calls and their errors, the ARN a new
      policy gets, and how a stored document compares with the admin policy. */
  datatype Env = Env(faults: set<AccountOp>, errOf: AccountOp -> Error,
                     arnFor: (string, string) -> string, docCheck: string -> DocCheck)

  /** A step's result, the state after it, and the calls it made in order. */
  datatype Step<T> = Step(result: Result<T, Error>, st: IamState, calls: seq<AccountOp>)

  /** The messages the client's lookups give for a missing policy or group (the IAM
      wrapper library is not part of this model; only the NotFound kind matters). */
  const NoPolicy := "policy not found"
  const NoGroup := "group not found"

  function AccountPath(org: string): string { "/spinup/" + org + "/" }
  function AdminPolicy(org: string): string { "SpinupEFSAdminPolicy-" + org }

  /** A failing call's error, or None. */
  function Fault(env: Env, op: AccountOp): (e: Option<Error>)
    ensures e.Some? <==> op in env.faults
  {
    if op in env.faults then Some(env.errOf(op)) else None
  }

  /** `GetPolicyByName(name, path)`. */
  function LookUpPolicy(env: Env, st: IamState, name: string, path: string): (r: Result<Policy, Error>)
    ensures GetPolicy !in env.faults && name in st.policies && st.policies[name].path == path ==>
              r == Success(st.policies[name])
    ensures r.Success? ==> name in st.policies && r.value == st.policies[name]
  {
    if GetPolicy in env.faults then Failure(env.errOf(GetPolicy))
    else if name in st.policies && st.policies[name].path == path then Success(st.policies[name])
    else Failure(Plain(NotFound, NoPolicy))
  }

  /** Whether a lookup error means "missing": an API error of kind NotFound. */
  predicate MeansMissing(e: Error) {
    KindOf(e) == Some(NotFound)
  }

  /** Create the policy, then wait for it. */
  function CreateAndWait(env: Env, st: IamState, name: string, path: string, doc: string): (s: Step<string>)
    ensures s.calls == (if CreatePolicy in env.faults then [CreatePolicy] else [CreatePolicy, WaitForPolicy])
    ensures CreatePolicy in env.faults ==> s == Step(Failure(env.errOf(CreatePolicy)), st, [CreatePolicy])
    ensures CreatePolicy !in env.faults ==>
              s.st == st.(policies := st.policies[name := Policy(path, env.arnFor(name, path), doc)])
    ensures s.result.Success? <==> CreatePolicy !in env.faults && WaitForPolicy !in env.faults
    ensures s.result.Success? ==> s.result.value == env.arnFor(name, path)
  {
    if CreatePolicy in env.faults then Step(Failure(env.errOf(CreatePolicy)), st, [CreatePolicy])
    else
      var arn := env.arnFor(name, path);
      var st' := st.(policies := st.policies[name := Policy(path, arn, doc)]);
      if WaitForPolicy in env.faults then Step(Failure(env.errOf(WaitForPolicy)), st', [CreatePolicy, WaitForPolicy])
      else Step(Success(arn), st', [CreatePolicy, WaitForPolicy])
  }

  /** Read the existing policy's default document and update it when it does not decode
      to, or does not equal, the admin policy. */
  function RefreshPolicy(env: Env, st: IamState, name: string, p: Policy, doc: string): (s: Step<string>)
    requires name in st.policies && st.policies[name] == p
    ensures s.result.Success? ==> s.result.value == p.arn
    ensures GetPolicyVersion in env.faults ==> s == Step(Failure(env.errOf(GetPolicyVersion)), st, [GetPolicyVersion])
    ensures GetPolicyVersion !in env.faults && env.docCheck(p.document).Undecodable? ==>
              s == Step(Failure(env.docCheck(p.document).err), st, [GetPolicyVersion])
    ensures GetPolicyVersion !in env.faults && env.docCheck(p.document) == Same ==>
              s == Step(Success(p.arn), st, [GetPolicyVersion])
    ensures GetPolicyVersion !in env.faults && (env.docCheck(p.document).Unparsable? || env.docCheck(p.document).Differs?) ==>
              s.calls == [GetPolicyVersion, UpdatePolicy] &&
              (s.result.Success? <==> UpdatePolicy !in env.faults) &&
              s.st == (if UpdatePolicy in env.faults then st
                       else st.(policies := st.policies[name := p.(document := doc)]))
  {
    if GetPolicyVersion in env.faults then Step(Failure(env.errOf(GetPolicyVersion)), st, [GetPolicyVersion])
    else
      match env.docCheck(p.document)
      case Undecodable(e) => Step(Failure(e), st, [GetPolicyVersion])
      case Same => Step(Success(p.arn), st, [GetPolicyVersion])
      case _ =>
        if UpdatePolicy in env.faults then Step(Failure(env.errOf(UpdatePolicy)), st, [GetPolicyVersion, UpdatePolicy])
        else Step(Success(p.arn), st.(policies := st.policies[name := p.(document := doc)]), [GetPolicyVersion, UpdatePolicy])
  }

  /** `userCreatePolicyIfMissing(name, path)`: a lookup error other than NotFound is
      returned; a missing policy is created (and waited for); an existing one is refreshed.
      The result is the policy's ARN. Groups are never touched. */
  function CreatePolicyIfMissing(env: Env, st: IamState, name: string, path: string, doc: string): (s: Step<string>)
    ensures s.st.groups == st.groups
    ensures |s.calls| >= 1 && s.calls[0] == GetPolicy
    ensures LookUpPolicy(env, st, name, path).Failure? && !MeansMissing(LookUpPolicy(env, st, name, path).error) ==>
              s == Step(Failure(LookUpPolicy(env, st, name, path).error), st, [GetPolicy])
    ensures s.result.Success? ==>
              name in s.st.policies && s.st.policies[name].arn == s.result.value &&
              (s.st.policies[name].path == path || LookUpPolicy(env, st, name, path).Success?) &&
              (s.st.policies[name].document == doc || env.docCheck(s.st.policies[name].document) == Same)
    ensures forall n :: n in st.policies && n != name ==> n in s.st.policies && s.st.policies[n] == st.policies[n]
  {
    match LookUpPolicy(env, st, name, path)
    case Failure(e) =>
      if !MeansMissing(e) then Step(Failure(e), st, [GetPolicy])
      else
        var c := CreateAndWait(env, st, name, path, doc);
        Step(c.result, c.st, [GetPolicy] + c.calls)
    case Success(p) =>
      var u := RefreshPolicy(env, st, name, p, doc);
      Step(u.result, u.st, [GetPolicy] + u.calls)
  }

  /** `GetGroupWithPath(name, path)`. */
  function LookUpGroup(env: Env, st: IamState, name: string, path: string): (r: Result<Group, Error>)
    ensures GetGroup !in env.faults && name in st.groups && st.groups[name].path == path ==> r == Success(st.groups[name])
    ensures r.Success? ==> name in st.groups && r.value == st.groups[name]
  {
    if GetGroup in env.faults then Failure(env.errOf(GetGroup))
    else if name in st.groups && st.groups[name].path == path then Success(st.groups[name])
    else Failure(Plain(NotFound, NoGroup))
  }

  /** The policies attached to a group, none for an unknown one. */
  function AttachedTo(st: IamState, name: string): seq<string> {
    if name in st.groups then st.groups[name].attached else []
  }

  /** List the group's policies and attach `arn` unless it is listed already. */
  function AttachIfMissing(env: Env, st: IamState, name: string, path: string, arn: string): (s: Step<()>)
    ensures s.st.policies == st.policies
    ensures |s.calls| >= 1 && s.calls[0] == ListAttached
    ensures ListAttached in env.faults ==> s == Step(Failure(env.errOf(ListAttached)), st, [ListAttached])
    ensures ListAttached !in env.faults && arn in AttachedTo(st, name) ==> s == Step(Success(()), st, [ListAttached])
    ensures ListAttached !in env.faults && arn !in AttachedTo(st, name) ==>
              s.calls == [ListAttached, AttachPolicy] &&
              (s.result.Success? <==> AttachPolicy !in env.faults)
    ensures s.result.Success? ==> name in s.st.groups && arn in s.st.groups[name].attached
    ensures s.st.groups.Keys == st.groups.Keys + {name} || s.st == st
    ensures forall n :: n in st.groups && n != name ==> s.st.groups[n] == st.groups[n]
    ensures name in s.st.groups ==>
              s.st.groups[name].attached == AttachedTo(st, name) ||
              (arn !in AttachedTo(st, name) && s.st.groups[name].attached == AttachedTo(st, name) + [arn])
    ensures name in st.groups && name in s.st.groups ==> s.st.groups[name].path == st.groups[name].path
  {
    if ListAttached in env.faults then Step(Failure(env.errOf(ListAttached)), st, [ListAttached])
    else
      var attached := AttachedTo(st, name);
      if arn in attached then Step(Success(()), st, [ListAttached])
      else if AttachPolicy in env.faults then Step(Failure(env.errOf(AttachPolicy)), st, [ListAttached, AttachPolicy])
      else
        var g := if name in st.groups then st.groups[name].(attached := attached + [arn]) else Group(path, [arn]);
        Step(Success(()), st.(groups := st.groups[name := g]), [ListAttached, AttachPolicy])
  }

  /** `userCreateGroupIfMissing(name, path, arn)`: a lookup error other than NotFound is
      returned; a missing group is created; then the policy is attached unless it already
      is. Policies are never touched, and the ARN is never attached twice. */
  function CreateGroupIfMissing(env: Env, st: IamState, name: string, path: string, arn: string): (s: Step<()>)
    ensures s.st.policies == st.policies
    ensures |s.calls| >= 1 && s.calls[0] == GetGroup
    ensures LookUpGroup(env, st, name, path).Failure? && !MeansMissing(LookUpGroup(env, st, name, path).error) ==>
              s == Step(Failure(LookUpGroup(env, st, name, path).error), st, [GetGroup])
    ensures s.result.Success? ==>
              name in s.st.groups && arn in s.st.groups[name].attached &&
              (s.st.groups[name].path == path || LookUpGroup(env, st, name, path).Success?)
    ensures LookUpGroup(env, st, name, path).Success? && arn in st.groups[name].attached && ListAttached !in env.faults ==>
              s == Step(Success(()), st, [GetGroup, ListAttached])
    ensures forall n :: n in st.groups && n != name ==> n in s.st.groups && s.st.groups[n] == st.groups[n]
  {
    match LookUpGroup(env, st, name, path)
    case Failure(e) =>
      if !MeansMissing(e) then Step(Failure(e), st, [GetGroup])
      else if CreateGroup in env.faults then Step(Failure(env.errOf(CreateGroup)), st, [GetGroup, CreateGroup])
      else
        var st' := st.(groups := st.groups[name := Group(path, [])]);
        var a := AttachIfMissing(env, st', name, path, arn);
        Step(a.result, a.st, [GetGroup, CreateGroup] + a.calls)
    case Success(_) =>
      var a := AttachIfMissing(env, st, name, path, arn);
      Step(a.result, a.st, [GetGroup] + a.calls)
  }

  /** The account is ready for the org's users: its admin policy and admin group exist
      under the org's path and the policy is attached to the group. */
  ghost predicate Ready(st: IamState, org: string) {
    var p := AdminPolicy(org);
    var g := Users.AdminGroup(org);
    && p in st.policies && st.policies[p].path == AccountPath(org)
    && g in st.groups && st.groups[g].path == AccountPath(org)
    && st.policies[p].arn in st.groups[g].attached
  }

  /** `prepareAccount`: the admin policy step, then the admin group step with the policy's
      ARN; the first failure ends it. `doc` is the admin policy document. */
  function PrepareAccount(env: Env, st: IamState, org: string, doc: string): (s: Step<()>)
    ensures |s.calls| >= 1 && s.calls[0] == GetPolicy
    ensures s.result.Success? ==> Ready(s.st, org)
  {
    var path := AccountPath(org);
    var p := CreatePolicyIfMissing(env, st, AdminPolicy(org), path, doc);
    match p.result
    case Failure(e) => Step(Failure(e), p.st, p.calls)
    case Success(arn) =>
      var g := CreateGroupIfMissing(env, p.st, Users.AdminGroup(org), path, arn);
      Step(g.result, g.st, p.calls + g.calls)
  }

  /** Without failures, and when the document as stored reads back as the admin policy,
      a prepared account is ready and preparing it again changes nothing and makes no
      call that creates, updates or attaches. */
  lemma PrepareAccountIdempotent(env: Env, st: IamState, org: string, doc: string)
    requires env.faults == {} && env.docCheck(doc) == Same
    requires AdminPolicy(org) in st.policies ==> !env.docCheck(st.policies[AdminPolicy(org)].document).Undecodable?
    ensures PrepareAccount(env, st, org, doc).result.Success?
    ensures Ready(PrepareAccount(env, st, org, doc).st, org)
    ensures var once := PrepareAccount(env, st, org, doc);
            var twice := PrepareAccount(env, once.st, org, doc);
            twice.st == once.st && twice.result.Success? &&
            twice.calls == [GetPolicy, GetPolicyVersion, GetGroup, ListAttached]
  {
    FirstPrepareReady(env, st, org, doc);
    ReadyPrepareIsQuiet(env, PrepareAccount(env, st, org, doc).st, org, doc);
  }

  /** Without failures a first preparation succeeds, leaving the account ready with the
      admin document current. */
  lemma FirstPrepareReady(env: Env, st: IamState, org: string, doc: string)
    requires env.faults == {} && env.docCheck(doc) == Same
    requires AdminPolicy(org) in st.policies ==> !env.docCheck(st.policies[AdminPolicy(org)].document).Undecodable?
    ensures var once := PrepareAccount(env, st, org, doc);
            once.result.Success? && Ready(once.st, org) &&
            env.docCheck(once.st.policies[AdminPolicy(org)].document) == Same
  {
    var path := AccountPath(org);
    var pn := AdminPolicy(org);
    var gn := Users.AdminGroup(org);
    PolicyStepSucceeds(env, st, pn, path, doc);
    var p := CreatePolicyIfMissing(env, st, pn, path, doc);
    var g := CreateGroupIfMissing(env, p.st, gn, path, p.result.value);
    assert p.st.policies[pn].path == path;
    assert g.st.groups[gn].path == path by {
      if LookUpGroup(env, p.st, gn, path).Failure? {
        assert g.st.groups[gn].path == path;
      }
    }
    assert PrepareAccount(env, st, org, doc).st == g.st;
  }

  /** Preparing a ready account whose stored document reads back as the admin policy
      only looks things up and changes nothing. */
  lemma ReadyPrepareIsQuiet(env: Env, st: IamState, org: string, doc: string)
    requires env.faults == {} && Ready(st, org)
    requires env.docCheck(st.policies[AdminPolicy(org)].document) == Same
    ensures var twice := PrepareAccount(env, st, org, doc);
            twice.st == st && twice.result.Success? &&
            twice.calls == [GetPolicy, GetPolicyVersion, GetGroup, ListAttached]
  {
    var path := AccountPath(org);
    var pn := AdminPolicy(org);
    var gn := Users.AdminGroup(org);
    var p2 := CreatePolicyIfMissing(env, st, pn, path, doc);
    assert LookUpPolicy(env, st, pn, path) == Success(st.policies[pn]);
    assert p2 == Step(Success(st.policies[pn].arn), st, [GetPolicy, GetPolicyVersion]);
    var g2 := CreateGroupIfMissing(env, st, gn, path, st.policies[pn].arn);
    assert LookUpGroup(env, st, gn, path).Success?;
    assert g2 == Step(Success(()), st, [GetGroup, ListAttached]);
  }

  /** Without failures the policy step succeeds unless the stored document cannot be
      unescaped, and leaves the policy under the path with the admin document current. */
  lemma PolicyStepSucceeds(env: Env, st: IamState, name: string, path: string, doc: string)
    requires env.faults == {} && env.docCheck(doc) == Same
    requires name in st.policies ==> !env.docCheck(st.policies[name].document).Undecodable?
    ensures var p := CreatePolicyIfMissing(env, st, name, path, doc);
            p.result.Success? && name in p.st.policies &&
            (p.st.policies[name].path == path || (name in st.policies && st.policies[name].path == path)) &&
            env.docCheck(p.st.policies[name].document) == Same
  {
    var p := CreatePolicyIfMissing(env, st, name, path, doc);
    if LookUpPolicy(env, st, name, path).Success? {
      var q := st.policies[name];
      if env.docCheck(q.document) != Same {
        assert p.st.policies[name].document == doc;
      }
    }
  }
}
