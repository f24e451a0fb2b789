# efs-api in Dafny

A model of the core of efs-api, a REST service that manages Amazon EFS filesystems on
behalf of the tenants ("spaces") of an organisation. The model covers the following:

- The provider wrappers for EFS, EC2 and KMS.
- The error classifiers that turn AWS error codes into the API's error kinds.
- The tag normalisation and the tag conversions.
- The response mappers.
- The generic `retry` helper and the `rollBack` stack.
- The filesystem workflows:
  - create, with the synchronous checks and the background task that configures the
    filesystem, creates mount targets and access points, and rolls back on failure;
  - update, with its checks and its task;
  - delete, with its checks, its access-point deletes and its task;
  - list and existence checks through the resource tagging service.
- The orchestrated teardown `DeleteFileSystemO`.
- The access-point workflows.
- The preparation of an account for filesystem users.
- The user workflows: create, delete, delete-all, list, get, key rotation and re-tagging.

Every call into AWS is a parameter of the model: a function from the call's arguments to
the wrapper's result. Where a call is repeated (the polls of a wait, the attempts of a
retried delete), it is a function of the call's index. The random jitter of `retry` is a
parameter too, constrained to the range `rand.Int63n` draws from. Each workflow returns
its result together with what it did: the calls it made in order, the compensations it
registered, and the rollback log. The contracts then state the ordering and the error
behaviour the source promises.

The modules follow the source's packages:

| module | models |
|---|---|
| `ApiErrors` | the `apierror` error kinds and raw provider errors |
| `EfsErrors` | `efs.ErrCode` |
| `KmsErrors` | `kms.ErrCode` |
| `Tags` | `api/tags.go` |
| `Strs` | the string helpers `strings` provides |
| `Arns` | the ARN parsing the source relies on |
| `Ec2` | `ec2.GetSubnet` |
| `Kms` | `kms/kms.go` |
| `EfsClient` | the `efs` package's wrappers |
| `Retry` | `retry` |
| `Server` | `rollBack` and `mapAccountNumber` |
| `Settings` | the validation of the lifecycle, transition and backup settings |
| `ApiTypes` | the response mappers of `api/types.go` |
| `Resolver` | `filesystemList` / `listFileSystems` and `fileSystemExists` |
| `AccessPoints` | `api/orchestration_accesspoints.go` |
| `Account` | `api/orchestration_account.go` |
| `Users` | `api/orchestration_users.go` |
| `FsCreate` | the synchronous part of `filesystemCreate` |
| `FsCreateTask` | the background part of `filesystemCreate` |
| `FsUpdate` | `filesystemUpdate` |
| `FsDelete` | `filesystemDelete` |
| `Teardown` | `DeleteFileSystemO` in `efs/orchestration.go` |

## Model

| member | source | states |
|---|---|---|
| ApiErrors.Cause | efs/errors.go:12 | `errors.Cause` strips every wrapping layer: the result is never a wrapper, and an unwrapped error is its own cause |
| ApiErrors.AwsCause | efs/errors.go:12 | an AWS error is found exactly when the error is a provider error whose innermost cause is an AWS error |
| EfsErrors.ErrCode | efs/errors.go:11-239 | every error maps to an API error. An AWS root cause is classified by its code through the table of code groups and kept as the cause. Codes the switch names keep the message; unknown codes are bad requests with the AWS message appended. Non-AWS errors are internal errors caused by the original error |
| EfsErrors.SwitchMatchesTable | efs/errors.go:13-233 | the code-by-code switch, in the source's order, agrees with the independent table of code groups for every code |
| EfsErrors.ErrCodeSeesThroughWrapping | efs/errors.go:12 | an AWS error wrapped in any number of context layers classifies exactly like the bare error |
| KmsErrors.ErrCode | kms/errors.go:10-50 | the six named KMS codes map to their kinds with the message unchanged; any other code is a bad request with the AWS message appended; a non-AWS error is an internal error |
| KmsErrors.BadRequestSpelling | kms/errors.go:28-44 | only "Bad Request" (with a space) is an explicit bad request; "BadRequest" falls to the default case and gets the AWS message appended |
| Tags.Kept | api/tags.go:22-33 | the kept client tags are at most as many as the input and each is a non-dropped input tag |
| Tags.NormalizeTags | api/tags.go:21-51 | the result ends with Name, spinup:org and spinup:spaceid set to the given name, org and group, in that order, and no tag before them is reserved or `aws:`-prefixed |
| Tags.NormalizedHasOneOfEachReservedKey | api/tags.go:21-51 | a normalised list holds exactly one tag for each of the three reserved keys, whatever tags the request carried |
| Tags.NormalizedHasNoAwsKey | api/tags.go:28-30 | no normalised tag has an `aws:` key |
| Tags.KeptIsOrderedSelection | api/tags.go:22-33 | the kept tags are an order-preserving subsequence of the input; every tag that is not dropped is kept; their number is the independently counted number of non-dropped tags |
| Tags.NormalizedLength | api/tags.go:21-51 | normalisation adds exactly three tags to the kept ones |
| Tags.KeptIdempotent | api/tags.go:22-33 | filtering a second time removes nothing |
| Tags.NormalizeIdempotent | api/tags.go:21-51 | normalising an already normalised list changes nothing |
| Tags.NormalizeExamples | api/types_test.go:16-66 | the three cases of the source's unit test, including the one where client-supplied reserved tags are overridden |
| Tags.FromToRoundTrip | api/tags.go:54-75 | converting API tags to the SDK shape and back gives them back |
| Tags.ToFromRoundTrip | api/tags.go:54-75 | converting SDK tags to API tags and back is the identity exactly when no field is nil, and it always yields tags with every field set |
| Tags.FromSdkTagsPointwise | api/tags.go:56-61 | the i-th converted tag is the i-th SDK tag with nil fields read as "" |
| Strs.TrimPrefix | api/orchestration_users.go:131 | when the input starts with the prefix, the prefix followed by the result is the input; otherwise the input comes back unchanged |
| Strs.TrimPrefixOfConcat | api/orchestration_users.go:126-131 | trimming a prefix that was put in front returns exactly what followed it |
| Strs.Split | api/types.go:443 | `strings.Split` always gives at least one piece, and no piece contains the separator |
| Strs.SplitJoin | api/types.go:442-443 | splitting a join of separator-free pieces gives the pieces back |
| Strs.SplitNLength | api/orchestration_filesystem.go:723 | `SplitN` yields one piece more than there are separators, capped at n |
| Strs.SplitNJoin | api/orchestration_filesystem.go:723 | `SplitN` with n equal to the number of pieces undoes a join whose pieces, all but the last, are separator-free |
| Arns.ParseArn | api/orchestration_filesystem.go:723-727 | a text parses exactly when it starts with `arn:` and has at least five colons |
| Arns.ParseArnString | api/orchestration_filesystem.go:765-770 | an ARN whose first four fields are free of colons parses back to itself; the resource may hold colons |
| Ec2.GetSubnet | ec2/ec2.go:38-59 | succeeds exactly when the id is non-empty, the service answers, and it describes exactly one subnet, which is returned. An empty id is refused before any call; a service error is mapped; any other count is a bad request naming the count |
| Kms.HasInputTags | kms/kms.go:42-50 | true exactly when the search key is among the keys |
| Kms.ScanTagsMeaning | kms/kms.go:75-91 | the tag loop panics exactly when a matching tag has fewer than three `:`-separated segments. Otherwise it selects the key exactly when, at some matching tag, the number of tags counted so far equals the number of input tags. A tag counts when its third segment is not `org` or its value is the org |
| Kms.ScanKeysPicksLastQualifying | kms/kms.go:67-92 | when every key's tags are read without a panic, the loop ends with the id of the last qualifying key, or with the initial empty target when none qualifies |
| Kms.ScanKeysFindsListedKey | kms/kms.go:67-92 | the loop only ever ends on the starting target or on the id of a listed key |
| Kms.ScanKeysStopsAtFirstFailure | kms/kms.go:67-80 | the loop stops at the first key whose tags cannot be listed, with that error, or that has a malformed matching tag, with a panic |
| Kms.KeyWithAllInputTagsQualifies | kms/kms.go:76-90 | a key that carries the input tags first, well formed and with the org's value on `org` tags, qualifies |
| Kms.NoMatchingTagNeverQualifies | kms/kms.go:80-90 | a key none of whose tags match an input tag key is never selected |
| Kms.GetKmsKeyIdByTags | kms/kms.go:52-103 | no input tags is a bad request; a key-listing failure is returned as is, and so is the first failure to list a key's tags. When every key's tags are read without a panic, the answer is the id of the last qualifying key, and not found when no key qualifies or that id is empty. A found id is non-empty and is the id of a listed key |
| Kms.FirstAlias | kms/kms.go:117-123 | the index of the first alias with the name, or None when no alias has it |
| Kms.GetKmsKeyId | kms/kms.go:105-126 | an empty alias is a bad request; a listing failure is returned as is. Otherwise the lookup succeeds, with the target of the first alias with that name, or "" when there is none |
| EfsClient.Lift | efs/filesystem.go:22-25 | a service result keeps its value on success; a failure is mapped through `ErrCode` with the call's message |
| EfsClient.LiftErr | efs/filesystem.go:38-42 | a call that only returns an error keeps nil as nil, and a failure is mapped through `ErrCode` with the call's message |
| EfsClient.CreateFileSystem | efs/filesystem.go:15-28 | a nil input never reaches the service; otherwise the service's answer, mapped |
| EfsClient.DeleteFileSystem | efs/filesystem.go:31-45 | an empty id never reaches the service; otherwise the service's error, mapped |
| EfsClient.GetFileSystem | efs/filesystem.go:78-103 | succeeds exactly when the id is non-empty, the service answers, and it describes exactly one filesystem, which is returned. Zero results are not found and several are an internal error |
| EfsClient.PageIds | efs/filesystem.go:64-66 | one id per filesystem on the page, in order |
| EfsClient.CollectFileSystemIds | efs/filesystem.go:48-75 | the loop sends one request per page and follows each page's marker. It stops at the first failing page with that page's error; otherwise it returns the ids of every page in order |
| EfsClient.ListFileSystems | efs/filesystem.go:48-75 | a nil input is refused without a request; otherwise the result of following the markers |
| EfsClient.ListedIdsHasEveryPage | efs/filesystem.go:64-66 | every filesystem on every successful page is in the listing |
| EfsClient.ListedIdsLength | efs/filesystem.go:64-66 | the listing has one entry per filesystem on the successful pages |
| EfsClient.CreateAccessPoint | efs/accesspoint.go:12-27 | a nil input, or one without a filesystem id, never reaches the service |
| EfsClient.CollectAccessPoints | efs/accesspoint.go:29-59 | the loop sends one request per page, following the next-token. It stops at the first failing page with that page's error; otherwise it returns the access points of every page in order |
| EfsClient.ListAccessPoints | efs/accesspoint.go:29-59 | an empty filesystem id is refused without a request; otherwise the result of following the tokens |
| EfsClient.GetAccessPoint | efs/accesspoint.go:61-80 | succeeds exactly when the id is non-empty, the service answers, and it describes exactly one access point |
| EfsClient.DeleteAccessPoint | efs/accesspoint.go:82-94 | an empty id never reaches the service; otherwise the service's error, mapped |
| EfsClient.CreateMountTarget | efs/mount_target.go:14-27 | an input without a filesystem id or a subnet never reaches the service |
| EfsClient.ListMountTargetsForFileSystem | efs/mount_target.go:30-48 | an empty id never reaches the service; otherwise the first page of up to 100 mount targets, or the mapped error |
| EfsClient.DeleteMountTarget | efs/mount_target.go:51-66 | an empty id never reaches the service; otherwise the service's error, mapped |
| EfsClient.ServiceErrorsKeepTheirKind | efs/errors.go:11-239 | an AWS failure returned by any wrapper carries the kind its code classifies to, and the AWS error as its cause |
| Retry.Retry | api/server.go:229-249 | f is called at least once and at most max(attempts, 1) times. Every call but the last failed ordinarily, and an early end means a non-failing call. The result is nil exactly when the last call succeeded, and otherwise that call's error, unwrapped for a `stop`. There is one pause between calls, each in [s, 1.5 s) for a backoff s that starts at `sleep` and doubles |
| Retry.RetryIsFailingPrefix | api/server.go:229-249 | a run is determined by the failing prefix of the call outcomes: it makes one call more than that prefix, capped at the budget |
| Retry.FirstCallSucceeds | api/server.go:230 | a first call that succeeds is the only call, with no pause and a nil result |
| Retry.StopShortCircuits | api/server.go:231-233 | a `stop` error ends the run at once, whatever budget is left, and its inner error is returned |
| Retry.AlwaysFailing | api/server.go:236-245 | an always-failing operation is called exactly max(attempts, 1) times and the last error is returned |
| Retry.FailThenSucceed | api/server.go:229-249 | an operation that fails n - 1 times and then succeeds succeeds with a budget of n after n calls, and fails with a budget of n - 1 |
| Server.RunDown | api/server.go:205-211 | the log holds the tasks from position n-1 down to 0, each with its own result |
| Server.RollBack | api/server.go:193-222 | a nil stack runs nothing; otherwise every task runs once, from the last registered to the first, whatever the earlier tasks returned |
| Server.RollBackReverses | api/server.go:205-211 | the tasks run in exactly the reverse of their registration order, against an independent reversal |
| Server.RollBackRunsEachOnce | api/server.go:205-211 | each registered task runs exactly once, even when every task fails |
| Server.MapAccountNumber | api/server.go:252-257 | a configured account name maps to its account number; any other name is passed through unchanged |
| Server.MapAccountNumberIdempotent | api/server.go:252-257 | when no account number is itself a configured account name, mapping a second time changes nothing |
| Settings.CreateLifecycle | api/orchestration_filesystem.go:65-77 | a create accepts exactly "", NONE and the five AFTER_n_DAYS rules; "" becomes NONE; anything else is a bad request with the source's message |
| Settings.CreateTransition | api/orchestration_filesystem.go:79-87 | a create accepts exactly "", NONE and AFTER_1_ACCESS; "" becomes NONE |
| Settings.CreateBackup | api/orchestration_filesystem.go:89-97 | a create accepts exactly "", DISABLED and ENABLED; "" becomes DISABLED |
| Settings.CreateSettingsIdempotent | api/orchestration_filesystem.go:65-97 | a normalised create setting validates to itself |
| Settings.UpdateLifecycle | api/orchestration_filesystem.go:373-387 | an update accepts the same values as a create; "" keeps the filesystem's current rule |
| Settings.UpdateTransition | api/orchestration_filesystem.go:390-400 | an update accepts the same values as a create; "" keeps the current rule |
| Settings.UpdateBackup | api/orchestration_filesystem.go:404-411 | an update accepts "", DISABLED and ENABLED and keeps the value ("" means leave it) |
| Settings.CreateAndUpdateAgree | api/orchestration_filesystem.go:65-97 | on non-empty values, create and update accept and refuse the same settings with the same result |
| ApiTypes.AccessPointResponseFromEfs | api/types.go:425-434 | the response carries the described id, name, POSIX user and root directory |
| ApiTypes.AccessPointsFromEfs | api/types.go:277-289 | one response entry per access point, in order |
| ApiTypes.MountTargetsFromEfs | api/types.go:291-303 | one response entry per mount target, in order |
| ApiTypes.FileSystemResponseFromEfs | api/types.go:248-325 | the response reports the filesystem's fields and one entry per mount target and access point, in order. It reports the access-point count, One Zone exactly when a zone is set, and NONE for an empty lifecycle or transition rule |
| ApiTypes.ResponseTagsRoundTrip | api/types.go:267-274 | a filesystem tagged through the API reports exactly the tags it was given |
| ApiTypes.DisplayName | api/types.go:440-451 | a path with more than two segments strips `<segment>-` from the front of the name, where the segment is the second-to-last one, and only when the name starts with it; a shorter path leaves the name unchanged |
| ApiTypes.FilesystemUserResponseFromIam | api/types.go:437-464 | the shown name is the IAM name without the filesystem prefix taken from the path; nil keys become an empty list; the tags are converted |
| ApiTypes.UserPathSegments | api/orchestration_users.go:22 | the users' path `/spinup/<org>/<group>/<fsname>/` splits back into its six segments |
| ApiTypes.UserNameRoundTrip | api/types.go:437-451 | a user created under the naming scheme is shown under the name it was requested with |
| Resolver.TagFiltersFor | api/orchestration_filesystem.go:699-713 | the org filter always comes first; the space filter is added exactly when a group is given |
| Resolver.EntriesFor | api/orchestration_filesystem.go:722-744 | a resource adds at most one entry, and a resource whose ARN does not parse adds its raw ARN |
| Resolver.ListedEntries | api/orchestration_filesystem.go:721-744 | the listing has at most one entry per resource |
| Resolver.FilesystemList | api/orchestration_filesystem.go:680-749 | a policy-generation, role or query failure is returned as is; otherwise the entries of the resources tagged for the org (and the group) |
| Resolver.ListFileSystems | api/types.go:328-384 | an account without a tagging client is not found; otherwise the same listing |
| Resolver.AnyEntryIs | api/orchestration_filesystem.go:763-778 | true exactly when some entry stands for the id |
| Resolver.FileSystemExists | api/orchestration_filesystem.go:755-779 | a listing error is returned as is; otherwise the filesystem exists exactly when some entry, read as an ARN's resource when it is one, is the id |
| Resolver.EntriesAreListed | api/orchestration_filesystem.go:722-744 | each resource's entry ends up in the listing |
| Resolver.ListedFileSystemExists | api/orchestration_filesystem.go:755-779 | a filesystem tagged into the group is found by the existence check on the group's listing |
| Resolver.OtherResourcesAreSkipped | api/orchestration_filesystem.go:729-732 | a tagged resource that is not a filesystem, such as an access point, adds nothing |
| Resolver.UngroupedEntryNamesItsSpace | api/orchestration_filesystem.go:735-741 | without a group, a filesystem with one space tag is listed as `<space>/<id>` |
| Resolver.PrefixWithoutSpaces | api/orchestration_filesystem.go:735-741 | tags without a space tag leave the id alone |
| AccessPoints.EffectiveName | api/orchestration_accesspoints.go:26-29 | the requested name, or the generated uuid when it is empty |
| AccessPoints.AccessPointTags | api/orchestration_accesspoints.go:31-43 | the access point gets one tag per filesystem tag, in order; a Name tag's value becomes `<fsname>-<apname>` |
| AccessPoints.AccessPointNamedAfterFileSystem | api/orchestration_accesspoints.go:31-43 | every Name tag of the access point names it after the filesystem; every other filesystem tag is carried over; without a Name tag the tags are the filesystem's |
| AccessPoints.AccessPointCreate | api/orchestration_accesspoints.go:15-107 | an account without a client is not found, and a failed lookup is returned before anything is sent. The create input carries the task id as token, the filesystem id, the request's POSIX user and root directory, and the renamed tags. A task is started exactly when the create succeeded |
| AccessPoints.CreateAnswersAsGet | api/orchestration_accesspoints.go:97-104 | the create answers with the same shape a get of the created access point gives |
| AccessPoints.PollAccessPoint | api/orchestration_accesspoints.go:73-90 | a poll succeeds exactly when the lookup succeeds and shows the access point available |
| AccessPoints.AwaitAccessPoint | api/orchestration_accesspoints.go:73-93 | the wait makes 1 to 10 lookups. It succeeds exactly when the last lookup found the access point available, and no earlier lookup did |
| AccessPoints.AvailableWithinTenPolls | api/orchestration_accesspoints.go:73-93 | an access point first available on lookup k < 10 makes the wait succeed after exactly k + 1 lookups |
| AccessPoints.NeverAvailable | api/orchestration_accesspoints.go:73-93 | an access point never available in ten lookups fails the wait after ten, with the last lookup's error |
| AccessPoints.ListFilesystemAccessPoints | api/orchestration_accesspoints.go:109-126 | an unknown account is not found, a listing error is returned as is, and otherwise the ids of the access points, in order |
| AccessPoints.AccessPointIds | api/orchestration_accesspoints.go:120-123 | one id per access point, in order |
| AccessPoints.GetFilesystemAccessPoint | api/orchestration_accesspoints.go:128-140 | an unknown account is not found, a lookup error is returned as is, and otherwise the access point's response shape |
| AccessPoints.DeleteFilesystemAccessPoint | api/orchestration_accesspoints.go:142-153 | an unknown account is not found; otherwise the client's error, if any |
| Account.LookUpPolicy | api/orchestration_account.go:83 | a found policy is the stored one under that name |
| Account.CreateAndWait | api/orchestration_account.go:93-104 | the create is followed by the wait only when it succeeded; success yields the new policy's ARN |
| Account.RefreshPolicy | api/orchestration_account.go:106-138 | the default version is read. An undecodable document is an error; a document that parses and matches is left alone; an unparsable or different one is updated. Success yields the existing ARN |
| Account.CreatePolicyIfMissing | api/orchestration_account.go:80-139 | the lookup comes first, and a lookup error other than not-found is returned. Success leaves the policy stored under its name. Groups and other policies are untouched |
| Account.LookUpGroup | api/orchestration_account.go:146 | a found group is the stored one under that name |
| Account.AttachIfMissing | api/orchestration_account.go:158-177 | the attached policies are listed; nothing is attached when the ARN is listed already; otherwise it is attached. Success leaves it attached, and other groups and all policies are untouched |
| Account.CreateGroupIfMissing | api/orchestration_account.go:143-178 | a lookup error other than not-found is returned; a missing group is created; success leaves the group holding the policy. An existing group with the policy attached needs no change |
| Account.PrepareAccount | api/orchestration_account.go:52-75 | the policy lookup comes first. Success leaves the account ready: the admin policy and the admin group both exist under the org's path, and the policy is attached to the group |
| Account.PrepareAccountIdempotent | api/orchestration_account.go:52-75 | without failures, preparing twice succeeds, and the second run changes nothing and only reads |
| Account.FirstPrepareReady | api/orchestration_account.go:52-75 | without failures, a first preparation succeeds and stores a document that reads back as the admin policy |
| Account.ReadyPrepareIsQuiet | api/orchestration_account.go:52-75 | preparing a ready account changes nothing and makes only the four read calls |
| Account.PolicyStepSucceeds | api/orchestration_account.go:80-139 | without failures the policy step succeeds unless the stored document cannot be unescaped |
| Users.RunUntilFailure | api/orchestration_users.go:70-74 | a loop of calls makes a prefix of the planned calls, step by step, and makes them all when it ends without an error |
| Users.CompletedRunMadeEveryCall | api/orchestration_users.go:70-74 | a loop that ended without an error made every planned call, and each succeeded |
| Users.Removals | api/orchestration_users.go:70-74 | one group removal per listed group, in order |
| Users.KeyDeletions | api/orchestration_users.go:81-85 | one key deletion per listed key, in order |
| Users.NewUserTags | api/orchestration_users.go:25-30 | a new user's tags are the filesystem's tags normalised with the user's IAM name as Name, followed by ResourceName set to the filesystem's name |
| Users.CreateFilesystemUser | api/orchestration_users.go:15-48 | the filesystem is described first. The user `<fsname>-<user>` is created under `/spinup/<org>/<group>/<fsname>/` with the new-user tags, then waited for, then added to the org's admin group; the first failure ends the run. Success returns the created user's response |
| Users.CreatedUserKeepsRequestedName | api/orchestration_users.go:15-48 | a created user is shown under the name that was requested |
| Users.RemoveFromGroups | api/orchestration_users.go:65-74 | the groups are listed first, then only group removals follow; success means the listing succeeded |
| Users.DeleteKeys | api/orchestration_users.go:76-85 | the keys are listed first, then only key deletions follow; success means the listing succeeded |
| Users.GroupsRemoved | api/orchestration_users.go:65-74 | when the group step succeeds, the user was removed from every group IAM lists for it |
| Users.KeysDeleted | api/orchestration_users.go:76-85 | when the key step succeeds, every key IAM lists for the user was deleted |
| Users.DetachAndDelete | api/orchestration_users.go:65-89 | the delete is attempted only as the last call, and success ends with deleting this user |
| Users.DeletedOnlyWhenDetached | api/orchestration_users.go:65-89 | the user is deleted only after every listed group and key was successfully detached |
| Users.DeleteFilesystemUser | api/orchestration_users.go:51-92 | the filesystem is described first, then the user is checked to exist under the filesystem's path, then detached and deleted; the first failure ends the run |
| Users.DeleteUserIsLastAndDetached | api/orchestration_users.go:51-92 | a delete run deletes at most one user, with its last call, and only once that user is fully detached |
| Users.DeleteCallIsLast | api/orchestration_users.go:51-92 | any delete call in a delete run is its last call, for a detached user |
| Users.ListFilesystemUsers | api/orchestration_users.go:112-137 | the filesystem is described, then the users under its path are listed; success returns each name without the `<fsname>-` prefix |
| Users.TrimAll | api/orchestration_users.go:128-133 | one trimmed name per listed user, in order |
| Users.ListedUsersLoseTheirPrefix | api/orchestration_users.go:112-137 | users named by the scheme list back under the names they were created with |
| Users.DeleteAllFilesystemUsers | api/orchestration_users.go:95-109 | a listing failure is returned and nothing is deleted; otherwise each listed user is deleted in turn, a failed delete does not stop the loop, and the listed names are returned |
| Users.DeleteEach | api/orchestration_users.go:102-106 | one delete run per listed user, in order |
| Users.GetFilesystemUser | api/orchestration_users.go:140-161 | the filesystem is described, the user is fetched under its path, then its keys are listed; success returns the user's response with those keys |
| Users.NameSchemeAgrees | api/orchestration_users.go:15-161 | create, delete and get use the same IAM name and path for a user |
| Users.RotateKeys | api/orchestration_users.go:181-204 | the old keys are listed, a new key is created, and only then are the old keys deleted; success deletes every listed key |
| Users.DeleteOldKeys | api/orchestration_users.go:194-203 | after the listing and the create, the listed keys are deleted in order until one fails |
| Users.UpdateFilesystemUser | api/orchestration_users.go:164-207 | the filesystem is described first, then the user is fetched as a get does; success answers with the requested user name. With a key reset, success carries the new key and the ids of all old keys. Once the new key is created, a failed old-key delete still returns the response, with that key and no deleted ids, alongside the error |
| Users.NoResetKeepsKeys | api/orchestration_users.go:181 | without a key reset no key is created or deleted |
| Users.CheckMakesNoKeyCalls | api/orchestration_users.go:173-175 | the existence check of an update creates and deletes no key |
| Users.NewKeyBeforeOldKeysGo | api/orchestration_users.go:181-204 | with a key reset, the new key is created before any old key is deleted |
| Users.KeyDeletedAfterCreate | api/orchestration_users.go:188-201 | every key deletion in the rotation is preceded by the create of the new key |
| Users.DeletionsOf | api/orchestration_users.go:196-201 | every call after the create in a rotation is a deletion of a listed key |
| Users.UpdateTagsForUser | api/orchestration_users.go:209-250 | a policy failure is an internal error and a role failure is forbidden, both before any call. Otherwise the filesystem is described and the user `<fsname>-<user>` is tagged with the tags normalised under that name |
| FsCreate.CollectZones | api/orchestration_filesystem.go:855-865 | the loop succeeds exactly when every subnet lookup succeeds, mapping each subnet to its zone; otherwise it fails with some subnet's lookup error |
| FsCreate.SubnetAzs | api/orchestration_filesystem.go:834-872 | policy and role errors are returned as is, then lookup errors. A success maps the requested subnets to their zones, and an empty list is a bad request |
| FsCreate.NoSubnetsNoZone | api/orchestration_filesystem.go:867-869 | no subnets give no usable zone, whatever the lookups would say |
| FsCreate.Validate | api/orchestration_filesystem.go:53-97 | a missing name is refused first, then the lifecycle, transition and backup settings, in that order. Success yields the normalised tags, the key (the request's or the looked-up one) and the normalised settings |
| FsCreate.Place | api/orchestration_filesystem.go:109-131 | a regional filesystem uses all requested subnets, none when the request has none; a One Zone filesystem gets one requested subnet and that subnet's zone, or the lookup's error |
| FsCreate.FilesystemCreate | api/orchestration_filesystem.go:26-340 | policy and role failures are not found, before any validation. The create is sent exactly when validation and placement succeed. A create failure is returned; a success answers with the filesystem's response and hands the task its plan |
| FsCreate.ValidatedBeforeCreate | api/orchestration_filesystem.go:53-134 | nothing is created unless the name is set and all three settings are valid |
| FsCreate.CreateInputShape | api/orchestration_filesystem.go:100-107 | the create asks for an encrypted general-purpose filesystem, tokened by the task, with the chosen key and the normalised tags |
| FsCreate.OneZonePinsOneSubnet | api/orchestration_filesystem.go:114-131 | a One Zone filesystem goes into a single requested subnet, in that subnet's zone; a regional one has no zone |
| FsCreate.NoSubnetsNoMountTargets | api/orchestration_filesystem.go:109-117 | a request without subnets plans no mount targets for a regional filesystem and, for One Zone, is refused as a bad request once validated; a request without security groups gives its mount targets none |
| FsCreate.ResponseShowsRequest | api/orchestration_filesystem.go:339 | the answer reports the settings as validated, and the tags as sent when the service echoes them |
| FsCreateTask.PollFileSystem | api/orchestration_filesystem.go:161-178 | a poll succeeds exactly when the lookup shows the filesystem available |
| FsCreateTask.AwaitAvailable | api/orchestration_filesystem.go:161-181 | the wait makes 1 to 10 polls and succeeds exactly when the last one found the filesystem available and no earlier one did |
| FsCreateTask.CreateMountTargets | api/orchestration_filesystem.go:220-242 | one create per subnet, in subnet order, with the filesystem id and security groups. The loop stops at the first failure, which is the error; success creates one target per subnet |
| FsCreateTask.PollMountTargets | api/orchestration_filesystem.go:245-260 | a poll succeeds exactly when the listing succeeds and every mount target is available |
| FsCreateTask.AwaitMountTargetsReady | api/orchestration_filesystem.go:245-264 | the wait makes 1 to 10 listings and succeeds exactly when the last one found them all available and no earlier one did |
| FsCreateTask.MountTargetIds | api/orchestration_filesystem.go:271-275 | one id per created mount target, in order |
| FsCreateTask.PollAccessPointTask | api/orchestration_filesystem.go:310-331 | a poll succeeds exactly when the access point's task is found completed |
| FsCreateTask.AwaitAccessPointTask | api/orchestration_filesystem.go:310-334 | the wait makes 1 to 10 looks and succeeds exactly when the last look found the task completed |
| FsCreateTask.OneAccessPoint | api/orchestration_filesystem.go:299-335 | an access point fails at its create or at its wait, and succeeds only if its create did |
| FsCreateTask.FirstSome | api/orchestration_filesystem.go:299-335 | the first failing index, with every earlier one succeeding |
| FsCreateTask.AccessPointsFault | api/orchestration_filesystem.go:299-335 | the access points are processed in order until one fails; no failure means every one succeeded |
| FsCreateTask.Configure | api/orchestration_filesystem.go:183-242 | deleting the filesystem is the first registered compensation. Mount targets are created only after the backup and lifecycle settings were applied |
| FsCreateTask.MountTargetsStage | api/orchestration_filesystem.go:220-335 | the mount-target inputs are one per subnet in order. Removing the mount targets is registered only after they were all made and found available |
| FsCreateTask.RemoveMountTargetsResult | api/orchestration_filesystem.go:268-297 | the mount-target compensation returns the first failed delete, or the result of the wait when all deletes succeed |
| FsCreateTask.CreateTask | api/orchestration_filesystem.go:140-337 | a task that fails rolls back its registered compensations in reverse order; one that completes rolls back nothing |
| FsCreateTask.UnavailableFileSystemRollsBackNothing | api/orchestration_filesystem.go:161-181 | a filesystem that never becomes available fails the task with nothing registered, nothing sent and nothing rolled back |
| FsCreateTask.EarlyFailureRemovesOnlyTheFileSystem | api/orchestration_filesystem.go:183-264 | a failure after the wait and up to the mount-target wait rolls back exactly the filesystem delete |
| FsCreateTask.LateFailureRemovesMountTargetsFirst | api/orchestration_filesystem.go:268-335 | a failure among the access points rolls back the mount targets first, then the filesystem |
| FsCreateTask.CompletedTaskMadeOneMountTargetPerSubnet | api/orchestration_filesystem.go:220-242 | a task that completes sent exactly one mount-target create per subnet, in subnet order, and rolls back nothing |
| FsUpdate.NewRules | api/orchestration_filesystem.go:373-400 | the new rules are valid exactly when each requested rule is. An empty field keeps the current rule. A failure names the lifecycle rule when that one is invalid, and the transition otherwise |
| FsUpdate.RulesStep | api/orchestration_filesystem.go:366-402 | the current rules are read only when the request names a rule; a read error is returned as is |
| FsUpdate.FilesystemUpdate | api/orchestration_filesystem.go:342-417 | policy, role and lookup errors are returned as is. A plan is made exactly when the rules and the backup policy validate. The plan holds the filesystem's id, the requested backup, rules exactly when a rule was named, and the tags normalised under the filesystem's name exactly when tags were sent |
| FsUpdate.InvalidSettingsStartNoTask | api/orchestration_filesystem.go:385-411 | an invalid setting is refused with a bad request, so no task starts |
| FsUpdate.RulesReadOnlyWhenNamed | api/orchestration_filesystem.go:366-371 | a request that names no rule does not depend on the current rules at all |
| FsUpdate.Retags | api/orchestration_filesystem.go:502-507 | one retag per listed user, in order, each with the plan's tags |
| FsUpdate.UntilFailure | api/orchestration_filesystem.go:502-507 | the runs are a prefix of the planned ones that stops right after the first failure |
| FsUpdate.UsersStage | api/orchestration_filesystem.go:476-507 | the users are listed only when the role is assumed, and retagged only when the listing succeeds |
| FsUpdate.TagsStage | api/orchestration_filesystem.go:468-507 | the users stage runs only after the filesystem's tags were set |
| FsUpdate.RulesAndTags | api/orchestration_filesystem.go:441-507 | the tags stage runs only after the lifecycle rules, when requested, were set |
| FsUpdate.UpdateTask | api/orchestration_filesystem.go:422-510 | the backup policy is applied first when requested, and a failure ends the task with the source's message |
| FsUpdate.UpdateTaskErrorMeaning | api/orchestration_filesystem.go:422-510 | the task reports no error exactly when every step it attempted succeeded, except that an unassumable users role ends it quietly. The users are listed only after the filesystem's tags were set |
| FsUpdate.OnlyRequestedSettingsApplied | api/orchestration_filesystem.go:432-448 | an empty backup policy is never applied, and the lifecycle rules are set only when the request named one |
| FsUpdate.UnassumableUsersRoleIsSilent | api/orchestration_filesystem.go:479-489 | when the users role cannot be assumed after the filesystem was tagged, the task reports success although no user was listed or retagged |
| FsUpdate.EveryListedUserRetagged | api/orchestration_filesystem.go:496-507 | a task that reports no error after listing the users retagged every listed user, in order, with the plan's tags, and each retag succeeded |
| FsUpdate.ListedUsersAreRetagged | api/orchestration_filesystem.go:496-507 | once the users were listed, the retag loop ran over exactly the listed users |
| FsUpdate.NoFailureRunsAll | api/orchestration_filesystem.go:502-507 | a loop that did not stop at a failure ran every outcome, and all succeeded |
| FsDelete.DeleteAccessPoints | api/orchestration_filesystem.go:567-572 | access points are deleted one at a time, in order. The first error ends the loop and is returned; no error means every one was deleted |
| FsDelete.CheckFileSystem | api/orchestration_filesystem.go:534-548 | a listing error is a bad request caused by it; a filesystem outside the listing is not found; a lookup error is returned as is; a filesystem that is not available is a conflict |
| FsDelete.CheckMountTargets | api/orchestration_filesystem.go:550-560 | a listing error is returned as is. The check passes exactly when every mount target is available; otherwise the first unavailable one is a conflict |
| FsDelete.FilesystemDelete | api/orchestration_filesystem.go:515-577 | policy and role errors are returned as is. Access points are deleted only after the filesystem and all its mount targets passed the checks. The task starts exactly when all checks and deletes succeed, and deletes the described filesystem |
| FsDelete.MissingFileSystemNotFound | api/orchestration_filesystem.go:534-538 | a filesystem outside the tenant's listing is not found, and nothing is deleted |
| FsDelete.BusyFileSystemConflicts | api/orchestration_filesystem.go:545-560 | a filesystem, or one of its mount targets, that is not available is a conflict, and no access point is deleted |
| FsDelete.DeleteTask | api/orchestration_filesystem.go:576-674 | policy and role errors end the task. Then every user of the filesystem is deleted: a listing error ends the task, but a user that cannot be deleted does not. Then the filesystem is torn down, and the teardown's error is the task's |
| FsDelete.FileSystemDeletedLast | api/orchestration_filesystem.go:576-674 | the filesystem is deleted only after its users were listed and each was attempted, every mount target was deleted, and a poll showed none left. A task with no error deleted it |
| Teardown.FirstUnavailable | api/orchestration_filesystem.go:555-560 | the index of the first mount target that is not available, or None exactly when all are available |
| Teardown.DeleteMountTargets | efs/orchestration.go:48-56 | the loop deletes, in order, a prefix of the listed targets. It stops at the first target that is not available, before deleting it, or at the first failed delete, and reports that error. No error means every target was available and deleted |
| Teardown.PollCount | efs/orchestration.go:58-71 | a poll succeeds exactly when the filesystem reports no mount targets; a lookup error is returned as is |
| Teardown.AwaitNoMountTargets | efs/orchestration.go:58-73 | the wait makes 1 to 10 polls and succeeds exactly when the last one showed no mount targets and no earlier one did |
| Teardown.DeleteWithRetries | efs/orchestration.go:75-84 | 1 to 3 delete attempts; success exactly when the last attempt succeeded and every earlier one failed; a failure returns the last attempt's error |
| Teardown.DeleteFileSystemO | efs/orchestration.go:40-87 | a listing error ends the teardown before anything is deleted. The wait runs only after every mount target was deleted, and the filesystem delete only after a poll showed none left. The teardown succeeds exactly when a delete attempt succeeded, with at most 10 polls and 3 attempts |
| Teardown.AfterListing | efs/orchestration.go:48-86 | the wait starts exactly when every listed mount target was deleted; the filesystem delete follows only a poll that showed none left; at most 10 polls and 3 delete attempts |
| Teardown.WaitAndDelete | efs/orchestration.go:58-86 | the delete is attempted exactly when the wait saw the mount targets gone |
| Teardown.DeletedOnlyWhenEmptied | efs/orchestration.go:40-87 | the filesystem is deleted only after every listed mount target was available and deleted and a poll showed none left |
| Teardown.AllMountTargetsDeleted | efs/orchestration.go:48-56 | when every listed target is available and deletes cleanly, the loop deletes them all |
| Teardown.CleanTeardown | efs/orchestration.go:40-87 | with a cooperative service the teardown deletes every mount target, polls once, deletes the filesystem once and succeeds |
| Teardown.MountTargetsThatStay | efs/orchestration.go:58-73 | mount targets that never go away keep the filesystem: ten polls, no delete attempt, and an error |

## Left out

- Logging, the flywheel task tracker (`startTask`, task check-ins, messages and the task's
  failure text), contexts, timeouts and goroutines are not modelled. A task's outcome is
  the error it sends, or None when it ends without one.
- The sleeps of `retry` are modelled as the list of pauses it takes, not as time. The
  `rollBack` timeout of 120 seconds is not modelled: every task runs.
- Role assumption, policy generation (`generatePolicy`, the user policies of
  `api/policy.go`) and the access policy of a filesystem (`AccessPolicy`,
  `efsPolicyFromFileSystemAccessPolicy`, `SetFileSystemPolicy`) are left out. Their
  outcomes enter as parameters (`policyErr`, `assumeErr`). The access-policy step of the
  create and update tasks is not modelled. Neither `FileSystemCreateRequest`
  (`api/types.go:30-64`) nor the update request type in this revision carries an
  `AccessPolicy` field, though the create reads one (`api/orchestration_filesystem.go:203-213`).
- The IAM client of the shared aws-go library is not part of this model. Its calls
  (create, wait, tag, list, delete, and so on) are parameters answering with that client's
  own result, error messages included.
- The SDK's ARN parser is modelled by its documented rule: the `arn:` prefix, then a
  split on `:` into at most six sections. Its error texts are not modelled.
- The KMS key lookup used by a create is taken as a parameter (`Kms.Lookup`).
- FsCreate.FilesystemCreate: requires that the KMS tag scan does not panic. The source
  indexes the third `:`-separated segment of a matching tag key without checking it
  exists, so a malformed tag crashes the request. `Kms.ScanTagsMeaning` states exactly
  when that happens.
- The KMS key tag list and the org are parameters, not read from configuration. The EFS
  client's default subnets and security groups are built from the request's own lists
  (`api/orchestration_filesystem.go:48-51`), so falling back to them gives the same nil
  list. A request without subnets or security groups is therefore modelled as having none.
- Tags.NormalizeTags: nil tag elements are not modelled; a `seq<Tag>` has no nil element.
  The source panics when it reads such an element's key (`api/tags.go:23-24`).
- `api/orchestration.go` is an older revision of the same workflows and is not modelled.
  Only one of the two identical `fileSystemExists` implementations is modelled: the
  listing of either revision is passed to `Resolver.FileSystemExists`.
- Calls in the source whose argument counts do not match their callee's signature are
  modelled by what they evidently do. Examples are `accessPointCreate` from the create
  task, `listFilesystemUsers` from the update task and `deleteAllFilesystemUsers` from the
  delete task.
- The delete task repeats the steps of `DeleteFileSystemO` inline (list, delete each
  available mount target, wait for the count to reach zero, delete with retries). It is
  modelled by `Teardown.DeleteFileSystemO` with the task's own clients.
- Teardown.DeleteFileSystemO: the wait and the delete draw their jitter from two separate
  random streams rather than one shared `rand` source. This is equivalent, since each
  draw is only constrained to its range.
- Integer widths: mount-target counts and sizes are unbounded integers. The source's
  `int64` values never approach their limits here.
- `ApiTypes.UserPath` builds the path with a join of its segments rather than with a
  format string; the two are the same text.
- Handlers, routes, the server's setup, `main.go` and the configuration loader are outside
  the core and are not modelled.
