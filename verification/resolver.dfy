/** Finding the filesystems of an org and a space through the resource tagging service:
    `filesystemList` / `listFileSystems` turn the tagged resources into filesystem ids and
    `fileSystemExists` checks an id against that list. */
module Resolver {
  import opened Wrappers
  import opened ApiErrors
  import opened Tags
  import opened Arns
  import Strs

  datatype TagFilter = TagFilter(key: string, values: seq<string>)
  datatype TaggedResource = TaggedResource(resourceArn: Option<string>, tags: seq<SdkTag>)

  /** The resource type asked for and the resource prefix of a filesystem in its ARN. */
  const ResourceType := "elasticfilesystem"
  const FileSystemPrefix := "file-system/"

  /** The tag filters of a listing: always the org, and the space when a group is given. */
  function TagFiltersFor(org: string, group: string): (filters: seq<TagFilter>)
    ensures |filters| >= 1 && filters[0] == TagFilter(OrgKey, [org])
    ensures group == "" <==> |filters| == 1
    ensures group != "" ==> |filters| == 2 && filters[1] == TagFilter(SpaceKey, [group])
  {
    [TagFilter(OrgKey, [org])] + (if group != "" then [TagFilter(SpaceKey, [group])] else [])
  }

  /** The id prefixed with `<space>/` once for each space tag, in tag order. */
  function PrefixWithSpaces(tags: seq<SdkTag>, fsid: string): string
    decreases |tags|
  {
    if |tags| == 0 then fsid
    else
      var next := if tags[0].key.GetOr("") == SpaceKey then tags[0].value.GetOr("") + "/" + fsid else fsid;
      PrefixWithSpaces(tags[1..], next)
  }

  /** What one tagged resource adds to the list: its raw ARN when the ARN does not parse,
      nothing when it is not a filesystem, and otherwise its id, prefixed with its space
      when no group was asked for. */
  function EntriesFor(res: TaggedResource, group: string): (es: seq<string>)
    ensures |es| <= 1
    ensures ParseArn(res.resourceArn.GetOr("")).None? ==> es == [res.resourceArn.GetOr("")]
  {
    var raw := res.resourceArn.GetOr("");
    match ParseArn(raw)
    case None => [raw]
    case Some(a) =>
      if !Strs.HasPrefix(a.resource, FileSystemPrefix) then []
      else
        var fsid := Strs.TrimPrefix(a.resource, FileSystemPrefix);
        [if group == "" then PrefixWithSpaces(res.tags, fsid) else fsid]
  }

  /** The entries of all resources, in the order the service returned them. */
  function ListedEntries(resources: seq<TaggedResource>, group: string): (list: seq<string>)
    ensures |list| <= |resources|
    decreases |resources|
  {
    if |resources| == 0 then [] else EntriesFor(resources[0], group) + ListedEntries(resources[1..], group)
  }

  /** `filesystemList`: a failed role assumption or tagging query is returned as is;
      otherwise the entries of the resources the query for the org's (and the group's)
      tags returns. `assumed` is the first error of the two steps before the query, the
      policy generation and the role assumption; both are returned unchanged. */
  function FilesystemList(org: string, group: string, assumed: Option<Error>,
                          getResources: (string, seq<TagFilter>) -> Result<seq<TaggedResource>, Error>)
    : (r: Result<seq<string>, Error>)
    ensures assumed.Some? ==> r == Failure(assumed.value)
    ensures assumed.None? && getResources(ResourceType, TagFiltersFor(org, group)).Failure? ==>
              r == Failure(getResources(ResourceType, TagFiltersFor(org, group)).error)
    ensures assumed.None? && getResources(ResourceType, TagFiltersFor(org, group)).Success? ==>
              r == Success(ListedEntries(getResources(ResourceType, TagFiltersFor(org, group)).value, group))
  {
    if assumed.Some? then Failure(assumed.value)
    else
      match getResources(ResourceType, TagFiltersFor(org, group))
      case Failure(e) => Failure(e)
      case Success(resources) => Success(ListedEntries(resources, group))
  }

  /** `listFileSystems`: the same listing through the tagging client configured for the
      account; an account without one is NotFound. */
  function ListFileSystems(accounts: set<string>, account: string, org: string, group: string,
                           getResources: (string, seq<TagFilter>) -> Result<seq<TaggedResource>, Error>)
    : (r: Result<seq<string>, Error>)
    ensures account !in accounts ==> r == Failure(Plain(NotFound, "account not found"))
    ensures account in accounts ==> r == FilesystemList(org, group, None, getResources)
  {
    if account !in accounts then Failure(Plain(NotFound, "account not found"))
    else FilesystemList(org, group, None, getResources)
  }

  /** The filesystem id an entry stands for: the resource of an ARN without its prefix, or
      the entry itself. */
  function EntryId(f: string): string {
    match ParseArn(f)
    case Some(a) => Strs.TrimPrefix(a.resource, FileSystemPrefix)
    case None => f
  }

  function AnyEntryIs(list: seq<string>, fs: string): (found: bool)
    ensures found <==> exists i :: 0 <= i < |list| && EntryId(list[i]) == fs
  {
    if |list| == 0 then false
    else EntryId(list[0]) == fs || AnyEntryIs(list[1..], fs)
  }

  /** `fileSystemExists`: a listing error is returned as is; otherwise whether some entry
      stands for the id. */
  function FileSystemExists(list: Result<seq<string>, Error>, fs: string): (r: Result<bool, Error>)
    ensures list.Failure? ==> r == Failure(list.error)
    ensures list.Success? ==> r.Success? && (r.value <==> exists i :: 0 <= i < |list.value| && EntryId(list.value[i]) == fs)
  {
    match list
    case Failure(e) => Failure(e)
    case Success(entries) => Success(AnyEntryIs(entries, fs))
  }

  /** The ARN of a filesystem in an account. */
  function FileSystemArn(partition: string, region: string, account: string, fs: string): Arn {
    Arn(partition, "elasticfilesystem", region, account, FileSystemPrefix + fs)
  }

  /** Each resource's entries sit inside the listing. */
  lemma {:induction false} EntriesAreListed(resources: seq<TaggedResource>, group: string, i: nat, e: string)
    requires i < |resources| && e in EntriesFor(resources[i], group)
    ensures e in ListedEntries(resources, group)
    decreases |resources|
  {
    if i > 0 {
      assert resources[1..][i - 1] == resources[i];
      EntriesAreListed(resources[1..], group, i - 1, e);
    }
  }

  /** A filesystem tagged into the group is found by `fileSystemExists` on the group's
      listing. */
  lemma ListedFileSystemExists(resources: seq<TaggedResource>, group: string, i: nat,
                               partition: string, region: string, account: string, fs: string)
    requires group != "" && i < |resources|
    requires ':' !in partition && ':' !in region && ':' !in account
    requires resources[i].resourceArn == Some(ArnString(FileSystemArn(partition, region, account, fs)))
    requires !IsArn(fs)
    ensures FileSystemExists(Success(ListedEntries(resources, group)), fs) == Success(true)
  {
    var a := FileSystemArn(partition, region, account, fs);
    ParseArnString(a);
    Strs.TrimPrefixOfConcat(FileSystemPrefix, fs);
    assert EntriesFor(resources[i], group) == [fs];
    EntriesAreListed(resources, group, i, fs);
    var list := ListedEntries(resources, group);
    var k :| 0 <= k < |list| && list[k] == fs;
    assert EntryId(list[k]) == fs;
  }

  /** A tagged resource that is not a filesystem, such as an access point, adds nothing. */
  lemma OtherResourcesAreSkipped(res: TaggedResource, group: string, a: Arn)
    requires ParseArn(res.resourceArn.GetOr("")) == Some(a)
    requires !Strs.HasPrefix(a.resource, FileSystemPrefix)
    ensures EntriesFor(res, group) == []
  {
  }

  /** Without a group, a filesystem with one space tag is listed as `<space>/<id>`. */
  lemma UngroupedEntryNamesItsSpace(tags: seq<SdkTag>, fsid: string, k: nat)
    requires k < |tags| && tags[k].key == Some(SpaceKey)
    requires forall j :: 0 <= j < |tags| && j != k ==> tags[j].key.GetOr("") != SpaceKey
    ensures PrefixWithSpaces(tags, fsid) == tags[k].value.GetOr("") + "/" + fsid
  {
    var s := tags[k].value.GetOr("") + "/" + fsid;
    var rest := [tags[k]] + tags[k + 1..];
    assert tags == tags[..k] + rest;
    PrefixWithoutSpaces(tags[..k], fsid);
    PrefixAppend(tags[..k], rest, fsid);
    assert rest[1..] == tags[k + 1..];
    PrefixWithoutSpaces(tags[k + 1..], s);
    assert PrefixWithSpaces(rest, fsid) == PrefixWithSpaces(tags[k + 1..], s);
  }

  /** Tags without a space tag leave the id alone. */
  lemma {:induction false} PrefixWithoutSpaces(tags: seq<SdkTag>, fsid: string)
    requires forall j :: 0 <= j < |tags| ==> tags[j].key.GetOr("") != SpaceKey
    ensures PrefixWithSpaces(tags, fsid) == fsid
    decreases |tags|
  {
    if |tags| > 0 {
      PrefixWithoutSpaces(tags[1..], fsid);
    }
  }

  lemma {:induction false} PrefixAppend(a: seq<SdkTag>, b: seq<SdkTag>, fsid: string)
    ensures PrefixWithSpaces(a + b, fsid) == PrefixWithSpaces(b, PrefixWithSpaces(a, fsid))
    decreases |a|
  {
    if |a| == 0 {
      assert a + b == b;
    } else {
      assert (a + b)[1..] == a[1..] + b;
      var next := if a[0].key.GetOr("") == SpaceKey then a[0].value.GetOr("") + "/" + fsid else fsid;
      PrefixAppend(a[1..], b, next);
    }
  }
}
