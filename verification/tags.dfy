/** API tags, their normalisation, and their conversion to and from the SDK tag shapes. */
module Tags {
  import opened Wrappers
  import opened Strs

  /** An API tag. */
  datatype Tag = Tag(key: string, value: string)

  /** An SDK tag (the EFS and the IAM SDK share this shape): both fields may be nil. */
  datatype SdkTag = SdkTag(key: Option<string>, value: Option<string>)

  const NameKey := "Name"
  const OrgKey := "spinup:org"
  const SpaceKey := "spinup:spaceid"
  const AwsPrefix := "aws:"
  const ResourceNameKey := "ResourceName"

  /** Keys the server always sets itself. */
  predicate IsReservedKey(k: string) {
    k == SpaceKey || k == OrgKey || k == NameKey
  }

  /** Tags that normalisation drops: reserved keys and provider (`aws:`) keys. */
  predicate IsDropped(t: Tag) {
    IsReservedKey(t.key) || HasPrefix(t.key, AwsPrefix)
  }

  /** The client tags normalisation keeps, in their original order. */
  function Kept(tags: seq<Tag>): (r: seq<Tag>)
    ensures |r| <= |tags|
    ensures forall i :: 0 <= i < |r| ==> !IsDropped(r[i]) && r[i] in tags
    decreases |tags|
  {
    if |tags| == 0 then []
    else if IsDropped(tags[0]) then Kept(tags[1..])
    else [tags[0]] + Kept(tags[1..])
  }

  /** The three tags the server appends, in this order. */
  function ServerTags(org: string, name: string, group: string): seq<Tag> {
    [Tag(NameKey, name), Tag(OrgKey, org), Tag(SpaceKey, group)]
  }

  /** `normalizeTags(org, name, group, tags)`: the kept client tags followed by Name=name,
      spinup:org=org and spinup:spaceid=group. */
  function NormalizeTags(org: string, name: string, group: string, tags: seq<Tag>): (r: seq<Tag>)
    ensures |r| >= 3
    ensures r[|r| - 3] == Tag(NameKey, name)
    ensures r[|r| - 2] == Tag(OrgKey, org)
    ensures r[|r| - 1] == Tag(SpaceKey, group)
    ensures forall i :: 0 <= i < |r| - 3 ==> !IsDropped(r[i])
  {
    Kept(tags) + ServerTags(org, name, group)
  }

  /** Number of tags in `tags` whose key is `k`. */
  function CountKey(tags: seq<Tag>, k: string): nat
    decreases |tags|
  {
    if |tags| == 0 then 0
    else (if tags[0].key == k then 1 else 0) + CountKey(tags[1..], k)
  }

  lemma {:induction false} CountKeyAppend(a: seq<Tag>, b: seq<Tag>, k: string)
    ensures CountKey(a + b, k) == CountKey(a, k) + CountKey(b, k)
    decreases |a|
  {
    if |a| == 0 {
      assert a + b == b;
    } else {
      assert (a + b)[1..] == a[1..] + b;
      CountKeyAppend(a[1..], b, k);
    }
  }

  lemma {:induction false} KeptHasNoReservedKey(tags: seq<Tag>, k: string)
    requires IsReservedKey(k)
    ensures CountKey(Kept(tags), k) == 0
    decreases |tags|
  {
    if |tags| > 0 {
      KeptHasNoReservedKey(tags[1..], k);
      if !IsDropped(tags[0]) {
        CountKeyAppend([tags[0]], Kept(tags[1..]), k);
      }
    }
  }

  /** Whatever the client sent, a normalised list holds exactly one Name, one spinup:org and
      one spinup:spaceid tag. */
  lemma NormalizedHasOneOfEachReservedKey(org: string, name: string, group: string, tags: seq<Tag>)
    ensures CountKey(NormalizeTags(org, name, group, tags), NameKey) == 1
    ensures CountKey(NormalizeTags(org, name, group, tags), OrgKey) == 1
    ensures CountKey(NormalizeTags(org, name, group, tags), SpaceKey) == 1
  {
    var server := ServerTags(org, name, group);
    forall k | IsReservedKey(k)
      ensures CountKey(NormalizeTags(org, name, group, tags), k) == 1
    {
      KeptHasNoReservedKey(tags, k);
      CountKeyAppend(Kept(tags), server, k);
      ServerTagsCount(org, name, group, k);
    }
  }

  /** No normalised tag has a provider-reserved `aws:` key. */
  lemma NormalizedHasNoAwsKey(org: string, name: string, group: string, tags: seq<Tag>)
    ensures forall i :: 0 <= i < |NormalizeTags(org, name, group, tags)| ==>
              !HasPrefix(NormalizeTags(org, name, group, tags)[i].key, AwsPrefix)
  {
    var r := NormalizeTags(org, name, group, tags);
    assert !HasPrefix(NameKey, AwsPrefix) by { assert NameKey[..4] != AwsPrefix; }
    assert !HasPrefix(OrgKey, AwsPrefix) by { assert OrgKey[0] != AwsPrefix[0]; }
    assert !HasPrefix(SpaceKey, AwsPrefix) by { assert SpaceKey[0] != AwsPrefix[0]; }
  }

  /** `sub` is `s` with some elements left out, the rest in their original order. */
  predicate IsSubsequence(sub: seq<Tag>, s: seq<Tag>)
    decreases |s|
  {
    if |sub| == 0 then true
    else if |s| == 0 then false
    else if sub[0] == s[0] then IsSubsequence(sub[1..], s[1..])
    else IsSubsequence(sub, s[1..])
  }

  /** The kept tags keep their relative order, and every tag that is not dropped is kept:
      there are exactly as many as there are non-dropped input tags. */
  lemma {:induction false} KeptIsOrderedSelection(tags: seq<Tag>)
    ensures IsSubsequence(Kept(tags), tags)
    ensures forall t :: t in tags && !IsDropped(t) ==> t in Kept(tags)
    ensures |Kept(tags)| == CountKept(tags)
    decreases |tags|
  {
    if |tags| > 0 {
      KeptIsOrderedSelection(tags[1..]);
      forall t | t in tags && !IsDropped(t)
        ensures t in Kept(tags)
      {
        if t != tags[0] {
          assert t in tags[1..];
        }
      }
    }
  }

  /** Number of input tags normalisation keeps, counted independently of `Kept`. */
  function CountKept(tags: seq<Tag>): nat
    decreases |tags|
  {
    if |tags| == 0 then 0
    else (if IsDropped(tags[0]) then 0 else 1) + CountKept(tags[1..])
  }

  /** The normalised list has |kept| + 3 tags: nothing else is added. */
  lemma NormalizedLength(org: string, name: string, group: string, tags: seq<Tag>)
    ensures |NormalizeTags(org, name, group, tags)| == CountKept(tags) + 3
  {
    KeptIsOrderedSelection(tags);
  }

  lemma {:induction false} KeptAppend(a: seq<Tag>, b: seq<Tag>)
    ensures Kept(a + b) == Kept(a) + Kept(b)
    decreases |a|
  {
    if |a| == 0 {
      assert a + b == b;
    } else {
      assert (a + b)[1..] == a[1..] + b;
      KeptAppend(a[1..], b);
    }
  }

  lemma {:induction false} KeptIdempotent(tags: seq<Tag>)
    ensures Kept(Kept(tags)) == Kept(tags)
    decreases |tags|
  {
    if |tags| > 0 {
      KeptIdempotent(tags[1..]);
      if !IsDropped(tags[0]) {
        KeptAppend([tags[0]], Kept(tags[1..]));
        assert Kept([tags[0]]) == [tags[0]];
      }
    }
  }

  lemma ServerTagsDropped(org: string, name: string, group: string)
    ensures Kept(ServerTags(org, name, group)) == []
  {
    var s := ServerTags(org, name, group);
    assert s[1..] == [Tag(OrgKey, org), Tag(SpaceKey, group)];
    assert s[1..][1..] == [Tag(SpaceKey, group)];
    assert s[1..][1..][1..] == [];
    assert Kept(s[1..][1..]) == [];
    assert Kept(s[1..]) == [];
  }

  /** Each reserved key occurs exactly once among the server tags. */
  lemma ServerTagsCount(org: string, name: string, group: string, k: string)
    requires IsReservedKey(k)
    ensures CountKey(ServerTags(org, name, group), k) == 1
  {
    var s := ServerTags(org, name, group);
    assert s[1..] == [Tag(OrgKey, org), Tag(SpaceKey, group)];
    assert s[1..][1..] == [Tag(SpaceKey, group)];
    assert s[1..][1..][1..] == [];
    assert |NameKey| == 4 && |OrgKey| == 10 && |SpaceKey| == 14;
    var c2 := if SpaceKey == k then 1 else 0;
    var c1 := (if OrgKey == k then 1 else 0) + c2;
    assert CountKey(s[1..][1..], k) == c2;
    assert CountKey(s[1..], k) == c1;
    assert CountKey(s, k) == (if NameKey == k then 1 else 0) + c1;
  }

  /** Normalising an already normalised list changes nothing. */
  lemma NormalizeIdempotent(org: string, name: string, group: string, tags: seq<Tag>)
    ensures NormalizeTags(org, name, group, NormalizeTags(org, name, group, tags)) ==
            NormalizeTags(org, name, group, tags)
  {
    KeptAppend(Kept(tags), ServerTags(org, name, group));
    KeptIdempotent(tags);
    ServerTagsDropped(org, name, group);
    assert Kept(tags) + [] == Kept(tags);
  }

  /** The three cases of the source's unit test. */
  lemma NormalizeExamples()
    ensures NormalizeTags("testOrg", "", "", []) ==
            [Tag("Name", ""), Tag("spinup:org", "testOrg"), Tag("spinup:spaceid", "")]
    ensures NormalizeTags("testOrg", "SomeFS", "MySpace", []) ==
            [Tag("Name", "SomeFS"), Tag("spinup:org", "testOrg"), Tag("spinup:spaceid", "MySpace")]
    ensures NormalizeTags("testOrg", "SomeFS1", "MySpace",
              [Tag("Name", "SomeOtherFSName"), Tag("spinup:org", "SomeOtherOrgName"),
               Tag("spinup:spaceid", "SomeOtherSpaceID")]) ==
            [Tag("Name", "SomeFS1"), Tag("spinup:org", "testOrg"), Tag("spinup:spaceid", "MySpace")]
  {
    var client := [Tag("Name", "SomeOtherFSName"), Tag("spinup:org", "SomeOtherOrgName"),
                   Tag("spinup:spaceid", "SomeOtherSpaceID")];
    assert client[1..][1..][1..] == [];
    assert Kept(client) == [];
  }

  /** `fromEFSTags` / `fromIAMTags`: nil keys and values read as "". */
  function FromSdkTags(sdk: seq<SdkTag>): (tags: seq<Tag>)
    ensures |tags| == |sdk|
    decreases |sdk|
  {
    if |sdk| == 0 then []
    else [Tag(sdk[0].key.GetOr(""), sdk[0].value.GetOr(""))] + FromSdkTags(sdk[1..])
  }

  /** `toEFSTags` / `toIAMTags`: every field is set. */
  function ToSdkTags(tags: seq<Tag>): (sdk: seq<SdkTag>)
    ensures |sdk| == |tags|
    decreases |tags|
  {
    if |tags| == 0 then []
    else [SdkTag(Some(tags[0].key), Some(tags[0].value))] + ToSdkTags(tags[1..])
  }

  /** An SDK tag list without nil fields. */
  predicate AllSet(sdk: seq<SdkTag>) {
    forall i :: 0 <= i < |sdk| ==> sdk[i].key.Some? && sdk[i].value.Some?
  }

  /** Converting to the SDK shape and back is the identity. */
  lemma {:induction false} FromToRoundTrip(tags: seq<Tag>)
    ensures FromSdkTags(ToSdkTags(tags)) == tags
    decreases |tags|
  {
    if |tags| > 0 {
      FromToRoundTrip(tags[1..]);
    }
  }

  /** Converting from the SDK shape and back is the identity exactly when no field is nil. */
  lemma {:induction false} ToFromRoundTrip(sdk: seq<SdkTag>)
    ensures ToSdkTags(FromSdkTags(sdk)) == sdk <==> AllSet(sdk)
    ensures AllSet(ToSdkTags(FromSdkTags(sdk)))
    decreases |sdk|
  {
    if |sdk| > 0 {
      ToFromRoundTrip(sdk[1..]);
      var r := ToSdkTags(FromSdkTags(sdk));
      assert r[0] == SdkTag(Some(sdk[0].key.GetOr("")), Some(sdk[0].value.GetOr("")));
      assert r[1..] == ToSdkTags(FromSdkTags(sdk[1..]));
      if AllSet(sdk) {
        assert AllSet(sdk[1..]) by {
          forall i | 0 <= i < |sdk[1..]| ensures sdk[1..][i].key.Some? && sdk[1..][i].value.Some? {
            assert sdk[1..][i] == sdk[i + 1];
          }
        }
      }
      if r == sdk {
        assert r[1..] == sdk[1..];
        forall i | 0 <= i < |sdk| ensures sdk[i].key.Some? && sdk[i].value.Some? {
          if i > 0 { assert sdk[i] == sdk[1..][i - 1]; }
        }
      }
      forall i | 0 <= i < |r| ensures r[i].key.Some? && r[i].value.Some? {
        if i > 0 { assert r[i] == r[1..][i - 1]; }
      }
    }
  }

  /** The conversions work element by element: the i-th output tag is the i-th input tag. */
  lemma {:induction false} FromSdkTagsPointwise(sdk: seq<SdkTag>, i: nat)
    requires i < |sdk|
    ensures FromSdkTags(sdk)[i] == Tag(sdk[i].key.GetOr(""), sdk[i].value.GetOr(""))
    decreases i
  {
    if i > 0 {
      FromSdkTagsPointwise(sdk[1..], i - 1);
    }
  }
}
