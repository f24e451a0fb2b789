/** The KMS key lookups (package `kms`): finding the key whose tags match the configured
    tag keys, and resolving a key alias. The service's answers are parameters: the key
    listing, the tags listed for each key id, and the alias listing. */
module Kms {
  import opened Wrappers
  import opened ApiErrors
  import Strs

  datatype KmsTag = KmsTag(tagKey: Option<string>, tagValue: Option<string>)
  datatype Alias = Alias(aliasName: Option<string>, targetKeyId: Option<string>)

  /** The outcome of a lookup. A matching tag key with fewer than three `:`-separated
      segments makes the source index past the end of its split, which panics. */
  datatype Lookup = Found(keyId: string) | Failed(err: Error) | Panicked

  /** `hasInputTags(search, keys)`. */
  function HasInputTags(search: string, keys: seq<string>): (r: bool)
    ensures r <==> search in keys
  {
    if |keys| == 0 then false
    else if keys[0] == search then true
    else HasInputTags(search, keys[1..])
  }

  /** The tag key as the loop reads it (`aws.StringValue`). */
  function KeyOf(t: KmsTag): string {
    t.tagKey.GetOr("")
  }

  /** A tag whose key is one of the input tag keys. */
  predicate Matching(t: KmsTag, inputTags: seq<string>) {
    KeyOf(t) in inputTags
  }

  /** A matching tag the source cannot split into three segments. */
  predicate Malformed(t: KmsTag, inputTags: seq<string>) {
    Matching(t, inputTags) && |Strs.Split(KeyOf(t), ':')| < 3
  }

  /** A matching tag that counts toward the key: its third segment is not `org`, or it is
      and the tag's value is the API's org. */
  predicate Counted(t: KmsTag, inputTags: seq<string>, org: string) {
    && Matching(t, inputTags)
    && |Strs.Split(KeyOf(t), ':')| >= 3
    && (Strs.Split(KeyOf(t), ':')[2] != "org" || t.tagValue.GetOr("") == org)
  }

  /** How many of `tags` count toward the key. */
  function CountAccepted(tags: seq<KmsTag>, inputTags: seq<string>, org: string): nat
  {
    if |tags| == 0 then 0
    else CountAccepted(tags[..|tags| - 1], inputTags, org) + (if Counted(tags[|tags| - 1], inputTags, org) then 1 else 0)
  }

  /** A key is selected when, at some matching tag, the tags counted so far number exactly
      as many as the input tag keys. */
  ghost predicate KeyQualifies(tags: seq<KmsTag>, inputTags: seq<string>, org: string) {
    exists j :: 0 <= j < |tags| && Matching(tags[j], inputTags) &&
                CountAccepted(tags[..j + 1], inputTags, org) == |inputTags|
  }

  /** The inner loop over one key's tags from position `i`, with `found` tags counted and
      `hit` recording whether the count has reached the target: None when it panics. */
  function ScanTags(tags: seq<KmsTag>, inputTags: seq<string>, org: string, i: nat, found: nat, hit: bool)
    : Option<bool>
    requires i <= |tags|
    decreases |tags| - i
  {
    if i == |tags| then Some(hit)
    else if !HasInputTags(KeyOf(tags[i]), inputTags) then ScanTags(tags, inputTags, org, i + 1, found, hit)
    else
      var parts := Strs.Split(KeyOf(tags[i]), ':');
      if |parts| < 3 then None
      else
        var f := found + (if parts[2] != "org" || tags[i].tagValue.GetOr("") == org then 1 else 0);
        ScanTags(tags, inputTags, org, i + 1, f, hit || f == |inputTags|)
  }

  /** The tag loop panics exactly when a matching tag is malformed; otherwise it selects the
      key exactly when the key qualifies. */
  lemma {:induction false} ScanTagsMeaning(tags: seq<KmsTag>, inputTags: seq<string>, org: string, i: nat, found: nat, hit: bool)
    requires i <= |tags|
    requires found == CountAccepted(tags[..i], inputTags, org)
    requires hit <==> exists j :: 0 <= j < i && Matching(tags[j], inputTags) &&
                                 CountAccepted(tags[..j + 1], inputTags, org) == |inputTags|
    requires forall j :: 0 <= j < i ==> !Malformed(tags[j], inputTags)
    ensures ScanTags(tags, inputTags, org, i, found, hit).None? <==>
              exists j :: i <= j < |tags| && Malformed(tags[j], inputTags)
    ensures ScanTags(tags, inputTags, org, i, found, hit).Some? ==>
              (ScanTags(tags, inputTags, org, i, found, hit).value <==> KeyQualifies(tags, inputTags, org))
    decreases |tags| - i
  {
    if i == |tags| {
      assert tags[..i] == tags;
    } else {
      assert tags[..i + 1][..i] == tags[..i];
      var t := tags[i];
      var f := found + (if Counted(t, inputTags, org) then 1 else 0);
      assert CountAccepted(tags[..i + 1], inputTags, org) == f;
      if !Matching(t, inputTags) {
        var h := hit;
        assert h <==> exists j :: 0 <= j < i + 1 && Matching(tags[j], inputTags) &&
                                 CountAccepted(tags[..j + 1], inputTags, org) == |inputTags|;
        ScanTagsMeaning(tags, inputTags, org, i + 1, f, h);
      } else if Malformed(t, inputTags) {
      } else {
        var h := hit || f == |inputTags|;
        assert h <==> exists j :: 0 <= j < i + 1 && Matching(tags[j], inputTags) &&
                                 CountAccepted(tags[..j + 1], inputTags, org) == |inputTags|;
        ScanTagsMeaning(tags, inputTags, org, i + 1, f, h);
      }
    }
  }

  /** The outer loop over the keys: the id of the last selected key, `target` when none is;
      the first tag-listing error or panic stops it. */
  function ScanKeys(keys: seq<Option<string>>, listTags: Option<string> -> Result<seq<KmsTag>, ProviderError>,
                    inputTags: seq<string>, org: string, target: string): Lookup
    decreases |keys|
  {
    if |keys| == 0 then Found(target)
    else
      match listTags(keys[0])
      case Failure(e) => Failed(Provider(e))
      case Success(tags) =>
        match ScanTags(tags, inputTags, org, 0, 0, false)
        case None => Panicked
        case Some(hit) => ScanKeys(keys[1..], listTags, inputTags, org, if hit then keys[0].GetOr("") else target)
  }

  /** Every key's tags were listed and none made the loop panic. */
  ghost predicate ScanSucceeds(keys: seq<Option<string>>, listTags: Option<string> -> Result<seq<KmsTag>, ProviderError>,
                               inputTags: seq<string>) {
    forall i :: 0 <= i < |keys| ==>
      listTags(keys[i]).Success? &&
      forall j :: 0 <= j < |listTags(keys[i]).value| ==> !Malformed(listTags(keys[i]).value[j], inputTags)
  }

  /** Key `i` qualifies. */
  ghost predicate Selected(keys: seq<Option<string>>, listTags: Option<string> -> Result<seq<KmsTag>, ProviderError>,
                           inputTags: seq<string>, org: string, i: int)
    requires ScanSucceeds(keys, listTags, inputTags)
  {
    0 <= i < |keys| && KeyQualifies(listTags(keys[i]).value, inputTags, org)
  }

  /** When every key's tags are read without a panic, the loop ends with the id of the last
      qualifying key, or with `target` when no key qualifies. */
  lemma {:induction false} ScanKeysPicksLastQualifying(keys: seq<Option<string>>,
                                                      listTags: Option<string> -> Result<seq<KmsTag>, ProviderError>,
                                                      inputTags: seq<string>, org: string, target: string)
    requires ScanSucceeds(keys, listTags, inputTags)
    ensures ScanKeys(keys, listTags, inputTags, org, target).Found?
    ensures (forall i :: !Selected(keys, listTags, inputTags, org, i)) ==>
              ScanKeys(keys, listTags, inputTags, org, target) == Found(target)
    ensures forall i :: Selected(keys, listTags, inputTags, org, i) &&
                        (forall j :: i < j < |keys| ==> !Selected(keys, listTags, inputTags, org, j)) ==>
              ScanKeys(keys, listTags, inputTags, org, target) == Found(keys[i].GetOr(""))
    decreases |keys|
  {
    if |keys| > 0 {
      var tags := listTags(keys[0]).value;
      ScanTagsMeaning(tags, inputTags, org, 0, 0, false);
      var hit := KeyQualifies(tags, inputTags, org);
      var next := if hit then keys[0].GetOr("") else target;
      assert ScanSucceeds(keys[1..], listTags, inputTags) by {
        forall i | 0 <= i < |keys[1..]| ensures listTags(keys[1..][i]).Success? {
          assert keys[1..][i] == keys[i + 1];
        }
      }
      assert ScanTags(tags, inputTags, org, 0, 0, false) == Some(hit);
      assert ScanKeys(keys, listTags, inputTags, org, target) == ScanKeys(keys[1..], listTags, inputTags, org, next);
      assert hit <==> Selected(keys, listTags, inputTags, org, 0);
      ScanKeysPicksLastQualifying(keys[1..], listTags, inputTags, org, next);
      forall i | Selected(keys[1..], listTags, inputTags, org, i)
        ensures Selected(keys, listTags, inputTags, org, i + 1)
      {
        assert keys[1..][i] == keys[i + 1];
      }
      forall i | 0 <= i < |keys| - 1 && Selected(keys, listTags, inputTags, org, i + 1)
        ensures Selected(keys[1..], listTags, inputTags, org, i)
      {
        assert keys[1..][i] == keys[i + 1];
      }
    }
  }

  /** The loop stops at the first key whose tags cannot be listed, with that error, or
      that has a malformed matching tag, with a panic. */
  lemma {:induction false} ScanKeysStopsAtFirstFailure(keys: seq<Option<string>>,
                                                      listTags: Option<string> -> Result<seq<KmsTag>, ProviderError>,
                                                      inputTags: seq<string>, org: string, target: string, i: nat)
    requires i < |keys| && ScanSucceeds(keys[..i], listTags, inputTags)
    ensures listTags(keys[i]).Failure? ==>
              ScanKeys(keys, listTags, inputTags, org, target) == Failed(Provider(listTags(keys[i]).error))
    ensures listTags(keys[i]).Success? &&
            (exists j :: 0 <= j < |listTags(keys[i]).value| && Malformed(listTags(keys[i]).value[j], inputTags)) ==>
              ScanKeys(keys, listTags, inputTags, org, target) == Panicked
    decreases i
  {
    if i == 0 {
      if listTags(keys[0]).Success? {
        ScanTagsMeaning(listTags(keys[0]).value, inputTags, org, 0, 0, false);
      }
    } else {
      assert keys[..i][0] == keys[0];
      var tags := listTags(keys[0]).value;
      ScanTagsMeaning(tags, inputTags, org, 0, 0, false);
      var hit := ScanTags(tags, inputTags, org, 0, 0, false).value;
      var next := if hit then keys[0].GetOr("") else target;
      assert ScanKeys(keys, listTags, inputTags, org, target) == ScanKeys(keys[1..], listTags, inputTags, org, next);
      assert keys[1..][..i - 1] == keys[..i][1..];
      assert ScanSucceeds(keys[1..][..i - 1], listTags, inputTags) by {
        forall k | 0 <= k < i - 1 ensures listTags(keys[..i][1..][k]).Success? {
          assert keys[..i][1..][k] == keys[..i][k + 1];
        }
      }
      assert keys[1..][i - 1] == keys[i];
      ScanKeysStopsAtFirstFailure(keys[1..], listTags, inputTags, org, next, i - 1);
    }
  }

  /** The loop from an empty target, in the cases the lookup distinguishes. */
  lemma ScanKeysOutcome(keys: seq<Option<string>>, listTags: Option<string> -> Result<seq<KmsTag>, ProviderError>,
                        inputTags: seq<string>, org: string)
    ensures ScanSucceeds(keys, listTags, inputTags) && (forall i :: !Selected(keys, listTags, inputTags, org, i)) ==>
              ScanKeys(keys, listTags, inputTags, org, "") == Found("")
    ensures ScanSucceeds(keys, listTags, inputTags) ==>
              forall i :: Selected(keys, listTags, inputTags, org, i) &&
                          (forall j :: i < j < |keys| ==> !Selected(keys, listTags, inputTags, org, j)) ==>
                ScanKeys(keys, listTags, inputTags, org, "") == Found(keys[i].GetOr(""))
    ensures forall i :: 0 <= i < |keys| && ScanSucceeds(keys[..i], listTags, inputTags) && listTags(keys[i]).Failure? ==>
              ScanKeys(keys, listTags, inputTags, org, "") == Failed(Provider(listTags(keys[i]).error))
  {
    if ScanSucceeds(keys, listTags, inputTags) {
      ScanKeysPicksLastQualifying(keys, listTags, inputTags, org, "");
    }
    forall i | 0 <= i < |keys| && ScanSucceeds(keys[..i], listTags, inputTags) && listTags(keys[i]).Failure?
      ensures ScanKeys(keys, listTags, inputTags, org, "") == Failed(Provider(listTags(keys[i]).error))
    {
      ScanKeysStopsAtFirstFailure(keys, listTags, inputTags, org, "", i);
    }
  }

  /** `fmt.Sprintf("%s", inputTags)` of a string slice. */
  function FormatList(items: seq<string>): string {
    "[" + Strs.Join(items, ' ') + "]"
  }

  /** `GetKmsKeyIdByTags`: no input tags is a bad request; a failure to list the keys or a
      key's tags is returned as is; otherwise the id of the last key that qualifies, and
      NotFound when that id is empty or no key qualifies. */
  function GetKmsKeyIdByTags(inputTags: seq<string>, org: string,
                             listKeys: Result<seq<Option<string>>, ProviderError>,
                             listTags: Option<string> -> Result<seq<KmsTag>, ProviderError>): (r: Lookup)
    ensures |inputTags| == 0 ==> r == Failed(Plain(BadRequest, "empty kms key input tags"))
    ensures |inputTags| > 0 && listKeys.Failure? ==> r == Failed(Provider(listKeys.error))
    ensures r.Found? ==> r.keyId != ""
    ensures r.Found? ==> listKeys.Success? && exists i :: 0 <= i < |listKeys.value| && listKeys.value[i].GetOr("") == r.keyId
    ensures |inputTags| > 0 && listKeys.Success? && ScanSucceeds(listKeys.value, listTags, inputTags) &&
            (forall i :: !Selected(listKeys.value, listTags, inputTags, org, i)) ==>
              r == Failed(Plain(NotFound, "cannot find kms key with tag key " + FormatList(inputTags)))
    ensures |inputTags| > 0 && listKeys.Success? && ScanSucceeds(listKeys.value, listTags, inputTags) ==>
              forall i :: Selected(listKeys.value, listTags, inputTags, org, i) &&
                          (forall j :: i < j < |listKeys.value| ==> !Selected(listKeys.value, listTags, inputTags, org, j)) ==>
                r == (if listKeys.value[i].GetOr("") == "" then
                        Failed(Plain(NotFound, "cannot find kms key with tag key " + FormatList(inputTags)))
                      else Found(listKeys.value[i].GetOr("")))
    ensures |inputTags| > 0 && listKeys.Success? ==>
              forall i :: 0 <= i < |listKeys.value| && ScanSucceeds(listKeys.value[..i], listTags, inputTags) &&
                          listTags(listKeys.value[i]).Failure? ==>
                r == Failed(Provider(listTags(listKeys.value[i]).error))
  {
    if |inputTags| == 0 then Failed(Plain(BadRequest, "empty kms key input tags"))
    else
      match listKeys
      case Failure(e) => Failed(Provider(e))
      case Success(keys) =>
        var scan := ScanKeys(keys, listTags, inputTags, org, "");
        ScanKeysFindsListedKey(keys, listTags, inputTags, org, "");
        ScanKeysOutcome(keys, listTags, inputTags, org);
        if scan.Found? && scan.keyId == "" then
          Failed(Plain(NotFound, "cannot find kms key with tag key " + FormatList(inputTags)))
        else scan
  }

  /** The loop only ever ends on the starting target or on a listed key's id. */
  lemma {:induction false} ScanKeysFindsListedKey(keys: seq<Option<string>>,
                                                 listTags: Option<string> -> Result<seq<KmsTag>, ProviderError>,
                                                 inputTags: seq<string>, org: string, target: string)
    ensures ScanKeys(keys, listTags, inputTags, org, target).Found? ==>
              ScanKeys(keys, listTags, inputTags, org, target).keyId == target ||
              exists i :: 0 <= i < |keys| && keys[i].GetOr("") == ScanKeys(keys, listTags, inputTags, org, target).keyId
    decreases |keys|
  {
    if |keys| > 0 && listTags(keys[0]).Success? {
      var hit := ScanTags(listTags(keys[0]).value, inputTags, org, 0, 0, false);
      if hit.Some? {
        var next := if hit.value then keys[0].GetOr("") else target;
        ScanKeysFindsListedKey(keys[1..], listTags, inputTags, org, next);
        var r := ScanKeys(keys[1..], listTags, inputTags, org, next);
        if r.Found? && r.keyId != next {
          var i :| 0 <= i < |keys[1..]| && keys[1..][i].GetOr("") == r.keyId;
          assert keys[i + 1].GetOr("") == r.keyId;
        }
      }
    }
  }

  /** A key carrying the input tag keys as its first tags, each well formed and with the
      org's value where the third segment is `org`, qualifies. */
  lemma KeyWithAllInputTagsQualifies(inputTags: seq<string>, values: seq<string>, org: string, tags: seq<KmsTag>)
    requires |inputTags| > 0 && |inputTags| == |values| <= |tags|
    requires forall i :: 0 <= i < |inputTags| ==> tags[i] == KmsTag(Some(inputTags[i]), Some(values[i]))
    requires forall i :: 0 <= i < |inputTags| ==> |Strs.Split(inputTags[i], ':')| >= 3
    requires forall i :: 0 <= i < |inputTags| ==> Strs.Split(inputTags[i], ':')[2] == "org" ==> values[i] == org
    ensures KeyQualifies(tags, inputTags, org)
  {
    var n := |inputTags|;
    CountAllCounted(tags, inputTags, org, n);
    assert Matching(tags[n - 1], inputTags);
  }

  lemma {:induction false} CountAllCounted(tags: seq<KmsTag>, inputTags: seq<string>, org: string, k: nat)
    requires k <= |tags|
    requires forall i :: 0 <= i < k ==> Counted(tags[i], inputTags, org)
    ensures CountAccepted(tags[..k], inputTags, org) == k
    decreases k
  {
    if k > 0 {
      assert tags[..k][..k - 1] == tags[..k - 1];
      CountAllCounted(tags, inputTags, org, k - 1);
    }
  }

  /** A key none of whose tags match an input tag key is never selected. */
  lemma NoMatchingTagNeverQualifies(tags: seq<KmsTag>, inputTags: seq<string>, org: string)
    requires |inputTags| > 0
    requires forall j :: 0 <= j < |tags| ==> !Matching(tags[j], inputTags)
    ensures !KeyQualifies(tags, inputTags, org)
  {
  }

  /** The first alias with the given name, or None. */
  function FirstAlias(aliases: seq<Alias>, aliasName: string): (i: Option<nat>)
    ensures i.Some? ==> i.value < |aliases| && aliases[i.value].aliasName.GetOr("") == aliasName
    ensures i.Some? ==> forall j :: 0 <= j < i.value ==> aliases[j].aliasName.GetOr("") != aliasName
    ensures i.None? ==> forall j :: 0 <= j < |aliases| ==> aliases[j].aliasName.GetOr("") != aliasName
  {
    if |aliases| == 0 then None
    else if aliases[0].aliasName.GetOr("") == aliasName then Some(0)
    else match FirstAlias(aliases[1..], aliasName)
         case None => None
         case Some(k) => Some(k + 1)
  }

  /** `GetKmsKeyId`: an empty alias is a bad request and a listing failure is returned as is;
      otherwise the target key of the first alias with that name, and the empty string when
      there is none (not an error). */
  function GetKmsKeyId(aliasName: string, listAliases: Result<seq<Alias>, ProviderError>): (r: Result<string, Error>)
    ensures aliasName == "" ==> r == Failure(Plain(BadRequest, "empty alias input"))
    ensures aliasName != "" && listAliases.Failure? ==> r == Failure(Provider(listAliases.error))
    ensures aliasName != "" && listAliases.Success? ==> r.Success?
    ensures aliasName != "" && listAliases.Success? &&
            (forall j :: 0 <= j < |listAliases.value| ==> listAliases.value[j].aliasName.GetOr("") != aliasName) ==>
              r == Success("")
    ensures aliasName != "" && listAliases.Success? ==> forall i ::
              (0 <= i < |listAliases.value| && listAliases.value[i].aliasName.GetOr("") == aliasName &&
               (forall j :: 0 <= j < i ==> listAliases.value[j].aliasName.GetOr("") != aliasName)) ==>
              r == Success(listAliases.value[i].targetKeyId.GetOr(""))
  {
    if aliasName == "" then Failure(Plain(BadRequest, "empty alias input"))
    else
      match listAliases
      case Failure(e) => Failure(Provider(e))
      case Success(aliases) =>
        match FirstAlias(aliases, aliasName)
        case None => Success("")
        case Some(i) => Success(aliases[i].targetKeyId.GetOr(""))
  }
}
