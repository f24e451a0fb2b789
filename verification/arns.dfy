/** Amazon Resource Names as the AWS SDK's `arn` package reads them: the text must start
    with `arn:` and split on `:` into six sections, the last of which (the resource) may
    itself contain colons. */
module Arns {
  import opened Wrappers
  import Strs

  datatype Arn = Arn(partition: string, service: string, region: string, accountId: string, resource: string)

  const Prefix := "arn:"

  /** `arn.IsARN`: the prefix, and at least five colons. */
  predicate IsArn(s: string) {
    Strs.HasPrefix(s, Prefix) && Strs.CountChar(s, ':') >= 5
  }

  /** `arn.Parse`: None stands for its error. */
  function ParseArn(s: string): (r: Option<Arn>)
    ensures r.Some? <==> IsArn(s)
  {
    if !Strs.HasPrefix(s, Prefix) then None
    else
      var sections := Strs.SplitN(s, ':', 6);
      Strs.SplitNLength(s, ':', 6);
      if |sections| != 6 then None
      else Some(Arn(sections[1], sections[2], sections[3], sections[4], sections[5]))
  }

  /** `ARN.String()`. */
  function ArnString(a: Arn): string {
    Strs.Join(["arn", a.partition, a.service, a.region, a.accountId, a.resource], ':')
  }

  /** An ARN whose first four fields are free of colons reads back as itself. */
  lemma ParseArnString(a: Arn)
    requires ':' !in a.partition && ':' !in a.service && ':' !in a.region && ':' !in a.accountId
    ensures ParseArn(ArnString(a)) == Some(a)
  {
    var parts := ["arn", a.partition, a.service, a.region, a.accountId, a.resource];
    var s := ArnString(a);
    assert s == "arn" + [':'] + Strs.Join(parts[1..], ':');
    assert s[..4] == Prefix;
    Strs.SplitNJoin(parts, ':');
  }
}
