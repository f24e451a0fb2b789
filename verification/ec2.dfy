/** The EC2 wrapper (package `ec2`): looking up one subnet. */
module Ec2 {
  import opened Wrappers
  import opened ApiErrors
  import Strs

  datatype Subnet = Subnet(subnetId: Option<string>, availabilityZone: Option<string>)

  /** `GetSubnet`: succeeds exactly when the id is non-empty, the service answers, and it
      describes exactly one subnet; any other count is a bad request. The package's own
      error mapping is the parameter `errCode`. */
  function GetSubnet(subnet: string, describe: seq<string> -> Result<seq<Subnet>, ProviderError>,
                     errCode: (string, Error) -> Error): (r: Result<Subnet, Error>)
    ensures r.Success? <==> subnet != "" && describe([subnet]).Success? && |describe([subnet]).value| == 1
    ensures r.Success? ==> r.value == describe([subnet]).value[0]
    ensures subnet == "" ==> r == Failure(Plain(BadRequest, "invalid input"))
    ensures subnet != "" && describe([subnet]).Failure? ==>
              r == Failure(errCode("failed to describe subnet", Provider(describe([subnet]).error)))
    ensures subnet != "" && describe([subnet]).Success? && |describe([subnet]).value| != 1 ==>
              r == Failure(Plain(BadRequest, "unexpected subnet list length " + Strs.NatToString(|describe([subnet]).value|)))
  {
    if subnet == "" then Failure(Plain(BadRequest, "invalid input"))
    else
      match describe([subnet])
      case Failure(e) => Failure(errCode("failed to describe subnet", Provider(e)))
      case Success(subnets) =>
        if |subnets| != 1 then Failure(Plain(BadRequest, "unexpected subnet list length " + Strs.NatToString(|subnets|)))
        else Success(subnets[0])
  }
}
