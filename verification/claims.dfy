/** Reading the acting user's id from the claims of the current principal. */
module ClaimsPrincipalExtensions {
  import opened Wrappers
  import opened Primitives
  import opened Errors

  /** A claim's type and value (a .NET claim's value is never null). */
  datatype Claim = Claim(claimType: string, value: string)

  const UserIdClaimType: string := "UserId"

  /** The value of the first claim of the given type, or null. */
  function FirstValueOf(claims: seq<Claim>, claimType: string): (r: NString)
    ensures r.None? <==> forall i :: 0 <= i < |claims| ==> claims[i].claimType != claimType
    ensures r.Some? ==> exists i :: 0 <= i < |claims| && claims[i].claimType == claimType && claims[i].value == r.value
                                    && forall j :: 0 <= j < i ==> claims[j].claimType != claimType
    decreases |claims|
  {
    if |claims| == 0 then None
    else if claims[0].claimType == claimType then Some(claims[0].value)
    else FirstValueOf(claims[1..], claimType)
  }

  /** `GetUserId`. `parseGuid` stands for `Guid.Parse` (None: it throws). A
      missing or blank first "UserId" claim gives `Guid.Empty`; otherwise the
      value is parsed and a malformed one is an error. */
  function GetUserId(claims: seq<Claim>, parseGuid: string -> Option<Guid>): (r: Result<Guid, Error>)
    ensures IsNullOrWhiteSpace(FirstValueOf(claims, UserIdClaimType)) ==> r == Ok(EmptyGuid)
    ensures !IsNullOrWhiteSpace(FirstValueOf(claims, UserIdClaimType)) ==>
      var v := FirstValueOf(claims, UserIdClaimType).value;
      r == (if parseGuid(v).Some? then Ok(parseGuid(v).value) else Err(Format))
  {
    var value := FirstValueOf(claims, UserIdClaimType);
    if IsNullOrWhiteSpace(value) then Ok(EmptyGuid)
    else
      match parseGuid(value.value)
      case Some(g) => Ok(g)
      case None => Err(Format)
  }

  /** Claims of other types never change the result, wherever they appear. */
  lemma {:induction false} OtherClaimsIgnored(before: seq<Claim>, c: Claim, after: seq<Claim>, parseGuid: string -> Option<Guid>)
    requires c.claimType != UserIdClaimType
    ensures GetUserId(before + [c] + after, parseGuid) == GetUserId(before + after, parseGuid)
  {
    FirstValueSkips(before, c, after);
  }

  lemma {:induction false} FirstValueSkips(before: seq<Claim>, c: Claim, after: seq<Claim>)
    requires c.claimType != UserIdClaimType
    ensures FirstValueOf(before + [c] + after, UserIdClaimType) == FirstValueOf(before + after, UserIdClaimType)
    decreases |before|
  {
    if |before| == 0 {
      assert before + [c] + after == [c] + after;
      assert ([c] + after)[1..] == after;
      assert before + after == after;
    } else {
      FirstValueSkips(before[1..], c, after);
      assert (before + [c] + after)[1..] == before[1..] + [c] + after;
      assert (before + after)[1..] == before[1..] + after;
    }
  }

  /** Only the first "UserId" claim is consulted. */
  lemma LaterUserIdClaimsIgnored(v: string, rest: seq<Claim>, rest': seq<Claim>, parseGuid: string -> Option<Guid>)
    ensures GetUserId([Claim(UserIdClaimType, v)] + rest, parseGuid)
         == GetUserId([Claim(UserIdClaimType, v)] + rest', parseGuid)
  {
  }
}
