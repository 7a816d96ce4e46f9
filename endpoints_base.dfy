/**
 * `nexosapi.endpoints.base.NexosAIEndpointController`: the endpoint checks
 * made when a controller class is defined and when an instance is created.
 */
module EndpointsBase {
  import opened Wrappers
  import opened Text
  import opened EndpointFormat

  /** `ValueError` and `TypeError` as the checks raise them. */
  datatype CheckError = MissingEndpoint | ResponseModelNotResponse | Invalid(reason: EndpointError)

  /** `_validate_endpoint(endpoint)`: a string that starts with one of the five verb prefixes. */
  function ValidatePrefix(endpoint: Option<string>): (r: Option<CheckError>)
    ensures r.None? <==> endpoint.Some? && HasVerbPrefix(endpoint.value)
    ensures r.Some? ==> r == Some(Invalid(BadVerbPrefix))
  {
    if endpoint.None? || !HasVerbPrefix(endpoint.value) then Some(Invalid(BadVerbPrefix)) else None
  }

  /**
   * `__init_subclass__`: an unset endpoint, then the prefix, then whether the
   * response model subclasses `NexosAPIResponse`. The full pattern is not
   * checked here.
   */
  function InitSubclass(endpoint: Option<string>, responseIsApiResponse: bool): (r: Option<CheckError>)
    ensures endpoint.None? ==> r == Some(MissingEndpoint)
    ensures endpoint.Some? && !HasVerbPrefix(endpoint.value) ==> r == Some(Invalid(BadVerbPrefix))
    ensures r.None? <==> endpoint.Some? && HasVerbPrefix(endpoint.value) && responseIsApiResponse
    ensures r == Some(ResponseModelNotResponse) <==>
              endpoint.Some? && HasVerbPrefix(endpoint.value) && !responseIsApiResponse
  {
    if endpoint.None? then Some(MissingEndpoint)
    else if ValidatePrefix(endpoint).Some? then ValidatePrefix(endpoint)
    else if !responseIsApiResponse then Some(ResponseModelNotResponse)
    else None
  }

  /** `__post_init__`: a non-empty endpoint that matches the pattern. */
  function PostInit(endpoint: Option<string>): (r: Option<CheckError>)
    ensures r.None? <==> endpoint.Some? && MatchesEndpointPattern(endpoint.value)
    ensures endpoint.None? || endpoint == Some("") ==> r == Some(Invalid(EmptyEndpoint))
  {
    if endpoint.None? || endpoint.value == "" then Some(Invalid(EmptyEndpoint))
    else if !MatchesEndpointPattern(endpoint.value) then Some(Invalid(PatternMismatch))
    else None
  }

  /**
   * The instance check is the stricter one: an endpoint an instance accepts
   * also passes the class-level prefix check, while `put:/items` passes the
   * prefix check and is refused by every instance.
   */
  lemma PostInitImpliesPrefix(endpoint: Option<string>)
    ensures PostInit(endpoint).None? ==> ValidatePrefix(endpoint).None?
    ensures ValidatePrefix(Some("put:/items")).None? && PostInit(Some("put:/items")).Some?
  {
    if PostInit(endpoint).None? {
      PatternImpliesPrefix(endpoint.value);
    }
    assert StartsWith("put:/items", VerbPrefixes[2]);
    PutIsRejected("put:/items");
  }
}
