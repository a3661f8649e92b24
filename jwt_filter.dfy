/**
 * `JwtAuthenticationFilter`: reads a bearer token from the `Authorization` header and, when it
 * is valid, records the caller as authenticated before passing the request on. The JWT library
 * is the parameter `parseClaims`: for a token it gives the claims' subject (possibly `null`),
 * or `None` when parsing throws (bad signature, expired, malformed).
 */
module JwtFilter {
  import opened Wrappers
  import opened JavaText
  import opened Tables

  const BEARER_PREFIX := "Bearer "

  /** `UsernamePasswordAuthenticationToken(principal, null, authorities)`. */
  datatype Authentication = Authentication(principal: Option<string>, credentials: Option<string>, authorities: seq<string>)

  /** `SecurityContextHolder.getContext()`: the authentication of the current request, if any. */
  class SecurityContext {
    var authentication: Option<Authentication>

    constructor()
      ensures authentication.None?
    {
      authentication := None;
    }
  }

  /** The token of a header that starts with the exact prefix `"Bearer "`: the header after those seven characters. */
  function BearerToken(header: Option<string>): (r: Option<string>)
    ensures r.Some? <==> header.Some? && StartsWith(header.value, BEARER_PREFIX)
    ensures r.Some? ==> BEARER_PREFIX + r.value == header.value
  {
    if header.Some? && StartsWith(header.value, BEARER_PREFIX) then
      var token := header.value[|BEARER_PREFIX|..];
      assert BEARER_PREFIX + token == header.value by {
        assert header.value == header.value[..|BEARER_PREFIX|] + token;
      }
      Some(token)
    else None
  }

  /** Every token comes back from the header made of the prefix and it; nothing else yields it. */
  lemma BearerRoundTrip(token: string, header: string)
    ensures BearerToken(Some(BEARER_PREFIX + token)) == Some(token)
    ensures BearerToken(Some(header)) == Some(token) <==> header == BEARER_PREFIX + token
  {
    var h := BEARER_PREFIX + token;
    assert h[..|BEARER_PREFIX|] == BEARER_PREFIX;
    assert h[|BEARER_PREFIX|..] == token;
  }

  /** A header that is only a differently cased or spaced prefix is not a bearer header. */
  lemma ExactPrefixOnly()
    ensures BearerToken(Some("bearer abc")) == None
    ensures BearerToken(Some("Bearer")) == None
    ensures BearerToken(Some("Bearer ")) == Some("")
  {
    assert "bearer abc"[..7] != BEARER_PREFIX by {
      assert "bearer abc"[0] != BEARER_PREFIX[0];
    }
    assert "Bearer "[..7] == BEARER_PREFIX;
  }

  /** `JwtProcessor.validateToken`: `true` when the token parses, and a `JwtException` otherwise. */
  function ValidateToken(token: string, parseClaims: string -> Option<Option<string>>): (r: Result<bool, Failure>)
    ensures r.Err? <==> parseClaims(token).None?
    ensures r.Err? ==> r.error == Runtime
    ensures r != Ok(false)
  {
    if parseClaims(token).None? then Err(Runtime) else Ok(true)
  }

  /** `getAuthentication`: the token's subject as principal, no credentials and no authorities. */
  function GetAuthentication(token: string, parseClaims: string -> Option<Option<string>>): (r: Result<Authentication, Failure>)
    ensures r.Err? <==> parseClaims(token).None?
    ensures r.Ok? ==> (r.value.principal == parseClaims(token).value && r.value.credentials.None?
                       && r.value.authorities == [])
  {
    if parseClaims(token).None? then Err(Runtime)
    else Ok(Authentication(parseClaims(token).value, None, []))
  }

  /**
   * `doFilterInternal`: without a bearer header nothing is recorded and the chain goes on. With
   * one, validation either throws, so the request stops with nothing recorded, or succeeds and the
   * token's authentication is recorded before the chain goes on. The "invalid token" branch is
   * never taken, because validation never answers `false`.
   */
  method DoFilterInternal(context: SecurityContext, header: Option<string>,
                          parseClaims: string -> Option<Option<string>>)
    returns (r: Result<(), Failure>, chainCalled: bool)
    modifies context
    ensures BearerToken(header).None? ==>
      r.Ok? && chainCalled && context.authentication == old(context.authentication)
    ensures BearerToken(header).Some? && parseClaims(BearerToken(header).value).None? ==>
      r == Err(Runtime) && !chainCalled && context.authentication == old(context.authentication)
    ensures BearerToken(header).Some? && parseClaims(BearerToken(header).value).Some? ==>
      && r.Ok? && chainCalled
      && context.authentication == Some(Authentication(parseClaims(BearerToken(header).value).value, None, []))
  {
    if header.Some? && StartsWith(header.value, BEARER_PREFIX) {
      var token := header.value[|BEARER_PREFIX|..];
      var valid := ValidateToken(token, parseClaims);
      if valid.Err? {
        return Err(valid.error), false;
      }
      if valid.value {
        var authentication := GetAuthentication(token, parseClaims);
        context.authentication := Some(authentication.value);
      }
    }
    r, chainCalled := Ok(()), true;
  }
}
