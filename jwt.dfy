/**
  The token side of the authentication flow. Signing, parsing and clock-based
  expiry live in a JWT library that is not part of this model: a token is
  represented by the claims the controller reads from it (the username, and
  whether it has expired), and an incoming token string is turned into those
  claims by a `decode` function that each operation takes as a parameter.
*/
module Jwt {
  import opened Wrappers

  datatype TokenKind = Access | Refresh

  /** The claims of a signed token. */
  datatype Token = Token(username: string, kind: TokenKind, expired: bool)

  /** The scheme every refresh request must put in front of its access token. */
  const BearerPrefix: string := "Bearer "

  /** A freshly issued access token for `username` (the generateJwtToken call). */
  function GenerateJwtToken(username: string): (t: Token)
    ensures t.username == username && t.kind == Access && !t.expired
  {
    Token(username, Access, false)
  }

  /** A freshly issued refresh token for `username` (the generateRefreshJwtToken call). */
  function GenerateRefreshJwtToken(username: string): (t: Token)
    ensures t.username == username && t.kind == Refresh && !t.expired
  {
    Token(username, Refresh, false)
  }

  /**
    The access token carried by an Authorization header: present only when the
    header exists and starts with "Bearer ", and then it is what follows the prefix.
  */
  function BearerToken(header: Option<string>): (r: Option<string>)
    ensures r.Some? <==> header.Some? && BearerPrefix <= header.value
    ensures r.Some? ==> header.value == BearerPrefix + r.value
    ensures r.Some? ==> |r.value| == |header.value| - 7
  {
    if header.Some? && BearerPrefix <= header.value then
      Some(header.value[|BearerPrefix|..])
    else
      None
  }

  /** Putting "Bearer " in front of a token and parsing the header gives that token back. */
  lemma BearerRoundTrip(token: string)
    ensures BearerToken(Some(BearerPrefix + token)) == Some(token)
  {
    var header := BearerPrefix + token;
    assert header[..|BearerPrefix|] == BearerPrefix;
    assert header[|BearerPrefix|..] == token;
  }
}
