/** The authenticateJWT middleware: a request goes on to its handler only
    when a signing secret is configured, an Authorization header is sent,
    and the token read from that header verifies against the secret. */
module AuthenticateJwt {
  import opened Base
  import opened Js

  /** What the middleware does with a request: answer it, or call `next`. */
  datatype Outcome = SecretMissing | NoHeader | Forbidden | Next
  {
    /** The status sent when the request is answered; `Next` answers nothing. */
    function Status(): Option<int> {
      match this
      case SecretMissing => Some(500)
      case NoHeader => Some(401)
      case Forbidden => Some(403)
      case Next => None
    }
  }

  /** `header.split(" ")[1]`: the second space-separated segment, undefined
      when the header holds no space. */
  function BearerToken(header: string): (token: Option<string>)
    ensures token.None? <==> ' ' !in header
    ensures token.Some? ==> ' ' !in token.value
  {
    SplitSinglePiece(header, ' ');
    var parts := Split(header, ' ');
    if |parts| >= 2 then Some(parts[1]) else None
  }

  /** The token is the text between the first and the second space,
      whatever the scheme word in front of it is. */
  lemma BearerTokenOf(scheme: string, token: string, tail: string)
    requires ' ' !in scheme && ' ' !in token
    requires tail == [] || tail[0] == ' '
    ensures BearerToken(scheme + " " + token + tail) == Some(token)
  {
    var header := scheme + " " + token + tail;
    assert header == scheme + [' '] + (token + tail);
    SplitAfterPiece(scheme, token + tail, ' ');
    if tail == [] {
      assert token + tail == token;
      SplitNoSeparator(token, ' ');
    } else {
      assert token + tail == token + [' '] + tail[1..];
      SplitAfterPiece(token, tail[1..], ' ');
    }
  }

  /** authenticateJWT. `secret` is the configured signing secret and
      `header` the Authorization header. jsonwebtoken refuses a missing or
      empty token with an error, which the callback answers with 403 like
      any failed verification. */
  function Authenticate(secret: Option<string>, header: Option<string>, jwt: Jwt): (o: Outcome)
    ensures o == SecretMissing <==> !TruthyStr(secret)
    ensures o == NoHeader <==> TruthyStr(secret) && !TruthyStr(header)
    ensures o == Next <==>
              && TruthyStr(secret) && TruthyStr(header)
              && BearerToken(header.value).Some?
              && BearerToken(header.value).value != ""
              && jwt.verify(BearerToken(header.value).value, secret.value)
    ensures TruthyStr(secret) && TruthyStr(header) && ' ' !in header.value ==> o == Forbidden
  {
    if !TruthyStr(secret) then SecretMissing
    else if !TruthyStr(header) then NoHeader
    else
      var token := BearerToken(header.value);
      if token.None? || token.value == "" then Forbidden
      else if jwt.verify(token.value, secret.value) then Next
      else Forbidden
  }

  /** With a secret configured, a request carrying `Bearer <token>` is let
      through exactly when the token verifies against the secret, and is
      refused with 403 otherwise. */
  lemma BearerRequest(secret: string, token: string, jwt: Jwt)
    requires secret != "" && token != "" && ' ' !in token
    ensures Authenticate(Some(secret), Some("Bearer " + token), jwt) == Next <==> jwt.verify(token, secret)
    ensures Authenticate(Some(secret), Some("Bearer " + token), jwt) != Next ==>
              Authenticate(Some(secret), Some("Bearer " + token), jwt).Status() == Some(403)
  {
    assert "Bearer " + token == "Bearer" + " " + token + [];
    BearerTokenOf("Bearer", token, []);
  }
}
