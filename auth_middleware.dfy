/**
 * The bearer gate in front of the protected routes. The token is the second
 * space-separated field of the `Authorization` header (the scheme word is
 * not looked at); a missing or empty token is refused with 401, a token that
 * fails verification with 403, and otherwise the decoded identity is
 * attached to the request and the next handler runs.
 */
module AuthMiddleware {
  import opened Wrappers
  import opened Text
  import opened Jwt

  const MsgNoToken := "Token de acceso no proporcionado"
  const MsgBadToken := "Token inválido o expirado"

  /**
   * `authHeader && authHeader.split(' ')[1]`: None for a missing or empty
   * header and for a header without a second field.
   */
  function BearerToken(header: Option<string>): (token: Option<string>)
    ensures token.Some? <==> header.Some? && header.value != [] && |Split(header.value, ' ')| >= 2
    ensures token.Some? ==> token.value == Split(header.value, ' ')[1] && ' ' !in token.value
  {
    if header.None? || header.value == [] then None
    else
      var fields := Split(header.value, ' ');
      if |fields| < 2 then None else Some(fields[1])
  }

  /** The request as the gate sees and changes it, and what it answers. */
  class Exchange {
    const authorization: Option<string>
    var user: Option<Claims>
    var status: Option<nat>
    var message: string
    var nextCalls: nat

    /** A request with this header on which nothing has happened yet. */
    constructor (authorization: Option<string>)
      ensures this.authorization == authorization
      ensures user.None? && status.None? && message == [] && nextCalls == 0
    {
      this.authorization := authorization;
      user := None;
      status := None;
      message := [];
      nextCalls := 0;
    }

    /** Nothing has been answered and `next` has not run. */
    predicate Untouched()
      reads this
    {
      user.None? && status.None? && nextCalls == 0
    }

    /** Exactly one of: a 401, a 403, or `next` once with the user attached. */
    predicate Settled()
      reads this
    {
      (status == Some(401) && message == MsgNoToken && user.None? && nextCalls == 0)
      || (status == Some(403) && message == MsgBadToken && user.None? && nextCalls == 0)
      || (status.None? && user.Some? && nextCalls == 1)
    }
  }

  /** The gate's decision as a value: the status it sends, or the identity it passes on. */
  datatype Decision = Deny(status: nat, message: string) | Pass(user: Claims)

  /** The reference decision for a header, a secret and an instant. */
  function Decide(header: Option<string>, secret: string, now: nat): Decision {
    match BearerToken(header)
    case None => Deny(401, MsgNoToken)
    case Some(token) =>
      if token == [] then Deny(401, MsgNoToken)
      else
        match Verify(token, secret, now)
        case None => Deny(403, MsgBadToken)
        case Some(claims) => Pass(claims)
  }

  /** `verificarToken`. */
  method VerifyToken(x: Exchange, secret: string, now: nat)
    requires x.Untouched()
    modifies x
    ensures x.Settled()
    ensures Decide(x.authorization, secret, now)
         == if x.status.Some? then Deny(x.status.value, x.message) else Pass(x.user.value)
  {
    var token := BearerToken(x.authorization);
    if token.None? || token.value == [] {
      x.status := Some(401);
      x.message := MsgNoToken;
      return;
    }
    var decoded := Verify(token.value, secret, now);
    if decoded.None? {
      x.status := Some(403);
      x.message := MsgBadToken;
      return;
    }
    x.user := decoded;
    x.nextCalls := x.nextCalls + 1;
  }

  /** The scheme word is ignored: any space-free first word followed by a space carries the token. */
  lemma BearerOfAnyScheme(scheme: string, token: string)
    requires ' ' !in scheme && ' ' !in token
    ensures BearerToken(Some(scheme + " " + token)) == Some(token)
  {
    SplitAfterField(scheme, token, ' ');
    SplitWithoutSeparator(token, ' ');
  }

  /** A double space after the scheme yields an empty token, which is refused with 401. */
  lemma DoubleSpaceIsMissing(scheme: string, token: string, secret: string, now: nat)
    requires ' ' !in scheme
    ensures BearerToken(Some(scheme + "  " + token)) == Some([])
    ensures Decide(Some(scheme + "  " + token), secret, now) == Deny(401, MsgNoToken)
  {
    assert scheme + "  " + token == scheme + [' '] + ([' '] + token);
    SplitAfterField(scheme, [' '] + token, ' ');
    assert [' '] + token == [] + [' '] + token;
    SplitAfterField([], token, ' ');
  }

  /** A header that is absent, empty, or a single word gives 401. */
  lemma MissingTokenRefused(header: Option<string>, secret: string, now: nat)
    requires header.None? || ' ' !in header.value
    ensures Decide(header, secret, now) == Deny(401, MsgNoToken)
  {
    if header.Some? {
      SplitWithoutSeparator(header.value, ' ');
    }
  }

  /** A well-formed header with a token signed by the access secret passes until expiry, with its claims. */
  lemma SignedTokenPasses(claims: Claims, secret: string, expiresAt: nat, now: nat)
    ensures Decide(Some("Bearer " + Sign(claims, secret, expiresAt)), secret, now)
         == if now < expiresAt then Pass(claims) else Deny(403, MsgBadToken)
  {
    var token := Sign(claims, secret, expiresAt);
    assert "Bearer " + token == "Bearer" + " " + token;
    BearerOfAnyScheme("Bearer", token);
    assert token != [];
    VerifySigned(claims, secret, expiresAt, now);
  }

  /** A token signed with another secret (a refresh token, say) is refused with 403. */
  lemma OtherSecretRefused(claims: Claims, signer: string, secret: string, expiresAt: nat, now: nat)
    requires signer != secret
    ensures Decide(Some("Bearer " + Sign(claims, signer, expiresAt)), secret, now) == Deny(403, MsgBadToken)
  {
    var token := Sign(claims, signer, expiresAt);
    assert "Bearer " + token == "Bearer" + " " + token;
    BearerOfAnyScheme("Bearer", token);
    assert token != [];
    VerifyOtherSecret(claims, signer, secret, expiresAt, now);
  }

  /** Only a passing decision carries an identity, and then it is what the token verifies to. */
  lemma PassIsVerified(header: Option<string>, secret: string, now: nat)
    ensures Decide(header, secret, now).Pass?
        <==> BearerToken(header).Some? && Verify(BearerToken(header).value, secret, now).Some?
    ensures Decide(header, secret, now).Pass?
        ==> Decide(header, secret, now).user == Verify(BearerToken(header).value, secret, now).value
  {
    var t := BearerToken(header);
    if t.Some? && t.value == [] {
      VerifyMalformed([], secret, now);
    }
  }
}
