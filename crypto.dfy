/**
 * Signed bearer tokens (the JSON Web Tokens of RFC 7519 as the session code
 * uses them). The model keeps what the session rules depend on: a token is a
 * space-free string carrying the `{id, email}` claims and an expiry instant;
 * verification under the signing secret before the expiry gives the claims
 * back, and verification under any other secret, after the expiry, or of a
 * string that is not a token fails. The "signature" segment is not a
 * cryptographic MAC: the model does not capture unforgeability.
 *
 * A token is four '.'-separated segments: escaped id, escaped email, the
 * expiry in decimal, escaped secret. Escaping keeps '.', ' ' and '~' out of
 * the segments.
 */
module Jwt {
  import opened Text
  import opened Wrappers

  /** The payload the session code signs: `{ id, email }`. */
  datatype Claims = Claims(id: string, email: string)

  function EscapeChar(c: char): string {
    if c == '~' then "~~" else if c == '.' then "~p" else if c == ' ' then "~s" else [c]
  }

  function Escape(s: string): (r: string)
    ensures '.' !in r && ' ' !in r
    decreases |s|
  {
    if s == [] then [] else EscapeChar(s[0]) + Escape(s[1..])
  }

  function Unescape(s: string): Option<string>
    decreases |s|
  {
    if s == [] then Some([])
    else if s[0] == '~' then
      if |s| < 2 then None
      else
        var c := if s[1] == '~' then Some('~') else if s[1] == 'p' then Some('.')
                 else if s[1] == 's' then Some(' ') else None;
        match (c, Unescape(s[2..]))
        case (Some(x), Some(rest)) => Some([x] + rest)
        case _ => None
    else if s[0] == '.' || s[0] == ' ' then None
    else
      match Unescape(s[1..])
      case Some(rest) => Some([s[0]] + rest)
      case None => None
  }

  /** Escaping is undone by unescaping, so distinct strings have distinct escapes. */
  lemma {:induction false} UnescapeEscape(s: string)
    ensures Unescape(Escape(s)) == Some(s)
    decreases |s|
  {
    if s != [] {
      UnescapeEscape(s[1..]);
      var e := Escape(s);
      assert e == EscapeChar(s[0]) + Escape(s[1..]);
      if s[0] == '~' || s[0] == '.' || s[0] == ' ' {
        assert e[2..] == Escape(s[1..]);
      } else {
        assert e[1..] == Escape(s[1..]);
      }
      assert s == [s[0]] + s[1..];
    }
  }

  /** `jwt.sign(claims, secret, { expiresIn })`, with the expiry already turned into an instant. */
  function Sign(claims: Claims, secret: string, expiresAt: nat): (token: string)
    ensures ' ' !in token && token != []
  {
    var d := Decimal(expiresAt);
    assert forall i :: 0 <= i < |d| ==> IsDigit(d[i]);
    var tail := d + "." + Escape(secret);
    Escape(claims.id) + "." + (Escape(claims.email) + "." + tail)
  }

  /**
   * `jwt.verify(token, secret)` at instant `now`: the claims, or None where the
   * library throws (malformed, wrong secret, expired).
   */
  function Verify(token: string, secret: string, now: nat): Option<Claims> {
    var parts := Split(token, '.');
    if |parts| != 4 || parts[2] == [] || !AllDigits(parts[2]) then None
    else
      match (Unescape(parts[0]), Unescape(parts[1]), Unescape(parts[3]))
      case (Some(id), Some(email), Some(signer)) =>
        if signer == secret && now < DecimalValue(parts[2]) then Some(Claims(id, email)) else None
      case _ => None
  }

  /** The segments of a signed token are the escaped fields, in order. */
  lemma SignedSegments(claims: Claims, secret: string, expiresAt: nat)
    ensures Split(Sign(claims, secret, expiresAt), '.')
         == [Escape(claims.id), Escape(claims.email), Decimal(expiresAt), Escape(secret)]
  {
    var a, b, d, k := Escape(claims.id), Escape(claims.email), Decimal(expiresAt), Escape(secret);
    assert '.' !in d by {
      forall i | 0 <= i < |d| ensures d[i] != '.' { assert IsDigit(d[i]); }
    }
    var t3 := d + ['.'] + k;
    var t2 := b + ['.'] + t3;
    SplitAfterField(a, t2, '.');
    SplitAfterField(b, t3, '.');
    SplitAfterField(d, k, '.');
    SplitWithoutSeparator(k, '.');
  }

  /** Round trip: a token verifies under its own secret, giving its claims, until it expires. */
  lemma VerifySigned(claims: Claims, secret: string, expiresAt: nat, now: nat)
    ensures Verify(Sign(claims, secret, expiresAt), secret, now)
         == (if now < expiresAt then Some(claims) else None)
  {
    SignedSegments(claims, secret, expiresAt);
    DecimalRoundTrip(expiresAt);
    UnescapeEscape(claims.id);
    UnescapeEscape(claims.email);
    UnescapeEscape(secret);
  }

  /** A token never verifies under a secret other than the one that signed it. */
  lemma VerifyOtherSecret(claims: Claims, secret: string, other: string, expiresAt: nat, now: nat)
    requires other != secret
    ensures Verify(Sign(claims, secret, expiresAt), other, now) == None
  {
    SignedSegments(claims, secret, expiresAt);
    DecimalRoundTrip(expiresAt);
    UnescapeEscape(claims.id);
    UnescapeEscape(claims.email);
    UnescapeEscape(secret);
  }

  /** Strings that are not four segments (the empty string among them) never verify. */
  lemma VerifyMalformed(token: string, secret: string, now: nat)
    requires |Split(token, '.')| != 4
    ensures Verify(token, secret, now) == None
  {
  }
}

/**
 * Password hashing (`bcrypt.hash(password, 10)` and `bcrypt.compare`). A hash
 * records its cost factor and salt and determines the password it was made
 * from; one-wayness is not modelled. `Blank` is a stored empty password column.
 */
module Bcrypt {

  datatype PasswordHash = Blank | Digest(cost: nat, salt: nat, preimage: string)

  /** The cost factor the registration handler passes. */
  const Rounds: nat := 10

  function Hash(password: string, salt: nat): (h: PasswordHash)
    ensures h.Digest? && h.cost == Rounds
  {
    Digest(Rounds, salt, password)
  }

  predicate Compare(password: string, h: PasswordHash) {
    h.Digest? && h.preimage == password
  }

  /** `compare` accepts exactly the password that was hashed, whatever the salt. */
  lemma CompareHash(password: string, attempt: string, salt: nat)
    ensures Compare(attempt, Hash(password, salt)) <==> attempt == password
  {
  }
}
