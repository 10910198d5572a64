/**
 * The session handlers: register, login, refresh and logout over the
 * credential store. Each handler is a method that reads and writes the store
 * step by step, as the request handler does, and is proved equal to a
 * reference definition (`...Spec`) of its reply and of the tables it leaves;
 * the lemmas at the end relate the handlers to each other.
 *
 * Request-body fields are `Option<string>`: None is an absent field, and a
 * field counts as given only when it is a non-empty string (JavaScript
 * truthiness). "now" is a parameter in milliseconds; so are the fresh row id
 * (`uuidv4()`) and the bcrypt salt.
 */
module AuthController {
  import opened Wrappers
  import opened Duration
  import opened Jwt
  import opened Bcrypt
  import opened UserModel

  /** The four settings the handlers read from the configuration. */
  datatype Config = Config(accessSecret: string, refreshSecret: string,
                           accessExpiry: string, refreshExpiry: string)

  /** What a handler sends back. `Unhandled` is an exception that escapes the handler. */
  datatype Reply =
    | Registered(user: PublicUser)
    | LoggedIn(accessToken: string, refreshToken: string, user: PublicUser)
    | Renewed(accessToken: string)
    | LoggedOut
    | Refused(status: nat, message: string)
    | Unhandled

  const MsgAllFieldsRequired := "Todos los campos son obligatorios"
  const MsgUserExists := "El usuario ya existe"
  const MsgLoginFieldsRequired := "Email y contraseña son obligatorios"
  const MsgInvalidCredentials := "Credenciales inválidas"
  const MsgRefreshRequired := "Refresh token es obligatorio"
  const MsgRefreshInvalid := "Refresh token inválido"
  const MsgRefreshInvalidOrExpired := "Refresh token inválido o expirado"

  /** The HTTP status of a reply that is sent. */
  function Status(r: Reply): (code: nat)
    requires !r.Unhandled?
    ensures r.Refused? ==> code == r.status
  {
    match r
    case Registered(_) => 201
    case LoggedIn(_, _, _) => 200
    case Renewed(_) => 200
    case LoggedOut => 200
    case Refused(status, _) => status
  }

  /** A body field that JavaScript reads as truthy: present and non-empty. */
  predicate Given(f: Option<string>) {
    f.Some? && f.value != ""
  }

  /** The reply and the two tables after a handler. */
  datatype Outcome = Outcome(reply: Reply, users: map<string, UserRow>, tokens: map<string, TokenRow>)

  // ---------------------------------------------------------------------------
  // Reference definitions

  ghost function RegisterSpec(users: map<string, UserRow>, tokens: map<string, TokenRow>,
                              usuario: Option<string>, email: Option<string>, password: Option<string>,
                              newId: string, salt: nat): Outcome
    requires EmailsUnique(users)
  {
    if !Given(usuario) || !Given(email) || !Given(password) then
      Outcome(Refused(400, MsgAllFieldsRequired), users, tokens)
    else if UserByEmail(users, email.value).Some? then
      Outcome(Refused(400, MsgUserExists), users, tokens)
    else if newId in users then
      Outcome(Unhandled, users, tokens)
    else
      Outcome(Registered(PublicUser(newId, usuario.value, email.value)),
              users[newId := UserRow(usuario.value, email.value, Hash(password.value, salt))], tokens)
  }

  /** The stored user for this email exists, has a password, and the password matches it. */
  ghost predicate CredentialsMatch(users: map<string, UserRow>, email: string, password: string)
    requires EmailsUnique(users)
  {
    var u := UserByEmail(users, email);
    u.Some? && !u.value.password.Blank? && Compare(password, u.value.password)
  }

  ghost function LoginSpec(users: map<string, UserRow>, tokens: map<string, TokenRow>, cfg: Config,
                           email: Option<string>, password: Option<string>, now: nat, rowId: string): Outcome
    requires EmailsUnique(users)
  {
    if !Given(email) || !Given(password) then
      Outcome(Refused(400, MsgLoginFieldsRequired), users, tokens)
    else if !CredentialsMatch(users, email.value, password.value) then
      Outcome(Refused(401, MsgInvalidCredentials), users, tokens)
    else
      var u := UserByEmail(users, email.value).value;
      var claims := Claims(u.id, u.email);
      match (ExpiryAt(cfg.accessExpiry, now), ExpiryAt(cfg.refreshExpiry, now))
      case (Some(accessExp), Some(refreshExp)) =>
        var refresh := Sign(claims, cfg.refreshSecret, refreshExp);
        if refreshExp > MaxDateMillis || rowId in tokens || TokenStored(tokens, refresh) then
          Outcome(Unhandled, users, tokens)
        else
          Outcome(LoggedIn(Sign(claims, cfg.accessSecret, accessExp), refresh, PublicUser(u.id, u.usuario, u.email)),
                  users, tokens[rowId := TokenRow(u.id, refresh, refreshExp)])
      case _ => Outcome(Unhandled, users, tokens)
  }

  ghost function RefreshSpec(tokens: map<string, TokenRow>, cfg: Config, token: Option<string>, now: nat): Reply
    requires TokensUnique(tokens)
  {
    if !Given(token) then Refused(400, MsgRefreshRequired)
    else
      match Verify(token.value, cfg.refreshSecret, now)
      case None => Refused(401, MsgRefreshInvalid)
      case Some(claims) =>
        if LiveToken(tokens, token.value, now).None? then Refused(401, MsgRefreshInvalidOrExpired)
        else
          match ExpiryAt(cfg.accessExpiry, now)
          case None => Refused(401, MsgRefreshInvalid)
          case Some(accessExp) => Renewed(Sign(claims, cfg.accessSecret, accessExp))
  }

  function LogoutSpec(tokens: map<string, TokenRow>, token: Option<string>): (Reply, map<string, TokenRow>) {
    if !Given(token) then (Refused(400, MsgRefreshRequired), tokens)
    else (LoggedOut, WithoutToken(tokens, token.value))
  }

  // ---------------------------------------------------------------------------
  // Handlers

  /** `registrar`. */
  method Register(store: UserStore, usuario: Option<string>, email: Option<string>, password: Option<string>,
                  newId: string, salt: nat) returns (reply: Reply)
    requires store.Valid()
    modifies store
    ensures store.Valid()
    ensures Outcome(reply, store.users, store.refreshTokens)
         == RegisterSpec(old(store.users), old(store.refreshTokens), usuario, email, password, newId, salt)
  {
    if !Given(usuario) || !Given(email) || !Given(password) {
      return Refused(400, MsgAllFieldsRequired);
    }
    var existing := store.FindUserByEmail(email.value);
    if existing.Some? {
      return Refused(400, MsgUserExists);
    }
    var hashed := Hash(password.value, salt);
    var created := store.CreateUser(newId, usuario.value, email.value, hashed);
    if created.None? {
      return Unhandled;
    }
    reply := Registered(created.value);
  }

  /** `iniciarSesion`. */
  method Login(store: UserStore, cfg: Config, email: Option<string>, password: Option<string>,
               now: nat, rowId: string) returns (reply: Reply)
    requires store.Valid()
    modifies store
    ensures store.Valid()
    ensures Outcome(reply, store.users, store.refreshTokens)
         == LoginSpec(old(store.users), old(store.refreshTokens), cfg, email, password, now, rowId)
  {
    if !Given(email) || !Given(password) {
      return Refused(400, MsgLoginFieldsRequired);
    }
    var found := store.FindUserByEmail(email.value);
    if found.None? || found.value.password.Blank? {
      return Refused(401, MsgInvalidCredentials);
    }
    var u := found.value;
    if !Compare(password.value, u.password) {
      return Refused(401, MsgInvalidCredentials);
    }
    var claims := Claims(u.id, u.email);
    var accessExp := ExpiryAt(cfg.accessExpiry, now);
    if accessExp.None? {
      return Unhandled;
    }
    var access := Sign(claims, cfg.accessSecret, accessExp.value);
    var refreshExp := ExpiryAt(cfg.refreshExpiry, now);
    if refreshExp.None? {
      return Unhandled;
    }
    var refresh := Sign(claims, cfg.refreshSecret, refreshExp.value);
    var saved := store.SaveRefreshToken(rowId, u.id, refresh, refreshExp.value);
    if saved.None? {
      return Unhandled;
    }
    reply := LoggedIn(access, refresh, PublicUser(u.id, u.usuario, u.email));
  }

  /** `renovarToken`: reads the store and never writes it, so the refresh token is not rotated. */
  method Refresh(store: UserStore, cfg: Config, token: Option<string>, now: nat) returns (reply: Reply)
    requires store.Valid()
    ensures reply == RefreshSpec(store.refreshTokens, cfg, token, now)
  {
    if !Given(token) {
      return Refused(400, MsgRefreshRequired);
    }
    var decoded := Verify(token.value, cfg.refreshSecret, now);
    if decoded.None? {
      return Refused(401, MsgRefreshInvalid);
    }
    var stored := store.FindRefreshToken(token.value, now);
    if stored.None? {
      return Refused(401, MsgRefreshInvalidOrExpired);
    }
    var accessExp := ExpiryAt(cfg.accessExpiry, now);
    if accessExp.None? {
      return Refused(401, MsgRefreshInvalid);
    }
    reply := Renewed(Sign(decoded.value, cfg.accessSecret, accessExp.value));
  }

  /** `cerrarSesion`. */
  method Logout(store: UserStore, token: Option<string>) returns (reply: Reply)
    requires store.Valid()
    modifies store
    ensures store.Valid() && store.users == old(store.users)
    ensures (reply, store.refreshTokens) == LogoutSpec(old(store.refreshTokens), token)
  {
    if !Given(token) {
      return Refused(400, MsgRefreshRequired);
    }
    store.DeleteRefreshToken(token.value);
    reply := LoggedOut;
  }

  // ---------------------------------------------------------------------------
  // Properties of the session rules

  /** A missing field is refused with 400 before the store is read or written. */
  lemma RegisterMissingField(users: map<string, UserRow>, tokens: map<string, TokenRow>,
                             usuario: Option<string>, email: Option<string>, password: Option<string>,
                             newId: string, salt: nat)
    requires EmailsUnique(users)
    requires !Given(usuario) || !Given(email) || !Given(password)
    ensures RegisterSpec(users, tokens, usuario, email, password, newId, salt)
         == Outcome(Refused(400, MsgAllFieldsRequired), users, tokens)
  {
  }

  /**
   * Registration either refuses and writes nothing, or adds exactly one user
   * holding the hash of the password and answers with its public fields.
   */
  lemma RegisterAddsOneUser(users: map<string, UserRow>, tokens: map<string, TokenRow>,
                            usuario: string, email: string, password: string, newId: string, salt: nat)
    requires EmailsUnique(users)
    ensures var o := RegisterSpec(users, tokens, Some(usuario), Some(email), Some(password), newId, salt);
            o.tokens == tokens
            && (o.reply.Registered? <==> usuario != "" && email != "" && password != ""
                                         && !EmailTaken(users, email) && newId !in users)
            && (o.reply.Registered? ==> o.reply.user == PublicUser(newId, usuario, email)
                                        && |o.users| == |users| + 1
                                        && o.users == users[newId := UserRow(usuario, email, Hash(password, salt))])
            && (!o.reply.Registered? ==> o.users == users)
  {
  }

  /** Once an email is registered, every later registration with it is refused with 400. */
  lemma RegisterTwiceRefused(users: map<string, UserRow>, tokens: map<string, TokenRow>,
                             usuario: string, email: string, password: string, newId: string, salt: nat,
                             usuario2: string, password2: string, newId2: string, salt2: nat)
    requires EmailsUnique(users)
    requires RegisterSpec(users, tokens, Some(usuario), Some(email), Some(password), newId, salt).reply.Registered?
    ensures var o := RegisterSpec(users, tokens, Some(usuario), Some(email), Some(password), newId, salt);
            EmailsUnique(o.users)
            && RegisterSpec(o.users, o.tokens, Some(usuario2), Some(email), Some(password2), newId2, salt2)
               == Outcome(if usuario2 == "" || password2 == "" then Refused(400, MsgAllFieldsRequired)
                          else Refused(400, MsgUserExists), o.users, o.tokens)
  {
    var o := RegisterSpec(users, tokens, Some(usuario), Some(email), Some(password), newId, salt);
    assert o.users[newId].email == email;
  }

  /** A freshly registered user can log in with the password it registered. */
  lemma RegisterThenCredentialsMatch(users: map<string, UserRow>, tokens: map<string, TokenRow>,
                                     usuario: string, email: string, password: string, newId: string, salt: nat)
    requires EmailsUnique(users)
    requires RegisterSpec(users, tokens, Some(usuario), Some(email), Some(password), newId, salt).reply.Registered?
    ensures var o := RegisterSpec(users, tokens, Some(usuario), Some(email), Some(password), newId, salt);
            EmailsUnique(o.users) && CredentialsMatch(o.users, email, password)
            && UserByEmail(o.users, email).value.id == newId
  {
    var o := RegisterSpec(users, tokens, Some(usuario), Some(email), Some(password), newId, salt);
    assert o.users[newId].email == email;
  }

  /**
   * Every refused login (unknown email, blank password, wrong password) gets
   * the same 401 reply, and no refresh token is stored.
   */
  lemma LoginFailuresIndistinguishable(users: map<string, UserRow>, tokens: map<string, TokenRow>, cfg: Config,
                                       email: string, password: string, now: nat, rowId: string)
    requires EmailsUnique(users)
    requires email != "" && password != ""
    requires !EmailTaken(users, email)
             || UserByEmail(users, email).value.password.Blank?
             || !Compare(password, UserByEmail(users, email).value.password)
    ensures LoginSpec(users, tokens, cfg, Some(email), Some(password), now, rowId)
         == Outcome(Refused(401, MsgInvalidCredentials), users, tokens)
  {
  }

  /**
   * A successful login adds exactly one refresh-token row, for that user, with
   * the expiry the refresh duration gives, and returns both tokens and the
   * user's public fields.
   */
  lemma LoginAddsOneToken(users: map<string, UserRow>, tokens: map<string, TokenRow>, cfg: Config,
                          email: string, password: string, now: nat, rowId: string)
    requires EmailsUnique(users)
    requires LoginSpec(users, tokens, cfg, Some(email), Some(password), now, rowId).reply.LoggedIn?
    ensures var o := LoginSpec(users, tokens, cfg, Some(email), Some(password), now, rowId);
            var u := UserByEmail(users, email).value;
            o.users == users && rowId !in tokens && |o.tokens| == |tokens| + 1
            && o.tokens == tokens[rowId := TokenRow(u.id, o.reply.refreshToken, ExpiryAt(cfg.refreshExpiry, now).value)]
            && ExpiryAt(cfg.refreshExpiry, now).value <= MaxDateMillis
            && o.reply.user == PublicUser(u.id, u.usuario, email)
            && CredentialsMatch(users, email, password)
  {
  }

  /**
   * Correct credentials with a refresh duration that reaches past the last
   * instant a `Date` holds end in an exception, with nothing stored.
   */
  lemma LoginBeyondDateRange(users: map<string, UserRow>, tokens: map<string, TokenRow>, cfg: Config,
                             email: string, password: string, now: nat, rowId: string)
    requires EmailsUnique(users)
    requires email != "" && password != "" && CredentialsMatch(users, email, password)
    requires Matches(cfg.accessExpiry)
    requires ExpiryAt(cfg.refreshExpiry, now).Some? && ExpiryAt(cfg.refreshExpiry, now).value > MaxDateMillis
    ensures LoginSpec(users, tokens, cfg, Some(email), Some(password), now, rowId) == Outcome(Unhandled, users, tokens)
  {
  }

  /**
   * A refresh token just issued by login is accepted by refresh until its
   * expiry, and the new access token carries the same id and email claims.
   */
  lemma LoginThenRefresh(users: map<string, UserRow>, tokens: map<string, TokenRow>, cfg: Config,
                         email: string, password: string, now: nat, rowId: string, later: nat)
    requires Consistent(users, tokens)
    requires LoginSpec(users, tokens, cfg, Some(email), Some(password), now, rowId).reply.LoggedIn?
    requires later < ExpiryAt(cfg.refreshExpiry, now).value
    requires Matches(cfg.accessExpiry)
    ensures var o := LoginSpec(users, tokens, cfg, Some(email), Some(password), now, rowId);
            var u := UserByEmail(users, email).value;
            TokensUnique(o.tokens)
            && RefreshSpec(o.tokens, cfg, Some(o.reply.refreshToken), later)
               == Renewed(Sign(Claims(u.id, u.email), cfg.accessSecret, ExpiryAt(cfg.accessExpiry, later).value))
  {
    var o := LoginSpec(users, tokens, cfg, Some(email), Some(password), now, rowId);
    var u := UserByEmail(users, email).value;
    var claims := Claims(u.id, u.email);
    var refreshExp := ExpiryAt(cfg.refreshExpiry, now).value;
    var refresh := o.reply.refreshToken;
    assert refresh == Sign(claims, cfg.refreshSecret, refreshExp);
    VerifySigned(claims, cfg.refreshSecret, refreshExp, later);
    assert !TokenStored(tokens, refresh);
    assert TokensUnique(o.tokens);
    assert rowId in o.tokens && IsLive(o.tokens[rowId], refresh, later);
  }

  /** An access token is not a refresh token: with distinct secrets it is refused with 401. */
  lemma AccessTokenCannotRefresh(tokens: map<string, TokenRow>, cfg: Config, claims: Claims,
                                 expiresAt: nat, now: nat)
    requires TokensUnique(tokens)
    requires cfg.accessSecret != cfg.refreshSecret
    ensures RefreshSpec(tokens, cfg, Some(Sign(claims, cfg.accessSecret, expiresAt)), now)
         == Refused(401, MsgRefreshInvalid)
  {
    VerifyOtherSecret(claims, cfg.accessSecret, cfg.refreshSecret, expiresAt, now);
  }

  /**
   * A token that verifies but has no live stored row (revoked, expired in the
   * table, or never stored) is refused with 401: both checks are needed.
   */
  lemma RefreshNeedsStoredRow(tokens: map<string, TokenRow>, cfg: Config, claims: Claims,
                              expiresAt: nat, now: nat)
    requires TokensUnique(tokens)
    requires now < expiresAt
    requires LiveToken(tokens, Sign(claims, cfg.refreshSecret, expiresAt), now).None?
    ensures RefreshSpec(tokens, cfg, Some(Sign(claims, cfg.refreshSecret, expiresAt)), now)
         == Refused(401, MsgRefreshInvalidOrExpired)
  {
    VerifySigned(claims, cfg.refreshSecret, expiresAt, now);
  }

  /** After logout, refreshing with the same token is refused with 401, at any time. */
  lemma LogoutThenRefreshRefused(tokens: map<string, TokenRow>, cfg: Config, token: string, now: nat)
    requires TokensUnique(tokens)
    requires token != ""
    ensures var (r, t) := LogoutSpec(tokens, Some(token));
            r == LoggedOut && TokensUnique(t) && Status(RefreshSpec(t, cfg, Some(token), now)) == 401
  {
    DeletedTokenNotLive(tokens, token, now);
  }

  /** Logging out twice answers 200 both times and leaves the table as after the first. */
  lemma LogoutIdempotent(tokens: map<string, TokenRow>, token: Option<string>)
    ensures var (r1, t1) := LogoutSpec(tokens, token);
            var (r2, t2) := LogoutSpec(t1, token);
            r2 == r1 && t2 == t1 && (Given(token) ==> r1 == LoggedOut && Status(r1) == 200)
  {
    if Given(token) {
      DeleteTokenIdempotent(tokens, token.value);
    }
  }
}
