/**
 * The credential store: the `users` and `refresh_tokens` tables and the
 * single-statement operations on them. Tables are maps from primary key to
 * row; the UNIQUE and FOREIGN KEY constraints of the schema are the class
 * invariant, and an insert that would break one fails (the driver rejects the
 * statement) and changes nothing.
 */
module UserModel {
  import opened Wrappers
  import opened Bcrypt

  /** A `users` row, keyed by `id`. */
  datatype UserRow = UserRow(name: string, email: string, password: PasswordHash)

  /** A `refresh_tokens` row, keyed by `id`; `expiresAt` in milliseconds. */
  datatype TokenRow = TokenRow(userId: string, token: string, expiresAt: nat)

  /** What `buscarUsuarioPorEmail` returns: the row with `name` read as `usuario`. */
  datatype Usuario = Usuario(id: string, usuario: string, email: string, password: PasswordHash)

  /** The public fields of a user: `{ id, nombre, email }`, never the password. */
  datatype PublicUser = PublicUser(id: string, nombre: string, email: string)

  /** A stored refresh token with its row id. */
  datatype SavedToken = SavedToken(id: string, userId: string, token: string, expiresAt: nat)

  /** The last instant, in milliseconds since the epoch, that a JavaScript `Date` represents. */
  const MaxDateMillis: nat := 8_640_000_000_000_000

  // ---------------------------------------------------------------------------
  // Constraints of the schema

  /** `email TEXT UNIQUE`. */
  ghost predicate EmailsUnique(users: map<string, UserRow>) {
    forall a, b :: a in users && b in users && users[a].email == users[b].email ==> a == b
  }

  /** `token TEXT UNIQUE`. */
  ghost predicate TokensUnique(tokens: map<string, TokenRow>) {
    forall a, b :: a in tokens && b in tokens && tokens[a].token == tokens[b].token ==> a == b
  }

  /** `FOREIGN KEY (user_id) REFERENCES users(id)`. */
  ghost predicate TokensOwned(users: map<string, UserRow>, tokens: map<string, TokenRow>) {
    forall r :: r in tokens ==> tokens[r].userId in users
  }

  ghost predicate Consistent(users: map<string, UserRow>, tokens: map<string, TokenRow>) {
    EmailsUnique(users) && TokensUnique(tokens) && TokensOwned(users, tokens)
  }

  // ---------------------------------------------------------------------------
  // Queries as functions of the tables

  predicate EmailTaken(users: map<string, UserRow>, email: string) {
    exists id :: id in users && users[id].email == email
  }

  predicate TokenStored(tokens: map<string, TokenRow>, token: string) {
    exists id :: id in tokens && tokens[id].token == token
  }

  /** A row the refresh lookup accepts: the token matches and `expires_at > now`. */
  predicate IsLive(row: TokenRow, token: string, now: nat) {
    row.token == token && row.expiresAt > now
  }

  /** `SELECT * FROM users WHERE email = ?`, mapped to a `Usuario`. */
  ghost function UserByEmail(users: map<string, UserRow>, email: string): (r: Option<Usuario>)
    requires EmailsUnique(users)
    ensures r.None? <==> !EmailTaken(users, email)
    ensures r.Some? ==> r.value.id in users && r.value.email == email
                        && users[r.value.id] == UserRow(r.value.usuario, email, r.value.password)
  {
    if EmailTaken(users, email) then
      var id :| id in users && users[id].email == email;
      Some(Usuario(id, users[id].name, email, users[id].password))
    else None
  }

  /** `SELECT * FROM refresh_tokens WHERE token = ? AND expires_at > now`. */
  ghost function LiveToken(tokens: map<string, TokenRow>, token: string, now: nat): (r: Option<SavedToken>)
    requires TokensUnique(tokens)
    ensures r.None? <==> !(exists id :: id in tokens && IsLive(tokens[id], token, now))
    ensures r.Some? ==> r.value.id in tokens && r.value.token == token && r.value.expiresAt > now
                        && tokens[r.value.id] == TokenRow(r.value.userId, token, r.value.expiresAt)
  {
    if exists id :: id in tokens && IsLive(tokens[id], token, now) then
      var id :| id in tokens && IsLive(tokens[id], token, now);
      Some(SavedToken(id, tokens[id].userId, token, tokens[id].expiresAt))
    else None
  }

  /** `DELETE FROM refresh_tokens WHERE token = ?`. */
  function WithoutToken(tokens: map<string, TokenRow>, token: string): (r: map<string, TokenRow>)
    ensures forall id :: id in r <==> id in tokens && tokens[id].token != token
    ensures forall id :: id in r ==> r[id] == tokens[id]
  {
    map id | id in tokens && tokens[id].token != token :: tokens[id]
  }

  /** `DELETE FROM refresh_tokens WHERE user_id = ?`. */
  function WithoutUserTokens(tokens: map<string, TokenRow>, userId: string): (r: map<string, TokenRow>)
    ensures forall id :: id in r <==> id in tokens && tokens[id].userId != userId
    ensures forall id :: id in r ==> r[id] == tokens[id]
  {
    map id | id in tokens && tokens[id].userId != userId :: tokens[id]
  }

  // ---------------------------------------------------------------------------
  // Properties of the queries

  /** After its token is deleted, the refresh lookup finds nothing for it, at any time. */
  lemma DeletedTokenNotLive(tokens: map<string, TokenRow>, token: string, now: nat)
    requires TokensUnique(tokens)
    ensures TokensUnique(WithoutToken(tokens, token))
    ensures LiveToken(WithoutToken(tokens, token), token, now).None?
  {
  }

  /** Deleting a token twice is the same as deleting it once. */
  lemma DeleteTokenIdempotent(tokens: map<string, TokenRow>, token: string)
    ensures WithoutToken(WithoutToken(tokens, token), token) == WithoutToken(tokens, token)
  {
  }

  /** Deleting a token no row carries leaves the table as it was. */
  lemma DeleteAbsentToken(tokens: map<string, TokenRow>, token: string)
    requires !TokenStored(tokens, token)
    ensures WithoutToken(tokens, token) == tokens
  {
  }

  /** A lookup for one token is unaffected by deleting another. */
  lemma DeleteOtherTokenKeepsLookup(tokens: map<string, TokenRow>, token: string, other: string, now: nat)
    requires TokensUnique(tokens) && other != token
    ensures TokensUnique(WithoutToken(tokens, other))
    ensures LiveToken(WithoutToken(tokens, other), token, now) == LiveToken(tokens, token, now)
  {
    var t' := WithoutToken(tokens, other);
    var a, b := LiveToken(t', token, now), LiveToken(tokens, token, now);
    if b.Some? {
      assert b.value.id in t' && IsLive(t'[b.value.id], token, now);
    }
  }

  /** An expired row is skipped by the lookup but stays in the table. */
  lemma ExpiredRowSkipped(tokens: map<string, TokenRow>, id: string, now: nat)
    requires TokensUnique(tokens) && id in tokens && tokens[id].expiresAt <= now
    ensures LiveToken(tokens, tokens[id].token, now).None?
    ensures id in tokens
  {
  }

  // ---------------------------------------------------------------------------
  // The store

  class UserStore {
    var users: map<string, UserRow>
    var refreshTokens: map<string, TokenRow>

    ghost predicate Valid()
      reads this
    {
      Consistent(users, refreshTokens)
    }

    /** Empty tables, as created by the schema. */
    constructor ()
      ensures Valid() && users == map[] && refreshTokens == map[]
    {
      users := map[];
      refreshTokens := map[];
    }

    /**
     * `guardarRefreshToken`: inserts the row (id, user id, token, expiry) and
     * returns those values. An expiry past the last instant a `Date` holds
     * makes `toISOString` throw before the insert; a duplicate id or token,
     * or an unknown user, is rejected by the table. Either way nothing is
     * written.
     */
    method SaveRefreshToken(rowId: string, userId: string, token: string, expiresAt: nat)
      returns (saved: Option<SavedToken>)
      requires Valid()
      modifies this
      ensures Valid() && users == old(users)
      ensures saved.Some? <==> expiresAt <= MaxDateMillis && rowId !in old(refreshTokens) && userId in users
                               && !TokenStored(old(refreshTokens), token)
      ensures saved.Some? ==> saved.value == SavedToken(rowId, userId, token, expiresAt)
                              && refreshTokens == old(refreshTokens)[rowId := TokenRow(userId, token, expiresAt)]
      ensures saved.None? ==> refreshTokens == old(refreshTokens)
    {
      if expiresAt > MaxDateMillis {
        return None;
      }
      if rowId in refreshTokens || userId !in users || TokenStored(refreshTokens, token) {
        return None;
      }
      refreshTokens := refreshTokens[rowId := TokenRow(userId, token, expiresAt)];
      saved := Some(SavedToken(rowId, userId, token, expiresAt));
    }

    /** `buscarRefreshToken`: the row with this token, only while `expires_at > now`. */
    method FindRefreshToken(token: string, now: nat) returns (found: Option<SavedToken>)
      requires Valid()
      ensures found == LiveToken(refreshTokens, token, now)
    {
      if exists id :: id in refreshTokens && IsLive(refreshTokens[id], token, now) {
        var id :| id in refreshTokens && IsLive(refreshTokens[id], token, now);
        found := Some(SavedToken(id, refreshTokens[id].userId, token, refreshTokens[id].expiresAt));
      } else {
        found := None;
      }
    }

    /** `eliminarRefreshToken`: removes the rows carrying this token, if any. */
    method DeleteRefreshToken(token: string)
      requires Valid()
      modifies this
      ensures Valid() && users == old(users)
      ensures refreshTokens == WithoutToken(old(refreshTokens), token)
    {
      refreshTokens := map id | id in refreshTokens && refreshTokens[id].token != token :: refreshTokens[id];
    }

    /** `eliminarRefreshTokensUsuario`: removes exactly the tokens of one user. */
    method DeleteUserRefreshTokens(userId: string)
      requires Valid()
      modifies this
      ensures Valid() && users == old(users)
      ensures refreshTokens == WithoutUserTokens(old(refreshTokens), userId)
    {
      refreshTokens := map id | id in refreshTokens && refreshTokens[id].userId != userId :: refreshTokens[id];
    }

    /**
     * `crearUsuario`: inserts the user under a fresh id and returns its public
     * fields; a duplicate id or email is rejected by the table.
     */
    method CreateUser(id: string, name: string, email: string, password: PasswordHash)
      returns (created: Option<PublicUser>)
      requires Valid()
      modifies this
      ensures Valid() && refreshTokens == old(refreshTokens)
      ensures created.Some? <==> id !in old(users) && !EmailTaken(old(users), email)
      ensures created.Some? ==> created.value == PublicUser(id, name, email)
                                && users == old(users)[id := UserRow(name, email, password)]
      ensures created.None? ==> users == old(users)
    {
      if id in users || EmailTaken(users, email) {
        return None;
      }
      users := users[id := UserRow(name, email, password)];
      created := Some(PublicUser(id, name, email));
    }

    /** `buscarUsuarioPorEmail`: the user with exactly this email, with its stored hash. */
    method FindUserByEmail(email: string) returns (found: Option<Usuario>)
      requires Valid()
      ensures found == UserByEmail(users, email)
    {
      if EmailTaken(users, email) {
        var id :| id in users && users[id].email == email;
        found := Some(Usuario(id, users[id].name, email, users[id].password));
      } else {
        found := None;
      }
    }

    /** The lookup of a user by primary key that the project handlers rely on. */
    method FindUserById(id: string) returns (found: Option<PublicUser>)
      ensures found.Some? <==> id in users
      ensures found.Some? ==> found.value == PublicUser(id, users[id].name, users[id].email)
    {
      if id in users {
        found := Some(PublicUser(id, users[id].name, users[id].email));
      } else {
        found := None;
      }
    }

    /** Deleting a user cascades to its refresh tokens (`ON DELETE CASCADE`). */
    method DeleteUser(id: string)
      requires Valid()
      modifies this
      ensures Valid()
      ensures users == old(users) - {id}
      ensures refreshTokens == WithoutUserTokens(old(refreshTokens), id)
    {
      users := users - {id};
      refreshTokens := map r | r in refreshTokens && refreshTokens[r].userId != id :: refreshTokens[r];
    }
  }
}
