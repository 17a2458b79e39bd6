/**
 The `/register` and `/login` handlers (server/routes/auth.js) as pure
 decisions over a user store. The database, the password hasher, the token
 signer and the clock are parameters: hashing and comparison are arbitrary
 functions, assumed only to accept a password against its own hash; a token
 is modelled by its claims; each call that can throw is given as a
 flag in `Faults`.
 */
module Auth {
  import opened Optional

  type Email = string
  type Password = string
  type UserId = string
  type PasswordHash = string

  /** A stored user: its generated id and its password hash. */
  datatype User = User(id: UserId, passwordHash: PasswordHash)

  /** The user collection, keyed by the exact email string. */
  type Store = map<Email, User>

  /** The request body's two fields; `None` is a missing field (`undefined` or `null`). */
  datatype Credentials = Credentials(email: Option<string>, password: Option<string>)

  /** The password hasher used when a user is saved, and the password check of a stored user. */
  datatype Crypto = Crypto(hash: Password -> PasswordHash, compare: (Password, PasswordHash) -> bool)

  /** Which of the calls throw: the lookup, the save, the password check, the signing. */
  datatype Faults = Faults(lookup: bool, save: bool, compare: bool, sign: bool)

  /** The claims of a signed token: subject id, issue time and expiry, in seconds. */
  datatype Token = Token(id: UserId, iat: int, exp: int)

  datatype Body = TokenBody(token: Token) | ErrorBody(error: string)

  datatype Response = Response(status: nat, body: Body)

  /** A call made on the user collection. */
  datatype Access = FindOne(email: Email) | Save(email: Email)

  /** The store after a request, the response sent and the store calls made, in order. */
  datatype Reply = Reply(store: Store, response: Response, accesses: seq<Access>)

  const NoFaults := Faults(false, false, false, false)

  /** The `expiresIn: "7d"` lifetime of a token, in seconds. */
  const TokenLifetime: int := 7 * 24 * 60 * 60

  const MissingFieldsError := "Email and password are required"
  const UserExistsError := "User already exists"
  const RegisterFailedError := "Registration failed"
  const InvalidCredentialsError := "Invalid credentials"
  const LoginFailedError := "Login failed"

  /** The one response of both login failures, whichever check failed. */
  const InvalidCredentials := Response(401, ErrorBody(InvalidCredentialsError))

  /** The axiom on the hasher: a password is accepted against its own hash. */
  ghost predicate ComparesOwnHash(crypto: Crypto) {
    forall p :: crypto.compare(p, crypto.hash(p))
  }

  /** A field passes `!field` only when it is present and not the empty string. */
  predicate Given(field: Option<string>) {
    field.Some? && field.value != ""
  }

  /** Both fields are given. */
  predicate Valid(body: Credentials) {
    Given(body.email) && Given(body.password)
  }

  /** Signing `{ id }` at time `now` with a seven-day expiry. */
  function Sign(id: UserId, now: int): (t: Token)
    ensures t.id == id
    ensures t.iat == now && t.exp - t.iat == 604800
  {
    Token(id, now, now + TokenLifetime)
  }

  /**
   `POST /auth/register`. Missing fields give 400 before the store is
   touched; an email already stored gives 409; otherwise the user is saved
   under the exact email with a fresh id and the hash of the password, and
   201 carries a token for that id. A throwing call gives 500; a signing
   failure comes after the save, so the user stays stored.
   */
  function Register(store: Store, body: Credentials, crypto: Crypto, newId: UserId, now: int, faults: Faults): (r: Reply)
    ensures !Valid(body) <==> r.accesses == []
    ensures !Valid(body) ==> r.store == store && r.response == Response(400, ErrorBody(MissingFieldsError))
    ensures Valid(body) ==> r.accesses[0] == FindOne(body.email.value)
    ensures Valid(body) && !faults.lookup && body.email.value in store
            ==> r.store == store && r.response == Response(409, ErrorBody(UserExistsError))
    ensures r.store != store
            ==> Valid(body) && body.email.value !in store
                && r.store == store[body.email.value := User(newId, crypto.hash(body.password.value))]
    ensures r.response.status == 201
            ==> r.store != store && r.response.body == TokenBody(Sign(newId, now))
    ensures r.response.status in {201, 400, 409, 500}
    ensures r.response.status == 500 ==> r.response.body == ErrorBody(RegisterFailedError)
    ensures Valid(body) && (faults.lookup || (body.email.value !in store && (faults.save || faults.sign)))
            ==> r.response == Response(500, ErrorBody(RegisterFailedError))
    ensures faults.lookup || faults.save ==> r.store == store
    ensures Valid(body) && !faults.lookup && !faults.save && !faults.sign && body.email.value !in store
            ==> r.response == Response(201, TokenBody(Sign(newId, now)))
    ensures Valid(body) && !faults.lookup && !faults.save && body.email.value !in store
            ==> r.store == store[body.email.value := User(newId, crypto.hash(body.password.value))]
  {
    if !Valid(body) then
      Reply(store, Response(400, ErrorBody(MissingFieldsError)), [])
    else
      var email, password := body.email.value, body.password.value;
      var lookup := [FindOne(email)];
      if faults.lookup then
        Reply(store, Response(500, ErrorBody(RegisterFailedError)), lookup)
      else if email in store then
        Reply(store, Response(409, ErrorBody(UserExistsError)), lookup)
      else if faults.save then
        Reply(store, Response(500, ErrorBody(RegisterFailedError)), lookup + [Save(email)])
      else
        var saved := store[email := User(newId, crypto.hash(password))];
        assert email in saved && email !in store;
        if faults.sign then
          Reply(saved, Response(500, ErrorBody(RegisterFailedError)), lookup + [Save(email)])
        else
          Reply(saved, Response(201, TokenBody(Sign(newId, now))), lookup + [Save(email)])
  }

  /**
   `POST /auth/login`. Missing fields give 400 before the store is touched;
   an unknown email and a wrong password both give the same 401; a matching
   password gives 200 with a token for the stored user's id. A throwing call
   gives 500. The store is only read.
   */
  function Login(store: Store, body: Credentials, crypto: Crypto, now: int, faults: Faults): (r: Reply)
    ensures r.store == store
    ensures !Valid(body) <==> r.accesses == []
    ensures !Valid(body) ==> r.response == Response(400, ErrorBody(MissingFieldsError))
    ensures Valid(body) ==> r.accesses == [FindOne(body.email.value)]
    ensures r.response.status == 200
            ==> && Valid(body) && body.email.value in store
                && crypto.compare(body.password.value, store[body.email.value].passwordHash)
                && r.response.body == TokenBody(Sign(store[body.email.value].id, now))
    ensures Valid(body) && !faults.lookup && !faults.compare && !faults.sign && body.email.value in store
            && crypto.compare(body.password.value, store[body.email.value].passwordHash)
            ==> r.response == Response(200, TokenBody(Sign(store[body.email.value].id, now)))
    ensures Valid(body) && !faults.lookup && body.email.value !in store ==> r.response == InvalidCredentials
    ensures Valid(body) && !faults.lookup && !faults.compare && body.email.value in store
            && !crypto.compare(body.password.value, store[body.email.value].passwordHash)
            ==> r.response == InvalidCredentials
    ensures r.response.status in {200, 400, 401, 500}
    ensures r.response.status == 401 ==> r.response == InvalidCredentials
    ensures r.response.status == 500 ==> r.response.body == ErrorBody(LoginFailedError)
    ensures Valid(body)
            && (|| faults.lookup
                || (body.email.value in store && faults.compare)
                || (body.email.value in store
                    && crypto.compare(body.password.value, store[body.email.value].passwordHash)
                    && faults.sign))
            ==> r.response == Response(500, ErrorBody(LoginFailedError))
  {
    if !Valid(body) then
      Reply(store, Response(400, ErrorBody(MissingFieldsError)), [])
    else
      var email, password := body.email.value, body.password.value;
      var lookup := [FindOne(email)];
      if faults.lookup then
        Reply(store, Response(500, ErrorBody(LoginFailedError)), lookup)
      else if email !in store then
        Reply(store, InvalidCredentials, lookup)
      else if faults.compare then
        Reply(store, Response(500, ErrorBody(LoginFailedError)), lookup)
      else if !crypto.compare(password, store[email].passwordHash) then
        Reply(store, InvalidCredentials, lookup)
      else if faults.sign then
        Reply(store, Response(500, ErrorBody(LoginFailedError)), lookup)
      else
        Reply(store, Response(200, TokenBody(Sign(store[email].id, now))), lookup)
  }

  /** Without faults, registering a new email adds exactly that user and answers 201. */
  lemma RegisterFresh(store: Store, body: Credentials, crypto: Crypto, newId: UserId, now: int)
    requires Valid(body) && body.email.value !in store
    ensures var r := Register(store, body, crypto, newId, now, NoFaults);
            && r.response == Response(201, TokenBody(Sign(newId, now)))
            && r.store.Keys == store.Keys + {body.email.value}
            && r.store[body.email.value].id == newId
            && forall e :: e in store ==> r.store[e] == store[e]
  {
  }

  /** Once an email is registered, registering it again is refused, whatever the password. */
  lemma RegisterTwiceConflicts(store: Store, body: Credentials, again: Credentials, crypto: Crypto,
                               id1: UserId, id2: UserId, now1: int, now2: int, faults: Faults)
    requires Register(store, body, crypto, id1, now1, NoFaults).response.status == 201
    requires again.email == body.email && Given(again.password) && !faults.lookup
    ensures var first := Register(store, body, crypto, id1, now1, NoFaults);
            var second := Register(first.store, again, crypto, id2, now2, faults);
            && second.response == Response(409, ErrorBody(UserExistsError))
            && second.store == first.store
  {
  }

  /** The two login failures give the same status and body. */
  lemma LoginFailuresIndistinguishable(store: Store, unknown: Credentials, wrong: Credentials,
                                       crypto: Crypto, now1: int, now2: int, faults: Faults)
    requires Valid(unknown) && unknown.email.value !in store
    requires Valid(wrong) && wrong.email.value in store
    requires !crypto.compare(wrong.password.value, store[wrong.email.value].passwordHash)
    requires !faults.lookup && !faults.compare
    ensures Login(store, unknown, crypto, now1, faults).response
         == Login(store, wrong, crypto, now2, faults).response
  {
  }

  /** Logging in with the password just registered yields a token for the new user's id. */
  lemma RegisterThenLogin(store: Store, body: Credentials, crypto: Crypto, newId: UserId, now1: int, now2: int)
    requires ComparesOwnHash(crypto)
    requires Register(store, body, crypto, newId, now1, NoFaults).response.status == 201
    ensures var registered := Register(store, body, crypto, newId, now1, NoFaults);
            var r := Login(registered.store, body, crypto, now2, NoFaults);
            && r.response.status == 200
            && r.response.body.token.id == newId
            && r.response.body.token.exp == now2 + TokenLifetime
  {
  }

  /**
   Emails are compared as exact strings: any two different email strings,
   for instance ones differing only in letter case, register as two users.
   */
  lemma EmailsAreCaseSensitive(store: Store, b1: Credentials, b2: Credentials, crypto: Crypto,
                               id1: UserId, id2: UserId, now1: int, now2: int)
    requires Valid(b1) && Valid(b2) && b1.email.value != b2.email.value
    requires b1.email.value !in store && b2.email.value !in store
    ensures var first := Register(store, b1, crypto, id1, now1, NoFaults);
            var second := Register(first.store, b2, crypto, id2, now2, NoFaults);
            && first.response.status == 201
            && second.response.status == 201
            && second.store.Keys == store.Keys + {b1.email.value, b2.email.value}
  {
  }

}
