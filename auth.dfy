/** The two route handlers of the authentication server, as functions from
    the user store and the request to the response and the new store. The
    validation middleware runs first on both routes. */
module Auth {
  import opened Wrappers
  import opened Validation

  /** One registered account: the email and the bcrypt hash of its password. */
  datatype User = User(email: string, hashedPassword: string)

  /** The JSON body of a response: a message on failure, a token on success. */
  datatype Payload = Message(text: string) | Token(token: string)

  /** What a handler sends back: the HTTP status, the `success` flag and the body. */
  datatype Response = Response(status: nat, success: bool, payload: Payload)

  /** The random salt bcrypt draws for one hash. */
  type Salt = nat

  /** `bcrypt.hash(password, rounds)` with the salt it draws made explicit. */
  type Hasher = (string, nat, Salt) -> Call<string>

  /** `bcrypt.compare(password, hashedPassword)`. */
  type Verifier = (string, string) -> Call<bool>

  /** `jwt.sign({ email }, JWT_SECRET, { expiresIn: '1h' })`, issued at time `iat`. */
  type Signer = (string, nat) -> Call<string>

  const SaltRounds: nat := 10

  const StatusOk: nat := 200
  const StatusCreated: nat := 201
  const StatusUnauthorized: nat := 401
  const StatusConflict: nat := 409
  const StatusInternalError: nat := 500

  const MsgUserExists := "User already exists"
  const MsgInvalidCredentials := "Invalid credentials"
  const MsgInternal := "Internal server error"

  function Failure(status: nat, message: string): Response {
    Response(status, false, Message(message))
  }

  function Issued(status: nat, token: string): Response {
    Response(status, true, Token(token))
  }

  /** The one law assumed of bcrypt: a password matches any hash made of it. */
  ghost predicate HashLaw(hash: Hasher, verify: Verifier) {
    forall p, rounds, salt :: hash(p, rounds, salt).Done? ==> verify(p, hash(p, rounds, salt).value) == Done(true)
  }

  /** `users.some(user => user.email === email)`. */
  predicate Registered(users: seq<User>, email: string) {
    exists k :: 0 <= k < |users| && users[k].email == email
  }

  /** No two accounts share an email. */
  predicate UniqueEmails(users: seq<User>) {
    forall i, j :: 0 <= i < j < |users| ==> users[i].email != users[j].email
  }

  /** `users.find(user => user.email === email)`: the first account with that
      email (case-sensitive, exact), if there is one. */
  function Lookup(users: seq<User>, email: string): (r: Option<User>)
    ensures r.None? <==> !Registered(users, email)
    ensures r.Some? ==> exists k :: 0 <= k < |users| && users[k] == r.value && r.value.email == email
                                    && forall j :: 0 <= j < k ==> users[j].email != email
  {
    if users == [] then None
    else if users[0].email == email then Some(users[0])
    else
      ghost var rest := users[1..];
      assert forall k :: 0 <= k < |rest| ==> rest[k] == users[k + 1];
      Lookup(users[1..], email)
  }

  /** The store and the response after one signup request. */
  datatype SignupResult = SignupResult(response: Response, users: seq<User>)

  /** The `/api/signup` route: validate, reject a known email with 409, else
      hash, append the account, and sign a token. A throw from hashing or
      signing becomes a 500; the push happens before signing, so a signing
      fault leaves the account stored. */
  function SignupOutcome(users: seq<User>, email: Option<string>, password: Option<string>,
                         hash: Hasher, sign: Signer, salt: Salt, iat: nat): (r: SignupResult)
    ensures r.response.success <==> r.response.status == StatusCreated
    ensures r.response.success <==> r.response.payload.Token?
    ensures r.response.status in {StatusBadRequest, StatusConflict, StatusInternalError, StatusCreated}
    // the store grows by at most one account, carrying the request's email, at the end
    ensures r.users == users
            || (email.Some? && !Registered(users, email.value) && |r.users| == |users| + 1
                && r.users[..|users|] == users && r.users[|users|].email == email.value)
  {
    match Validate(email, password)
    case Reject(status, message) => SignupResult(Failure(status, message), users)
    case Admit(e, p) =>
      if Registered(users, e) then SignupResult(Failure(StatusConflict, MsgUserExists), users)
      else
        match hash(p, SaltRounds, salt)
        case Threw => SignupResult(Failure(StatusInternalError, MsgInternal), users)
        case Done(h) =>
          var stored := users + [User(e, h)];
          assert stored[..|users|] == users;
          match sign(e, iat)
          case Threw => SignupResult(Failure(StatusInternalError, MsgInternal), stored)
          case Done(token) => SignupResult(Issued(StatusCreated, token), stored)
  }

  /** The `/api/login` route: validate, look the email up, compare the
      password with the stored hash, and sign a token. An unknown email and
      a wrong password get the same answer; a throw becomes a 500. */
  function LoginOutcome(users: seq<User>, email: Option<string>, password: Option<string>,
                        verify: Verifier, sign: Signer, iat: nat): (r: Response)
    ensures r.success <==> r.status == StatusOk
    ensures r.success <==> r.payload.Token?
    ensures r.status in {StatusBadRequest, StatusUnauthorized, StatusInternalError, StatusOk}
  {
    match Validate(email, password)
    case Reject(status, message) => Failure(status, message)
    case Admit(e, p) =>
      match Lookup(users, e)
      case None => Failure(StatusUnauthorized, MsgInvalidCredentials)
      case Some(user) =>
        match verify(p, user.hashedPassword)
        case Threw => Failure(StatusInternalError, MsgInternal)
        case Done(false) => Failure(StatusUnauthorized, MsgInvalidCredentials)
        case Done(true) =>
          match sign(e, iat)
          case Threw => Failure(StatusInternalError, MsgInternal)
          case Done(token) => Issued(StatusOk, token)
  }

  /** A request the middleware rejects gets its 400 on either route and
      leaves the store exactly as it was. */
  lemma RejectedRequestTouchesNothing(users: seq<User>, email: Option<string>, password: Option<string>,
                                      hash: Hasher, verify: Verifier, sign: Signer, salt: Salt, iat: nat)
    requires Validate(email, password).Reject?
    ensures var v := Validate(email, password);
            SignupOutcome(users, email, password, hash, sign, salt, iat)
              == SignupResult(Failure(StatusBadRequest, v.message), users)
            && LoginOutcome(users, email, password, verify, sign, iat) == Failure(StatusBadRequest, v.message)
  {
  }

  /** Signing up an email that is already registered answers 409 and leaves
      every account, the first one's stored hash included, as it was. */
  lemma SignupDuplicate(users: seq<User>, e: string, p: string, hash: Hasher, sign: Signer, salt: Salt, iat: nat)
    requires Validate(Some(e), Some(p)).Admit?
    requires Registered(users, e)
    ensures SignupOutcome(users, Some(e), Some(p), hash, sign, salt, iat)
              == SignupResult(Failure(StatusConflict, MsgUserExists), users)
  {
  }

  /** Signing up a fresh email whose password hashes to `h` appends exactly
      the account `{e, h}` after the existing ones and answers 201 with the
      signed token, or 500 if signing throws (with the account already stored). */
  lemma SignupAppends(users: seq<User>, e: string, p: string, hash: Hasher, sign: Signer,
                      salt: Salt, iat: nat, h: string)
    requires Validate(Some(e), Some(p)).Admit?
    requires !Registered(users, e)
    requires hash(p, SaltRounds, salt) == Done(h)
    ensures var r := SignupOutcome(users, Some(e), Some(p), hash, sign, salt, iat);
            r.users == users + [User(e, h)]
            && (forall k :: 0 <= k < |users| ==> r.users[k] == users[k])
            && (sign(e, iat).Done? ==> r.response == Issued(StatusCreated, sign(e, iat).value))
            && (sign(e, iat).Threw? ==> r.response == Failure(StatusInternalError, MsgInternal))
  {
  }

  /** A 500 on signup comes from a throw in hashing or in signing, and only
      the latter leaves the new account stored. */
  lemma SignupInternalError(users: seq<User>, e: string, p: string, hash: Hasher, sign: Signer, salt: Salt, iat: nat)
    requires Validate(Some(e), Some(p)).Admit?
    requires !Registered(users, e)
    ensures var r := SignupOutcome(users, Some(e), Some(p), hash, sign, salt, iat);
            (r.response.status == StatusInternalError <==> (hash(p, SaltRounds, salt).Threw? || sign(e, iat).Threw?))
            && (r.response.status == StatusInternalError ==> r.response == Failure(StatusInternalError, MsgInternal))
            && (r.response.status == StatusInternalError && r.users != users ==> hash(p, SaltRounds, salt).Done?)
  {
  }

  /** No signup ever makes two accounts share an email. */
  lemma SignupKeepsEmailsUnique(users: seq<User>, email: Option<string>, password: Option<string>,
                                hash: Hasher, sign: Signer, salt: Salt, iat: nat)
    requires UniqueEmails(users)
    ensures UniqueEmails(SignupOutcome(users, email, password, hash, sign, salt, iat).users)
  {
    var r := SignupOutcome(users, email, password, hash, sign, salt, iat);
    if r.users != users {
      forall i, j | 0 <= i < j < |r.users|
        ensures r.users[i].email != r.users[j].email
      {
        if j == |users| {
          assert r.users[i] == users[i];
        } else {
          assert r.users[i] == users[i] && r.users[j] == users[j];
        }
      }
    }
  }

  /** Login answers 401 exactly when the email is unknown or the password
      does not match, and then with one and the same response. */
  lemma LoginUnauthorizedIff(users: seq<User>, e: string, p: string, verify: Verifier, sign: Signer, iat: nat)
    requires Validate(Some(e), Some(p)).Admit?
    ensures var r := LoginOutcome(users, Some(e), Some(p), verify, sign, iat);
            var unknown := !Registered(users, e);
            (r.status == StatusUnauthorized <==> (unknown || verify(p, Lookup(users, e).value.hashedPassword) == Done(false)))
            && (r.status == StatusUnauthorized ==> r == Failure(StatusUnauthorized, MsgInvalidCredentials))
  {
  }

  /** A valid login answers 500 exactly when the email is known and either
      the password check throws or, after a match, signing throws; the
      answer is then the generic message. It answers 200 exactly when the
      password matches and signing succeeds, with the signed token. */
  lemma LoginInternalError(users: seq<User>, e: string, p: string, verify: Verifier, sign: Signer, iat: nat)
    requires Validate(Some(e), Some(p)).Admit?
    ensures var r := LoginOutcome(users, Some(e), Some(p), verify, sign, iat);
            var known := Registered(users, e);
            var check := verify(p, if known then Lookup(users, e).value.hashedPassword else "");
            (r.status == StatusInternalError <==> (known && (check.Threw? || (check == Done(true) && sign(e, iat).Threw?))))
            && (r.status == StatusInternalError ==> r == Failure(StatusInternalError, MsgInternal))
            && (r.status == StatusOk <==> (known && check == Done(true) && sign(e, iat).Done?))
            && (r.status == StatusOk ==> r == Issued(StatusOk, sign(e, iat).value))
  {
  }

  /** An account just appended is the one a lookup of its email finds, when
      no earlier account had that email. */
  lemma LookupAppended(users: seq<User>, u: User)
    requires !Registered(users, u.email)
    ensures Lookup(users + [u], u.email) == Some(u)
  {
    var s := users + [u];
    assert s[|users|] == u;
    assert Registered(s, u.email);
    assert forall j :: 0 <= j < |users| ==> s[j] == users[j];
  }

  /** Signing up and then logging in with the same credentials succeeds,
      by the hash law, unless signing the login token throws. */
  lemma SignupThenLogin(users: seq<User>, e: string, p: string, hash: Hasher, verify: Verifier, sign: Signer,
                        salt: Salt, iatSignup: nat, iatLogin: nat)
    requires HashLaw(hash, verify)
    requires Validate(Some(e), Some(p)).Admit?
    requires !Registered(users, e)
    requires hash(p, SaltRounds, salt).Done?
    ensures var s := SignupOutcome(users, Some(e), Some(p), hash, sign, salt, iatSignup);
            var l := LoginOutcome(s.users, Some(e), Some(p), verify, sign, iatLogin);
            (sign(e, iatLogin).Done? ==> l == Issued(StatusOk, sign(e, iatLogin).value))
            && (sign(e, iatLogin).Threw? ==> l == Failure(StatusInternalError, MsgInternal))
  {
    var h := hash(p, SaltRounds, salt).value;
    LookupAppended(users, User(e, h));
  }
}
