/** The server process: the module-level `users` array that the handlers
    search with `find`/`some` and grow with `push`, and the two routes run
    against it one request at a time. */
module Server {
  import opened Wrappers
  import opened Validation
  import opened Auth

  class AuthServer {
    /** Every account registered since the process started, in signup order. */
    var users: seq<User>

    /** The library calls the handlers make; nothing is known of them but HashLaw. */
    const hash: Hasher
    const verify: Verifier
    const sign: Signer

    ghost predicate Valid()
      reads this
    {
      UniqueEmails(users) && HashLaw(hash, verify)
    }

    /** A fresh process: `const users: User[] = []`. */
    constructor (hash: Hasher, verify: Verifier, sign: Signer)
      requires HashLaw(hash, verify)
      ensures Valid()
      ensures users == [] && this.hash == hash && this.verify == verify && this.sign == sign
    {
      this.users := [];
      this.hash := hash;
      this.verify := verify;
      this.sign := sign;
    }

    /** `users.find(user => user.email === email)`. */
    method FindByEmail(email: string) returns (found: Option<User>)
      ensures found == Lookup(users, email)
    {
      var i := 0;
      while i < |users|
        invariant 0 <= i <= |users|
        invariant forall j :: 0 <= j < i ==> users[j].email != email
      {
        if users[i].email == email {
          return Some(users[i]);
        }
        i := i + 1;
      }
      return None;
    }

    /** `users.some(user => user.email === email)`. */
    method EmailTaken(email: string) returns (taken: bool)
      ensures taken == Registered(users, email)
    {
      var i := 0;
      while i < |users|
        invariant 0 <= i <= |users|
        invariant forall j :: 0 <= j < i ==> users[j].email != email
      {
        if users[i].email == email {
          return true;
        }
        i := i + 1;
      }
      return false;
    }

    /** `POST /api/login` after the middleware. It reads the store and never
        changes it (no `modifies` clause). */
    method Login(email: Option<string>, password: Option<string>, iat: nat) returns (res: Response)
      ensures res == LoginOutcome(users, email, password, verify, sign, iat)
    {
      var v := Validate(email, password);
      if v.Reject? {
        return Failure(v.status, v.message);
      }
      var user := FindByEmail(v.email);
      if user.None? {
        return Failure(StatusUnauthorized, MsgInvalidCredentials);
      }
      var passwordMatch := verify(v.password, user.value.hashedPassword);
      if passwordMatch.Threw? {
        return Failure(StatusInternalError, MsgInternal);
      }
      if !passwordMatch.value {
        return Failure(StatusUnauthorized, MsgInvalidCredentials);
      }
      var token := sign(v.email, iat);
      if token.Threw? {
        return Failure(StatusInternalError, MsgInternal);
      }
      return Issued(StatusOk, token.value);
    }

    /** `POST /api/signup` after the middleware. */
    method Signup(email: Option<string>, password: Option<string>, salt: Salt, iat: nat) returns (res: Response)
      requires Valid()
      modifies this
      ensures Valid()
      ensures var r := SignupOutcome(old(users), email, password, hash, sign, salt, iat);
              res == r.response && users == r.users
      // by HashLaw, a stored account's hash is one its password verifies against
      ensures users != old(users) ==> password.Some? && verify(password.value, users[|old(users)|].hashedPassword) == Done(true)
    {
      SignupKeepsEmailsUnique(users, email, password, hash, sign, salt, iat);
      var v := Validate(email, password);
      if v.Reject? {
        return Failure(v.status, v.message);
      }
      var userExists := EmailTaken(v.email);
      if userExists {
        return Failure(StatusConflict, MsgUserExists);
      }
      var hashedPassword := hash(v.password, SaltRounds, salt);
      if hashedPassword.Threw? {
        return Failure(StatusInternalError, MsgInternal);
      }
      users := users + [User(v.email, hashedPassword.value)];
      var token := sign(v.email, iat);
      if token.Threw? {
        return Failure(StatusInternalError, MsgInternal);
      }
      return Issued(StatusCreated, token.value);
    }
  }

  /** The worked example: signing up `a@b.com` gives 201 and a token, a
      second signup with that email gives 409, a wrong password gives 401 and
      the right one 200 with a token signed at login time. */
  method ExampleSession(hash: Hasher, verify: Verifier, sign: Signer, salt: Salt, otherSalt: Salt,
                        t1: nat, t2: nat, t3: nat, t4: nat)
    returns (created: Response, conflict: Response, rejected: Response, loggedIn: Response)
    requires HashLaw(hash, verify)
    requires hash("password1", SaltRounds, salt).Done?
    requires verify("wrong0000", hash("password1", SaltRounds, salt).value) == Done(false)
    requires sign("a@b.com", t1).Done? && sign("a@b.com", t4).Done?
    ensures created == Issued(StatusCreated, sign("a@b.com", t1).value)
    ensures conflict == Failure(StatusConflict, MsgUserExists)
    ensures rejected == Failure(StatusUnauthorized, MsgInvalidCredentials)
    ensures loggedIn == Issued(StatusOk, sign("a@b.com", t4).value)
  {
    var e, p, wrong := "a@b.com", "password1", "wrong0000";
    assert Utf16Length(p) == |p| && Utf16Length(wrong) == |wrong|;
    ExampleEmailAdmits(p);
    ExampleEmailAdmits(wrong);
    var h := hash(p, SaltRounds, salt).value;
    var server := new AuthServer(hash, verify, sign);
    SignupAppends([], e, p, hash, sign, salt, t1, h);
    created := server.Signup(Some(e), Some(p), salt, t1);
    assert server.users == [User(e, h)];
    assert Registered(server.users, e) by { assert server.users[0].email == e; }
    SignupDuplicate(server.users, e, p, hash, sign, otherSalt, t2);
    conflict := server.Signup(Some(e), Some(p), otherSalt, t2);
    LookupAppended([], User(e, h));
    LoginUnauthorizedIff(server.users, e, wrong, verify, sign, t3);
    rejected := server.Login(Some(e), Some(wrong), t3);
    SignupThenLogin([], e, p, hash, verify, sign, salt, t1, t4);
    loggedIn := server.Login(Some(e), Some(p), t4);
  }
}
