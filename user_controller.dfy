/** The user controller's credential lifecycle: registration with its conflict
    check, login, and password change, over the document store of `UserStore`.
    HTTP routing, attributes, status codes other than the conflict one, and
    `async` are not modelled. */
module UserController {
  import opened Models
  import opened Normalization
  import opened Credentials
  import opened Conflicts
  import opened UserStore

  datatype HttpStatusCode = BadRequest

  /** `Responses.Default` and `Responses.DefaultWithUserAndToken`. */
  datatype Response =
    | Default(success: bool, message: string, statusCode: Option<HttpStatusCode>)
    | DefaultWithUserAndToken(success: bool, message: string, user: User, token: string)

  /** How an action ends: with a response, with `return default` (no response
      object at all), or with an exception that escapes the action. */
  datatype Reply = Respond(response: Response) | NoResponse | Thrown

  const UserCreated := "User created"
  const EmailNotFound := "Email address not found"
  const LoggedIn := "User found and logged in successfully"
  const IncorrectPassword := "Incorrect password"
  const PasswordChanged := "Password changed successfully"

  /** The failed response for a registration conflict: unsuccessful, with
      status BadRequest, and with a message that names exactly this conflict
      kind and is never the success message. */
  function ConflictResponse(k: Conflict): (r: Response)
    requires k != NoConflict
    ensures r.Default? && !r.success && r.statusCode == Some(BadRequest)
    ensures forall l :: l != NoConflict ==> (r.message == ConflictMessage(l) <==> l == k)
    ensures r.message != UserCreated
  {
    Default(false, ConflictMessage(k), Some(BadRequest))
  }

  /** The record a successful registration stores: the given fields, and the
      hash of the password under the given salt. It verifies against that
      password. */
  function NewUser(c: Crypto, id: Guid, username: string, email: string, firstName: string,
                   lastName: string, salt: seq<byte>, password: string): (u: User)
    ensures u.id == id && u.username == username && u.email == email
    ensures u.firstName == firstName && u.lastName == lastName && u.salt == salt
    ensures VerifyPassword(c, u, password)
  {
    User(id, username, email, firstName, lastName, salt, HashPassword(c, password, salt))
  }

  /** Some stored record has the e-mail address or the handle. */
  ghost predicate Taken(records: map<string, User>, email: string, username: string) {
    exists k :: k in records && MatchesEmailOrHandle(records[k], email, username)
  }

  /** Some stored record has the e-mail address. */
  ghost predicate EmailRegistered(records: map<string, User>, email: string) {
    exists k :: k in records && records[k].email == email
  }

  ghost predicate IdUnused(records: map<string, User>, id: Guid) {
    forall k :: k in records ==> records[k].id != id
  }

  ghost predicate ValidSalts(records: map<string, User>) {
    forall k :: k in records ==> ValidSalt(records[k].salt)
  }

  /** What the data model promises of the store: records keyed by handle,
      unique e-mail addresses and identifiers, and 16-byte non-zero salts. */
  ghost predicate StoreInvariant(records: map<string, User>) {
    && KeyedByUsername(records)
    && UniqueEmails(records)
    && UniqueIds(records)
    && ValidSalts(records)
  }

  /** Adding a record whose handle and e-mail are free, whose identifier is
      unused and whose salt is valid keeps the store invariant, and adds one
      record. */
  lemma RegisterKeepsInvariant(records: map<string, User>, u: User)
    requires StoreInvariant(records)
    requires !Taken(records, u.email, u.username)
    requires IdUnused(records, u.id) && ValidSalt(u.salt)
    ensures StoreInvariant(records[u.username := u])
    ensures |records[u.username := u]| == |records| + 1
  {
    var r := records[u.username := u];
    assert u.username !in records by {
      if u.username in records {
        assert MatchesEmailOrHandle(records[u.username], u.email, u.username);
      }
    }
    forall k, l | k in r && l in r && r[k].email == r[l].email
      ensures k == l
    {
      if k == u.username && l != u.username {
        assert MatchesEmailOrHandle(records[l], u.email, u.username);
      } else if l == u.username && k != u.username {
        assert MatchesEmailOrHandle(records[k], u.email, u.username);
      }
    }
  }

  /** Replacing a stored record's hash keeps the store invariant: handle,
      e-mail, identifier and salt are all untouched. */
  lemma RehashKeepsInvariant(records: map<string, User>, key: string, c: Crypto, password: string)
    requires StoreInvariant(records)
    requires key in records
    ensures StoreInvariant(records[key := WithPassword(c, records[key], password)])
  {
    var r := records[key := WithPassword(c, records[key], password)];
    assert forall k :: k in r ==> r[k].email == records[k].email && r[k].id == records[k].id;
  }

  class UserController {
    const userHelper: CosmosStore
    const crypto: Crypto
    /** `JwtService.GenerateJwtToken`: an opaque token for a user. */
    const generateJwtToken: User -> string

    ghost predicate Valid()
      reads userHelper
    {
      KeyedByUsername(userHelper.records)
    }

    constructor (store: CosmosStore, crypto: Crypto, jwt: User -> string)
      requires KeyedByUsername(store.records)
      ensures Valid()
      ensures userHelper == store && this.crypto == crypto && generateJwtToken == jwt
    {
      userHelper := store;
      this.crypto := crypto;
      generateJwtToken := jwt;
    }

    /** `RegisterUser`. `salt` is what the random source produced for the
        16-byte buffer and `userId` what `Guid.NewGuid` returned; `fault`
        says whether the store's upsert throws. On a conflict the reply names
        the conflict that some matching stored record (the first the query
        returned) gives, and nothing is written; otherwise exactly one record
        is upserted, under the normalised handle. */
    method RegisterUser(newUser: UserRegister, salt: seq<byte>, userId: Guid, fault: bool)
      returns (reply: Reply)
      requires Valid()
      requires ValidSalt(salt)
      requires IdUnused(userHelper.records, userId)
      modifies userHelper
      ensures Valid()
      ensures StoreInvariant(old(userHelper.records)) ==> StoreInvariant(userHelper.records)
      ensures var email, username := Normalize(newUser.email), Normalize(newUser.username);
        Taken(old(userHelper.records), email, username) ==>
          && userHelper.records == old(userHelper.records)
          && userHelper.log == old(userHelper.log)
          && exists k :: k in old(userHelper.records)
               && MatchesEmailOrHandle(old(userHelper.records)[k], email, username)
               && reply == Respond(ConflictResponse(FindConflict([old(userHelper.records)[k]], email, username)))
      ensures var email, username := Normalize(newUser.email), Normalize(newUser.username);
        var u := NewUser(crypto, userId, username, email, newUser.firstName, newUser.lastName,
                         salt, newUser.password);
        !Taken(old(userHelper.records), email, username) ==>
          if fault then
            && reply == Thrown
            && userHelper.records == old(userHelper.records)
            && userHelper.log == old(userHelper.log)
          else
            && reply == Respond(Default(true, UserCreated, None))
            && userHelper.records == old(userHelper.records)[username := u]
            && userHelper.log == old(userHelper.log) + [(username, u)]
    {
      var email := Normalize(newUser.email);
      var username := Normalize(newUser.username);

      var existing := userHelper.GetMultiple(u => MatchesEmailOrHandle(u, email, username));
      var conflict := FindConflict(existing, email, username);
      if conflict != NoConflict {
        var first := existing[0];
        assert first in userHelper.records.Values;
        var k :| k in userHelper.records && userHelper.records[k] == first;
        assert FindConflict([first], email, username) == conflict;
        return Respond(ConflictResponse(conflict));
      }
      NoConflictIffNothingFound(existing, email, username);
      assert !Taken(userHelper.records, email, username);

      var hashed := HashPassword(crypto, newUser.password, salt);
      var fullUser := User(userId, username, email, newUser.firstName, newUser.lastName, salt, hashed);
      if StoreInvariant(userHelper.records) {
        RegisterKeepsInvariant(userHelper.records, fullUser);
      }
      var ok := userHelper.Update(username, fullUser, fault);
      if !ok {
        return Thrown;
      }
      return Respond(Default(true, UserCreated, None));
    }

    /** `Login`. It reads the store and never writes it. "Email address not
        found" exactly when no stored record has the normalised e-mail; a
        success carries a stored record with that e-mail which verifies, and
        the token issued for it; otherwise "Incorrect password". When e-mail
        addresses are unique the outcome is fixed by the one matching record. */
    method Login(userLogin: UserLogin) returns (r: Response)
      ensures var email := Normalize(userLogin.email);
        !EmailRegistered(userHelper.records, email) <==> r == Default(false, EmailNotFound, None)
      ensures var email := Normalize(userLogin.email);
        r.success ==>
          && r.DefaultWithUserAndToken?
          && r.message == LoggedIn
          && r.user in userHelper.records.Values
          && r.user.email == email
          && VerifyPassword(crypto, r.user, userLogin.password)
          && r.token == generateJwtToken(r.user)
      ensures var email := Normalize(userLogin.email);
        EmailRegistered(userHelper.records, email) && !r.success ==>
          && r == Default(false, IncorrectPassword, None)
          && exists k :: k in userHelper.records && userHelper.records[k].email == email
               && !VerifyPassword(crypto, userHelper.records[k], userLogin.password)
      ensures var email := Normalize(userLogin.email);
        UniqueEmails(userHelper.records) ==>
          forall k :: k in userHelper.records && userHelper.records[k].email == email ==>
            r == if VerifyPassword(crypto, userHelper.records[k], userLogin.password)
                 then DefaultWithUserAndToken(true, LoggedIn, userHelper.records[k],
                                              generateJwtToken(userHelper.records[k]))
                 else Default(false, IncorrectPassword, None)
    {
      var email := Normalize(userLogin.email);
      var userList := userHelper.GetMultiple((u: User) => u.email == email);
      if |userList| == 0 {
        r := Default(false, EmailNotFound, None);
        return;
      }
      var user := userList[0];
      assert user in userHelper.records.Values;
      if VerifyPassword(crypto, user, userLogin.password) {
        var token := generateJwtToken(user);
        r := DefaultWithUserAndToken(true, LoggedIn, user, token);
      } else {
        r := Default(false, IncorrectPassword, None);
      }
    }

    /** `ChangePassword`, as the controller has it: the old password is checked
        against the salt and hash the REQUEST carries, and on success the
        request's own fields, with the new hash under the request's salt, are
        upserted under the request's user name. A store exception ends the
        action with no response. */
    method ChangePassword(user: UserChangePassword, fault: bool) returns (reply: Reply)
      requires Valid()
      modifies userHelper
      ensures Valid()
      ensures var u := user.ToUser();
        if !VerifyPassword(crypto, u, user.oldPassword) then
          && reply == Respond(Default(false, IncorrectPassword, None))
          && userHelper.records == old(userHelper.records)
          && userHelper.log == old(userHelper.log)
        else if fault then
          && reply == NoResponse
          && userHelper.records == old(userHelper.records)
          && userHelper.log == old(userHelper.log)
        else
          var updated := WithPassword(crypto, u, user.newPassword);
          && reply == Respond(Default(true, PasswordChanged, None))
          && userHelper.records == old(userHelper.records)[user.username := updated]
          && userHelper.log == old(userHelper.log) + [(user.username, updated)]
    {
      if VerifyPassword(crypto, user.ToUser(), user.oldPassword) {
        var hashed := HashPassword(crypto, user.newPassword, user.salt);
        var request := user.(hashedPassword := hashed);
        var userUpdate := request.ToUser();
        var ok := userHelper.Update(userUpdate.username, userUpdate, fault);
        if ok {
          reply := Respond(Default(true, PasswordChanged, None));
        } else {
          reply := NoResponse;
        }
      } else {
        reply := Respond(Default(false, IncorrectPassword, None));
      }
    }

    /** The password change with the old password checked against the record
        the store holds under the request's identifier and user name. Only that record's hash
        changes, rehashed under its own salt; the request's salt and hash are
        ignored. It keeps the store invariant. */
    method ChangeStoredPassword(user: UserChangePassword, fault: bool) returns (reply: Reply)
      requires Valid()
      modifies userHelper
      ensures Valid()
      ensures StoreInvariant(old(userHelper.records)) ==> StoreInvariant(userHelper.records)
      ensures var key := user.username;
        if key !in old(userHelper.records)
           || old(userHelper.records)[key].id != user.id
           || !VerifyPassword(crypto, old(userHelper.records)[key], user.oldPassword) then
          && reply == Respond(Default(false, IncorrectPassword, None))
          && userHelper.records == old(userHelper.records)
          && userHelper.log == old(userHelper.log)
        else if fault then
          && reply == NoResponse
          && userHelper.records == old(userHelper.records)
          && userHelper.log == old(userHelper.log)
        else
          var updated := WithPassword(crypto, old(userHelper.records)[key], user.newPassword);
          && reply == Respond(Default(true, PasswordChanged, None))
          && userHelper.records == old(userHelper.records)[key := updated]
          && userHelper.log == old(userHelper.log) + [(key, updated)]
    {
      var stored := userHelper.Get(user.id, user.username);
      if stored.None? || !VerifyPassword(crypto, stored.value, user.oldPassword) {
        return Respond(Default(false, IncorrectPassword, None));
      }
      var updated := WithPassword(crypto, stored.value, user.newPassword);
      if StoreInvariant(userHelper.records) {
        RehashKeepsInvariant(userHelper.records, user.username, crypto, user.newPassword);
      }
      var ok := userHelper.Update(user.username, updated, fault);
      if ok {
        reply := Respond(Default(true, PasswordChanged, None));
      } else {
        reply := NoResponse;
      }
    }
  }
}
