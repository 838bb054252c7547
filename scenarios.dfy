/** Client-side scenarios that drive the controller through its contracts
    alone, with a small stand-in for the hashing primitives. The handle and
    e-mail addresses are parameters (any already-normal strings); `EndToEnd`
    calls the scenarios with "alice", "a@x.com" and "a2@x.com". */
module Scenarios {
  import opened Models
  import opened Normalization
  import opened Credentials
  import opened Conflicts
  import opened UserStore
  import opened UserController

  /** A stand-in for PBKDF2 and Base64 that tells three passwords apart. It
      ignores the salt; no scenario depends on it. */
  function ToyCrypto(): Crypto {
    Crypto(
      (p: string, s: seq<byte>, prf: Prf, n: nat, len: nat) =>
        if p == "Secr3t!" then [1] else if p == "guess" then [2] else [3],
      (b: seq<byte>) => if b == [1] then "AQ==" else if b == [2] then "Ag==" else "Aw==")
  }

  function ToyToken(u: User): string {
    "token:" + u.username
  }

  function SomeSalt(): (s: seq<byte>)
    ensures ValidSalt(s)
  {
    seq(SaltLength, i => 7)
  }

  /** The record alice registers with. */
  function Alice(handle: string, email: string): (u: User)
    ensures u.username == handle && u.email == email
    ensures ValidSalt(u.salt) && u.salt == SomeSalt()
    ensures VerifyPassword(ToyCrypto(), u, "Secr3t!")
  {
    NewUser(ToyCrypto(), 1, handle, email, "Alice", "A", SomeSalt(), "Secr3t!")
  }

  /** A salt the sender of a forged request picks: 16 non-zero bytes. */
  function MallorySalt(): (s: seq<byte>)
    ensures ValidSalt(s)
  {
    seq(SaltLength, i => 9)
  }

  /** A password-change request that names alice by her identifier, handle
      and e-mail address, but carries a salt and a hash its sender chose, for
      a password the sender knows. */
  function ForgedRequest(handle: string, email: string, salt: seq<byte>): UserChangePassword {
    UserChangePassword(Alice(handle, email).id, handle, email, "Mallory", "M", salt,
                       HashPassword(ToyCrypto(), "guess", salt), "guess", "mine")
  }

  lemma ToyRejects(u: User, p: string)
    requires u.hashedPassword == HashPassword(ToyCrypto(), "Secr3t!", u.salt)
    requires p != "Secr3t!"
    ensures !VerifyPassword(ToyCrypto(), u, p)
  {
  }

  /** As written, the forged request passes the old-password check, whatever
      salt its sender picked, although alice's stored record rejects that
      password. With an empty salt the record it would store also breaks the
      store invariant. */
  lemma ForgedRequestAccepted(handle: string, email: string, salt: seq<byte>)
    ensures var forged := ForgedRequest(handle, email, salt);
      && forged.id == Alice(handle, email).id
      && forged.username == Alice(handle, email).username
      && !VerifyPassword(ToyCrypto(), Alice(handle, email), forged.oldPassword)
      && VerifyPassword(ToyCrypto(), forged.ToUser(), forged.oldPassword)
    ensures var forged := ForgedRequest(handle, email, salt);
      salt == [] ==>
        !StoreInvariant(map[handle := Alice(handle, email)][handle := WithPassword(ToyCrypto(), forged.ToUser(), forged.newPassword)])
  {
    var forged := ForgedRequest(handle, email, salt);
    var written := WithPassword(ToyCrypto(), forged.ToUser(), forged.newPassword);
    ToyRejects(Alice(handle, email), forged.oldPassword);
    if salt == [] {
      assert !ValidSalt(map[handle := Alice(handle, email)][handle := written][handle].salt);
    }
  }

  /** Registering alice in an empty store creates exactly her record;
      registering her handle again with another e-mail address is turned
      away as a handle conflict and writes nothing. */
  method RegisterThenConflict(handle: string, email: string, otherEmail: string)
    requires IsNormal(handle) && IsNormal(email) && IsNormal(otherEmail) && email != otherEmail
  {
    var store := new CosmosStore(map[]);
    var api := new UserController(store, ToyCrypto(), ToyToken);
    NormalizeFixpoint(handle);
    NormalizeFixpoint(email);
    NormalizeFixpoint(otherEmail);

    var r1 := api.RegisterUser(UserRegister(handle, email, "Secr3t!", "Alice", "A"),
                               SomeSalt(), 1, false);
    assert r1 == Respond(Default(true, UserCreated, None));
    assert store.records == map[handle := Alice(handle, email)];
    assert StoreInvariant(store.records);

    ghost var before := store.records;
    assert Taken(before, otherEmail, handle) by {
      assert MatchesEmailOrHandle(before[handle], otherEmail, handle);
    }
    var r2 := api.RegisterUser(UserRegister(handle, otherEmail, "x", "", ""), SomeSalt(), 2, false);
    ghost var k :| k in before && r2 == Respond(ConflictResponse(FindConflict([before[k]], otherEmail, handle)));
    assert k == handle;
    assert r2 == Respond(Default(false, "UserHandle already in use", Some(BadRequest)));
    assert store.records == before;
  }

  /** With alice stored: her password logs her in with her record and its
      token, a wrong one is "Incorrect password", and an e-mail address no
      record has is "Email address not found". */
  method LoginOutcomes(handle: string, email: string, otherEmail: string)
    requires IsNormal(email) && IsNormal(otherEmail) && email != otherEmail
  {
    var alice := Alice(handle, email);
    var store := new CosmosStore(map[handle := alice]);
    var api := new UserController(store, ToyCrypto(), ToyToken);
    NormalizeFixpoint(email);
    NormalizeFixpoint(otherEmail);
    assert UniqueEmails(store.records);
    assert handle in store.records && store.records[handle].email == Normalize(email);

    var r1 := api.Login(UserLogin(email, "Secr3t!"));
    assert r1 == DefaultWithUserAndToken(true, LoggedIn, alice, ToyToken(alice));

    ToyRejects(alice, "wrong");
    var r2 := api.Login(UserLogin(email, "wrong"));
    assert r2 == Default(false, IncorrectPassword, None);

    var r3 := api.Login(UserLogin(otherEmail, "Secr3t!"));
    assert r3 == Default(false, EmailNotFound, None);
  }

  /** The forged request, with alice's identifier and a valid salt its sender
      picked, takes over alice's record through `ChangePassword`: the record
      under her handle keeps her identifier and e-mail address, passes the
      store invariant, and accepts the sender's new password but not hers.
      With an empty salt the same request leaves a record that breaks the
      invariant. The stored-record check of `ChangeStoredPassword` turns the
      request away and writes nothing. */
  method ForgedPasswordChange(handle: string, email: string) {
    var alice := Alice(handle, email);
    var store := new CosmosStore(map[handle := alice]);
    var api := new UserController(store, ToyCrypto(), ToyToken);
    ForgedRequestAccepted(handle, email, MallorySalt());
    var r1 := api.ChangePassword(ForgedRequest(handle, email, MallorySalt()), false);
    assert r1 == Respond(Default(true, PasswordChanged, None));
    assert store.records.Keys == {handle};
    assert store.records[handle].id == alice.id && store.records[handle].email == email;
    assert StoreInvariant(store.records);
    assert VerifyPassword(ToyCrypto(), store.records[handle], "mine");
    ToyRejects(alice, "mine");
    assert !VerifyPassword(ToyCrypto(), store.records[handle], "Secr3t!") by {
      assert store.records[handle].hashedPassword == HashPassword(ToyCrypto(), "mine", MallorySalt());
    }

    var brokenStore := new CosmosStore(map[handle := alice]);
    var brokenApi := new UserController(brokenStore, ToyCrypto(), ToyToken);
    ForgedRequestAccepted(handle, email, []);
    var r2 := brokenApi.ChangePassword(ForgedRequest(handle, email, []), false);
    assert r2 == Respond(Default(true, PasswordChanged, None));
    assert !StoreInvariant(brokenStore.records);

    var safeStore := new CosmosStore(map[handle := alice]);
    var safeApi := new UserController(safeStore, ToyCrypto(), ToyToken);
    var r3 := safeApi.ChangeStoredPassword(ForgedRequest(handle, email, MallorySalt()), false);
    assert r3 == Respond(Default(false, IncorrectPassword, None));
    assert safeStore.records == map[handle := alice];
  }

  /** Alice changes her password through the stored-record check: the new
      password is accepted, the old one is not, and the salt is kept. */
  method ChangeOwnPassword(handle: string, email: string) {
    var a := Alice(handle, email);
    var store := new CosmosStore(map[handle := a]);
    var api := new UserController(store, ToyCrypto(), ToyToken);
    var request := UserChangePassword(a.id, a.username, a.email, a.firstName, a.lastName,
                                      a.salt, a.hashedPassword, "Secr3t!", "guess");
    var r := api.ChangeStoredPassword(request, false);
    assert r == Respond(Default(true, PasswordChanged, None));
    assert store.records[handle].salt == a.salt;
    assert VerifyPassword(ToyCrypto(), store.records[handle], "guess");
    assert !VerifyPassword(ToyCrypto(), store.records[handle], "Secr3t!");
    assert StoreInvariant(store.records);
  }

  method EndToEnd() {
    assert IsNormal("alice") && IsNormal("a@x.com") && IsNormal("a2@x.com");
    assert "a@x.com" != "a2@x.com" by { assert |"a@x.com"| == 7; }
    RegisterThenConflict("alice", "a@x.com", "a2@x.com");
    LoginOutcomes("alice", "a@x.com", "a2@x.com");
    ForgedPasswordChange("alice", "a@x.com");
    ChangeOwnPassword("alice", "a@x.com");
  }
}
