# DogWalkNation credential lifecycle in Dafny

This project models the credential logic of the DogWalkNation API's user
controller (`DogWalkNationAPI/Controllers/UserController.cs`). It covers:

- normalising e-mail addresses and user handles;
- the conflict decision of registration;
- registration, which picks a salt, hashes the password and upserts one record keyed by handle;
- password verification;
- login, which looks up by e-mail, verifies and issues a token;
- password change, which verifies, rehashes under the same salt and upserts.

The document store is a class over a map from handle to user record, with a ghost log of the upserts that took effect.

Modules, leaves first:

- `Models` (`models.dfy`): the user record and the three request bodies.
- `Normalization` (`normalization.dfy`): lower-casing and whitespace removal, as pure functions, with their properties.
- `Credentials` (`credentials.dfy`): hashing and `VerifyPassword`. PBKDF2 (RFC 8018 section 5.2) and Base64 (RFC 4648 section 4) are opaque functions carried in a `Crypto` value. The model takes one input per parameter: PRF HMAC-SHA256, 100000 iterations, 32-byte key. The KDF is not assumed to be injective; `CollisionFree` is stated only where a lemma needs it. A KDF with a fixed 32-byte output cannot be collision-free (there are more passwords than outputs); the hypothesis is satisfiable here only because the model leaves `pbkdf2`'s output length free, so `WrongPasswordRejected` is the idealised form of the rejection property.
- `Conflicts` (`conflicts.dfy`): the decision on the first record the query returned, and the three messages.
- `UserStore` (`user_store.dfy`): class `CosmosStore`. It models the three store calls the controller makes: `GetMultiple` (result order unspecified), `Get` and `Update` (which may throw).
- `UserController` (`user_controller.dfy`): class `UserController` with `RegisterUser`, `Login` and `ChangePassword`; the store invariant; and the corrected `ChangeStoredPassword` (see Findings).
- `Scenarios` (`scenarios.dfy`): client methods that drive the controller through its contracts alone. They use a stand-in `Crypto`, and `EndToEnd` calls them with "alice", "a@x.com" and "a2@x.com". They cover:
  - registering twice, where the second attempt gets "UserHandle already in use";
  - the three login outcomes;
  - a forged password change;
  - an honest password change.

Entropy and faults are inputs:

- The salt that `GetNonZeroBytes` fills is a parameter constrained by `ValidSalt`: 16 bytes, all non-zero.
- The identifier from `Guid.NewGuid` is a parameter that no stored record uses.
- A `fault` flag says whether the store's upsert throws a `CosmosException`. In `RegisterUser` the exception escapes (`Thrown`). In `ChangePassword` it is caught and the action returns `default`, which is null (`NoResponse`).

The model follows the code where a safer design would differ:

- No new salt is generated on a password change. The as-written `ChangePassword` rehashes under, and stores, the salt the request carries, which may differ from the stored one; only the corrected `ChangeStoredPassword` keeps the stored salt.
- A `CosmosException` from the store during a password change yields no response at all, rather than a failure being raised.
- Hashes are compared with ordinary equality.
- Only the first returned record is inspected.

## Model

| member | source | states |
|---|---|---|
| `Normalization.LowerChar` | DogWalkNationAPI/Controllers/UserController.cs:75-76 | the lowered character is never an upper-case letter, letters move by 32 code points, anything else (whitespace included) is unchanged |
| `Normalization.ToLower` | DogWalkNationAPI/Controllers/UserController.cs:75 | same length; no upper-case letter in the result; whitespace stays exactly where it was; every character that is not an upper-case letter is kept. `ToLowerAppend` gives concatenation; the body maps `LowerChar` over the string |
| `Normalization.StripWhitespace` | DogWalkNationAPI/Controllers/UserController.cs:75-76 | the result is no longer than the input and holds no whitespace; all-whitespace input becomes empty. `StripWhitespaceAppend`, `StripWhitespaceKeeps` and `StripWhitespaceKeepsCase` specify it further (order kept, non-whitespace input unchanged) |
| `Normalization.Normalize` | DogWalkNationAPI/Controllers/UserController.cs:75-76 | the normalised string contains no whitespace character and no upper-case letter |
| `Normalization.StripWhitespaceKeepsCase` | DogWalkNationAPI/Controllers/UserController.cs:75-76 | removing whitespace from a string without upper case leaves a string with neither, proved by induction |
| `Normalization.NormalizeAppend` | DogWalkNationAPI/Controllers/UserController.cs:75-76 | normalisation distributes over concatenation: it works character by character, in order |
| `Normalization.NormalizeChar` | DogWalkNationAPI/Controllers/UserController.cs:75-76 | one character normalises to nothing if it is whitespace and to its lower-case form otherwise; with `NormalizeAppend` this fixes `Normalize` on every string |
| `Normalization.NormalizeFixpoint` | DogWalkNationAPI/Controllers/UserController.cs:75-76 | a string is its own normalisation if and only if it has no whitespace and no upper-case letter |
| `Normalization.NormalizeIdempotent` | DogWalkNationAPI/Controllers/UserController.cs:130 | normalising twice equals normalising once, so a stored (normalised) e-mail matches a login that normalises again |
| `Normalization.NormalizeDropsWhitespace` | DogWalkNationAPI/Controllers/UserController.cs:75-76 | a whitespace character anywhere in the input (leading, inner or trailing) does not affect the result |
| `Normalization.NormalizeWithoutWhitespace` | DogWalkNationAPI/Controllers/UserController.cs:75-76 | on input without whitespace, normalisation is exactly lower-casing |
| `Conflicts.FindConflict` | DogWalkNationAPI/Controllers/UserController.cs:85-96 | a conflict is reported only when the first returned record matches the e-mail or the handle, and registration goes ahead otherwise; `FindConflictCases` pins down which of the three kinds in both directions |
| `Conflicts.ConflictMessagesDistinct` | DogWalkNationAPI/Controllers/UserController.cs:88-95 | two conflict messages are equal only for the same conflict kind |
| `Conflicts.FindConflictCases` | DogWalkNationAPI/Controllers/UserController.cs:85-96 | each outcome holds if and only if the first returned record matches: both fields, the handle only, the e-mail only, or nothing returned / no match (registration goes ahead) |
| `Conflicts.NoConflictIffNothingFound` | DogWalkNationAPI/Controllers/UserController.cs:79-96 | when every returned record matches the query, registration proceeds if and only if the query returned nothing |
| `Conflicts.FirstRecordDecides` | DogWalkNationAPI/Controllers/UserController.cs:87 | the decision depends on the first returned record only |
| `Credentials.HashPassword` | DogWalkNationAPI/Controllers/UserController.cs:106-111 | the hash is Base64 of PBKDF2 with HMAC-SHA256, 100000 iterations and 32 bytes; a definition over the opaque primitives, specified through `VerifyRoundTrip` and `WrongPasswordRejected` |
| `Credentials.VerifyPassword` | DogWalkNationAPI/Controllers/UserController.cs:199-217 | a record accepts a password exactly when the password's hash under the record's salt equals the stored hash; specified by `VerifyRoundTrip`, `WrongPasswordRejected` and `VerifyReadsSaltAndHash` |
| `Credentials.WithPassword` | DogWalkNationAPI/Controllers/UserController.cs:168-176 | rehashing keeps the id, handle, e-mail, names and the salt, and the result verifies against the new password |
| `Credentials.VerifyRoundTrip` | DogWalkNationAPI/Controllers/UserController.cs:199-217 | a record hashed from `p` verifies `p`, and verifies `q` exactly when `q` hashes like `p` under the record's salt |
| `Credentials.WrongPasswordRejected` | DogWalkNationAPI/Controllers/UserController.cs:199-217 | if the hash is collision-free, a record hashed from `p` rejects every `q != p` |
| `Credentials.VerifyReadsSaltAndHash` | DogWalkNationAPI/Controllers/UserController.cs:199-217 | verification depends on the record's salt and hash only |
| `UserStore.CosmosStore.constructor` | DogWalkNationAPI/Controllers/UserController.cs:30 | the store starts with the given records and an empty upsert log |
| `UserStore.CosmosStore.GetMultiple` | DogWalkNationAPI/Controllers/UserController.cs:83 | every returned record is stored and satisfies the query, and every stored record that satisfies it is returned, in no promised order |
| `UserStore.CosmosStore.Get` | DogWalkNationAPI/Controllers/UserController.cs:49 | a record is found if and only if one is stored under the partition key with the given identifier; it is that record, and in a handle-keyed store its handle is the key |
| `UserStore.CosmosStore.Update` | DogWalkNationAPI/Controllers/UserController.cs:120 | on success the store gains or replaces exactly the record under the key and the log grows by that one upsert; on a fault nothing changes |
| `UserController.ConflictResponse` | DogWalkNationAPI/Controllers/UserController.cs:88-95 | a conflict response is unsuccessful and has status BadRequest; its message is the message of exactly one conflict kind, its own, and is never "User created" |
| `UserController.NewUser` | DogWalkNationAPI/Controllers/UserController.cs:98-117 | the created record has the given id, normalised handle and e-mail, names and salt, and verifies against the registration password |
| `UserController.RegisterKeepsInvariant` | DogWalkNationAPI/Controllers/UserController.cs:98-120 | adding a record whose handle and e-mail are free, with an unused id and a valid salt, keeps the store invariant and adds exactly one record |
| `UserController.RehashKeepsInvariant` | DogWalkNationAPI/Controllers/UserController.cs:165-183 | replacing a stored record's hash keeps the store invariant (handle, e-mail, id and salt are untouched) |
| `UserController.UserController.constructor` | DogWalkNationAPI/Controllers/UserController.cs:28-33 | the controller uses the given store, hashing primitives and token issuer, and is valid when the store is keyed by handle |
| `UserController.UserController.RegisterUser` | DogWalkNationAPI/Controllers/UserController.cs:72-123 | if a stored record has the normalised e-mail or handle, the reply is the conflict of some such record, and the store and the upsert log are unchanged; otherwise it upserts exactly one record under the normalised handle, with the fresh id, normalised fields, the 16-byte non-zero salt and Base64(KDF(password, salt)), and replies "User created" (or the exception escapes and nothing is written); it keeps the store invariant |
| `UserController.UserController.Login` | DogWalkNationAPI/Controllers/UserController.cs:128-157 | never writes. The reply is "Email address not found" if and only if no record has the normalised e-mail. A success carries a stored record with that e-mail which verifies, and the token issued for that record. Otherwise the reply is "Incorrect password" and some record with that e-mail rejects the password. With unique e-mails the reply is determined by the one matching record |
| `UserController.UserController.ChangePassword` | DogWalkNationAPI/Controllers/UserController.cs:162-196 | as written: if the request's own salt and hash reject the old password, the reply is "Incorrect password" and nothing is written; if the store throws a `CosmosException`, there is no response and nothing is written; otherwise exactly one upsert under the request's handle, of the request's fields, including the salt the request carries (which may differ from the stored salt), with the hash of the new password under that salt, which then verifies against the new password |
| `UserController.UserController.ChangeStoredPassword` | DogWalkNationAPI/Controllers/UserController.cs:162-196 | corrected: succeeds only if a record is stored under the request's handle with the request's identifier and verifies the old password; then exactly that record's hash is replaced (salt and every other field kept) and the store invariant is kept; otherwise "Incorrect password", or no response on a store fault, and nothing is written |
| `Scenarios.ForgedRequestAccepted` | DogWalkNationAPI/Controllers/UserController.cs:165-183 | a request with alice's identifier and handle, and with any salt and a hash its sender chose, passes the as-written check although alice's stored record rejects that password; with an empty salt the record it writes breaks the store invariant |

## Findings

| source | as written | input that shows it | evidently intended | confidence | as-written member | corrected member |
|---|---|---|---|---|---|---|
| DogWalkNationAPI/Controllers/UserController.cs:165-183 | the old password is checked against the salt and hash carried in the request body, and the request's fields are then upserted under the request's user name | "alice" is stored with the hash of "Secr3t!". A request arrives with alice's Id and Username, a 16-byte salt S its sender picked, HashedPassword = Base64(KDF("guess", S)), OldPassword "guess" and NewPassword "mine". It succeeds, and alice's document (same id, same partition) is overwritten by one that accepts "mine" and not "Secr3t!" | the old password is checked against the record stored for that user name, and only that record's hash is replaced | medium; not executed | `UserController.UserController.ChangePassword`, `Scenarios.ForgedRequestAccepted` (and the client method `Scenarios.ForgedPasswordChange`) | `UserController.UserController.ChangeStoredPassword` |

## Left out

- Cosmos DB plumbing is not modelled: the client, query text, partition keys, and the internals of `GetMultiple`, `Get` and `Update`. The two queries spell the e-mail field differently (`c.Email` in registration, `c.email` in login), and registration queries `c.UserHandle` where the record field is `Username`. Both are read as the record's `email` and `username` fields.
- A failing query (`GetMultiple` throwing) is not modelled; only the upsert may fail.
- `UserStore.CosmosStore.Update` holds at most one document per partition key (the handle). Cosmos DB identifies a document by its id within the partition, so an upsert with a new id under a taken handle would add a second document there; the model replaces the one record instead. Registration always writes under a free handle, so only an upsert from `ChangePassword` with an identifier that differs from the stored one is affected.
- `UserStore.CosmosStore.Get` finds the record only when both the partition key and the identifier match the one record under that key; a partition holding several documents is not modelled (see the line above).
- Only a `CosmosException` from the upsert is modelled, as the `fault` flag. Any other exception escapes both `RegisterUser` and `ChangePassword`, since the password change catches only `CosmosException`; such exceptions are not modelled.
- Null request fields are not modelled: strings and byte sequences in the model cannot be null. In the source a null `Email` or `Username` makes `ToLower` throw `NullReferenceException` (lines 75-76, 130), and a null password or salt makes `Pbkdf2` throw `ArgumentNullException` (lines 106, 168, 202), for example a password-change body without `Salt`.
- The order of query results is not fixed: every controller contract holds for any order.
- `GetAllUsers`, `GetUser` and `UpdateUser` (lines 38-67) are pass-throughs to the store and are not modelled.
- PBKDF2, HMAC-SHA256 and Base64 are opaque functions; their algorithms are not modelled.
- The cost of hashing is not modelled, and neither is the timing of the comparison.
- `JwtService.GenerateJwtToken` is an opaque function from user to token; token structure and signing are not modelled.
- `RNGCryptoServiceProvider` and `Guid.NewGuid` are not modelled. Their results are inputs, constrained only by length, non-zero bytes and, for the id, by no stored record having it.
- `ToLower` is culture-sensitive in the source; the model lower-cases ASCII letters only.
- `\s` is modelled as the fixed set of characters .NET matches; the regex engine is not modelled.
- AutoMapper is modelled as the field copy `ToUser`.
- The source writes the new hash into the request object in place (line 176) before mapping. The model writes it into a copy of the request value: the request object is not observable after the action.
- `async`/`await`, routing and the HTTP and authorisation attributes are not modelled. Status codes are modelled only where the controller sets one (BadRequest on conflicts).
- The uncaught exception from the registration upsert is the distinct reply `Thrown`; its mapping to an HTTP error is not modelled.
- Concurrency is not modelled, including two registrations racing between the conflict query and the upsert. Operations are sequential calls on one store.
- The React Native client (`WebApp/App.js`, `WebApp/components/Login.js`) is UI and `fetch` I/O and is not modelled.
