/** The records the user controller reads and writes: the stored user, the
    three request bodies, and the byte and identifier types they use. */
module Models {

  /** An unsigned 8-bit value, as in the .NET `byte[]` salt. */
  newtype byte = x: int | 0 <= x < 256

  /** An opaque unique identifier (a `Guid` in the source). */
  type Guid = nat

  datatype Option<T> = None | Some(value: T)

  /** The stored user record: one per user, keyed by `username`. */
  datatype User = User(
    id: Guid,
    username: string,
    email: string,
    firstName: string,
    lastName: string,
    salt: seq<byte>,
    hashedPassword: string)

  /** The body of a registration request. */
  datatype UserRegister = UserRegister(
    username: string,
    email: string,
    password: string,
    firstName: string,
    lastName: string)

  /** The body of a login request. */
  datatype UserLogin = UserLogin(email: string, password: string)

  /** The body of a password-change request: a full user record as the client
      sends it, plus the old and the new plaintext password. */
  datatype UserChangePassword = UserChangePassword(
    id: Guid,
    username: string,
    email: string,
    firstName: string,
    lastName: string,
    salt: seq<byte>,
    hashedPassword: string,
    oldPassword: string,
    newPassword: string)
  {
    /** The field-by-field copy onto the stored record type: every stored
        field is carried over and the two plaintext passwords are dropped. */
    function ToUser(): (u: User)
      ensures u.id == id && u.username == username && u.email == email
      ensures u.firstName == firstName && u.lastName == lastName
      ensures u.salt == salt && u.hashedPassword == hashedPassword
    {
      User(id, username, email, firstName, lastName, salt, hashedPassword)
    }
  }
}
