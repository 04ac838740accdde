/** The values the service passes around: roles, user rows, session snapshots, tokens. */
module Entities {

  datatype Option<+T> = None | Some(value: T)

  /** A role is a string in the source; only "admin" and "user" are valid. */
  datatype Role = Admin | Member | OtherRole(name: string) {
    predicate Valid() { !OtherRole? }
  }

  /** A row of the `users` table.  The password is kept where the source keeps its hash:
      hashing is taken as injective, so comparing hashes is comparing passwords. */
  datatype User = User(id: string, email: string, remark: string, password: string, active: bool, role: Role)

  /** The user snapshot that a login keeps in Redis. */
  datatype AuthSession = AuthSession(userID: string, email: string, remark: string, role: Role, active: bool, accessJTI: string)

  /** A stored session: the snapshot and the digest of its current refresh token. */
  datatype Record = Record(session: AuthSession, refreshDigest: string)

  /** The claims of a correctly signed access token. */
  datatype Token = Token(userID: string, sessionID: string, accessJTI: string, expiresAt: int)

  /** What the middleware hands to a handler. */
  datatype Principal = Principal(id: string, email: string, remark: string, role: Role, sessionID: string)

  function NewAuthSession(user: User, accessJTI: string): AuthSession {
    AuthSession(user.id, user.email, user.remark, user.role, user.active, accessJTI)
  }
}
