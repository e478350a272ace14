/** Who is calling: the `{userId, role}` pair the authentication layer resolves for each request. */
module Identity {

  /** A user's identifier (the `sub` of the token). */
  type UserId = nat

  /** `UserRole` of src/users/user.entity.ts: 'user' and 'admin'. A request without a role counts as `Regular`. */
  datatype UserRole = Regular | Admin
}
