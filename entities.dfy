/**
 * The user record (the `User` entity) as the services read and write it. The entity file is
 * not part of this model; its fields are those the services use.
 */
module Entities {
  import opened Wrappers
  import opened Bcrypt

  /** The `ROLE` enum: the elevated `SUPER` and the standard `SUB`. */
  datatype Role = SUPER | SUB

  datatype User = User(
    id: nat,                     // id, assigned by the database
    firstName: string,           // first_name
    lastName: string,            // last_name
    phone: string,               // phone
    email: string,               // email
    password: Digest,            // password, only ever written as a bcrypt digest
    isActive: bool,              // is_active
    role: Role,                  // role
    resetToken: Option<string>,  // reset_password_token
    resetExpiry: Option<int>)    // reset_password_token_expire_time, in epoch milliseconds

  /** The projection login returns: every field but the password and the reset fields. */
  datatype Profile = Profile(id: nat, firstName: string, lastName: string, email: string, phone: string, role: Role)

  function ProfileOf(u: User): Profile {
    Profile(u.id, u.firstName, u.lastName, u.email, u.phone, u.role)
  }
}
