/** The user record the console receives from the user API and shows in its table. */
module Records {
  import opened Common

  /** One user account. Timestamps are milliseconds since the epoch; an absent
      `expiration` or `lastLogin` is one the server did not send. */
  datatype UserRecord = UserRecord(
    id: string,
    username: string,
    role: string,
    team: string,
    isWebAdmin: bool,
    expiration: Option<int>,
    lastLogin: Option<int>)
}
