/** The tables behind the refresh-token flow, keyed by their unique columns. */
module Tables {
  type UserId = nat

  /** Microseconds. */
  type Time = int

  const DAY: Time := 86400000000
  const HOUR: Time := 3600000000
  const MINUTE: Time := 60000000

  /** A stored token hash. Different raw tokens have different hashes. */
  datatype Digest = Digest(raw: string)

  function HashToken(raw: string): Digest {
    Digest(raw)
  }

  /** `password` stands for the stored password hash. */
  datatype User = User(active: bool, password: string)

  datatype LiveRow = LiveRow(user: UserId, expires: Time, remember: bool)
  datatype UsedRow = UsedRow(user: UserId, expires: Time)
  datatype ResetRow = ResetRow(user: UserId, created: Time, expires: Time, used: bool)

  datatype Db = Db(users: map<UserId, User>, live: map<Digest, LiveRow>, used: map<Digest, UsedRow>,
                   resets: map<Digest, ResetRow>)

  function Ttl(remember: bool): Time {
    if remember then 30 * DAY else DAY
  }

  /** A freshly minted refresh token's row. */
  function NewRow(user: UserId, remember: bool, now: Time): LiveRow {
    LiveRow(user, now + Ttl(remember), remember)
  }

  /** DELETE FROM refreshtoken WHERE user_id = user */
  function WithoutUser(live: map<Digest, LiveRow>, user: UserId): map<Digest, LiveRow> {
    map d | d in live && live[d].user != user :: live[d]
  }
}
