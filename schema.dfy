/** Length constants and enumerations declared at the top of the schema module. */
module Schema {
  import opened Wrappers

  // Lengths in characters, except the chunk size, which is in bytes.
  const EMAIL_LENGTH: nat := 64
  const EMAIL_MESSAGE_ID_LENGTH: nat := 512
  const EMAIL_IN_REPLY_TO: nat := 512
  const EVENT_LINK_LENGTH: nat := 512
  const CLUB_NAME_LENGTH: nat := 128
  const CLUB_NAME_ABBREV_LENGTH: nat := 32
  const EMAIL_DESCRIPTION_CHUNK_SIZE: nat := 65000
  const SESSION_ID_LENGTH: nat := 32

  // Bounds written as literals in the Event columns.
  const EVENT_TITLE_LENGTH: nat := 256
  const EVENT_LOCATION_LENGTH: nat := 128

  datatype UserPrivilege = UserNormal | UserAdmin
  datatype MemberPrivilege = MemberNormal | MemberOfficer
  datatype EventDescriptionType = Plaintext | Html

  function UserPrivilegeValue(p: UserPrivilege): int {
    match p
    case UserNormal => 0
    case UserAdmin => 1
  }

  /** `UserPrivilege(n)`: the member whose value is `n`; Python raises ValueError otherwise. */
  function UserPrivilegeOf(n: int): (r: Option<UserPrivilege>)
    ensures r.Some? <==> n == 0 || n == 1
    ensures r.Some? ==> UserPrivilegeValue(r.value) == n
  {
    if n == 0 then Some(UserNormal) else if n == 1 then Some(UserAdmin) else None
  }

  function MemberPrivilegeValue(p: MemberPrivilege): int {
    match p
    case MemberNormal => 0
    case MemberOfficer => 1
  }

  function MemberPrivilegeOf(n: int): (r: Option<MemberPrivilege>)
    ensures r.Some? <==> n == 0 || n == 1
    ensures r.Some? ==> MemberPrivilegeValue(r.value) == n
  {
    if n == 0 then Some(MemberNormal) else if n == 1 then Some(MemberOfficer) else None
  }

  function EventDescriptionTypeValue(t: EventDescriptionType): int {
    match t
    case Plaintext => 0
    case Html => 1
  }

  function EventDescriptionTypeOf(n: int): (r: Option<EventDescriptionType>)
    ensures r.Some? <==> n == 0 || n == 1
    ensures r.Some? ==> EventDescriptionTypeValue(r.value) == n
  {
    if n == 0 then Some(Plaintext) else if n == 1 then Some(Html) else None
  }

  /** Each enumeration's values are distinct, so reading a stored value back gives the member. */
  lemma EnumRoundTrips(p: UserPrivilege, m: MemberPrivilege, t: EventDescriptionType)
    ensures UserPrivilegeOf(UserPrivilegeValue(p)) == Some(p)
    ensures MemberPrivilegeOf(MemberPrivilegeValue(m)) == Some(m)
    ensures EventDescriptionTypeOf(EventDescriptionTypeValue(t)) == Some(t)
  {
  }
}
