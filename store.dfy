/**
 * The seven tables as one in-memory store, each insert checking the
 * constraints the schema declares: NOT NULL columns, String(n) bounds,
 * foreign keys, the UNIQUE email and club name, column defaults and
 * autoincrement ids.
 *
 * The live engine is SQLite, which by default checks neither foreign keys
 * nor String(n) lengths; this store enforces the schema as declared.
 */
module Store {
  import opened Wrappers
  import opened Schema
  import opened IsoFormat
  import opened Records
  import opened DescriptionChunks
  import EventJson

  /** Why an insert was rejected, naming the column as table.column. */
  datatype DbError =
    | NotNull(column: string)
    | TooLong(column: string)
    | ForeignKey(column: string)
    | Unique(column: string)

  // Column defaults.
  const DEFAULT_USER_PRIVILEGE: int := 0
  const DEFAULT_MEMBER_PRIVILEGE: int := 0
  const DEFAULT_EVENT_TAG: int := 0
  const DEFAULT_LOCATION: string := ""
  const DEFAULT_APPROVED_IS: bool := false
  const DEFAULT_DATA: string := ""

  /** The privilege defaults are the NORMAL members of their enumerations. */
  lemma DefaultPrivilegesAreNormal()
    ensures UserPrivilegeOf(DEFAULT_USER_PRIVILEGE) == Some(UserNormal)
    ensures MemberPrivilegeOf(DEFAULT_MEMBER_PRIVILEGE) == Some(MemberNormal)
  {
  }

  /** A nullable String(n) column: NULL, or at most n characters. */
  predicate FitsIn(s: Option<string>, n: nat) {
    s.None? || |s.value| <= n
  }

  /**
   * Ids are assigned 1, 2, 3, … in insertion order (SQLite's rowid when no
   * row is deleted), so an id names a stored row exactly when it lies in
   * 1..rowCount.
   */
  predicate NamesRow(id: int, rowCount: int) {
    1 <= id <= rowCount
  }

  predicate EmailTaken(users: seq<User>, email: string) {
    exists i | 0 <= i < |users| :: users[i].email == email
  }

  predicate ClubNameTaken(clubs: seq<Club>, name: string) {
    exists i | 0 <= i < |clubs| :: clubs[i].name == name
  }

  // Per-table invariants.

  predicate UsersValid(users: seq<User>) {
    (forall i | 0 <= i < |users| :: users[i].id == i + 1 && |users[i].email| <= EMAIL_LENGTH)
    && (forall i, j | 0 <= i < j < |users| :: users[i].email != users[j].email)
  }

  predicate ClubsValid(clubs: seq<Club>) {
    (forall i | 0 <= i < |clubs| ::
      clubs[i].id == i + 1 && |clubs[i].name| <= CLUB_NAME_LENGTH
      && FitsIn(clubs[i].abbrev, CLUB_NAME_ABBREV_LENGTH) && FitsIn(clubs[i].execEmail, EMAIL_LENGTH))
    && (forall i, j | 0 <= i < j < |clubs| :: clubs[i].name != clubs[j].name)
  }

  predicate MembershipsValid(memberships: seq<ClubMembership>, userCount: int, clubCount: int) {
    forall i | 0 <= i < |memberships| ::
      memberships[i].id == i + 1
      && NamesRow(memberships[i].userId, userCount) && NamesRow(memberships[i].clubId, clubCount)
  }

  predicate EventRowValid(e: Event, userCount: int, clubCount: int) {
    NamesRow(e.userId, userCount)
    && (e.clubId.Some? ==> NamesRow(e.clubId.value, clubCount))
    && FitsIn(e.title, EVENT_TITLE_LENGTH)
    && |e.location| <= EVENT_LOCATION_LENGTH
    && FitsIn(e.ctaLink, EVENT_LINK_LENGTH)
  }

  predicate EventsValid(events: seq<Event>, userCount: int, clubCount: int) {
    forall i | 0 <= i < |events| :: events[i].id == i + 1 && EventRowValid(events[i], userCount, clubCount)
  }

  predicate EventTagsValid(tags: seq<EventTag>, eventCount: int) {
    forall i | 0 <= i < |tags| :: tags[i].id == i + 1 && NamesRow(tags[i].eventId, eventCount)
  }

  predicate EventDescriptionsValid(chunks: seq<EventDescription>, eventCount: int) {
    forall i | 0 <= i < |chunks| ::
      chunks[i].id == i + 1
      && (chunks[i].eventId.Some? ==> NamesRow(chunks[i].eventId.value, eventCount))
      && ChunkFits(chunks[i].data)
  }

  predicate SessionIdsValid(sessions: seq<SessionId>) {
    forall i | 0 <= i < |sessions| ::
      sessions[i].id == i + 1
      && |sessions[i].sessionId| <= SESSION_ID_LENGTH && |sessions[i].emailAddr| <= EMAIL_LENGTH
  }

  // The checks of each insert: None when the row is accepted, otherwise the
  // first violation in the order NOT NULL, length, foreign key, UNIQUE.

  function CheckUser(users: seq<User>, email: Option<string>): (err: Option<DbError>)
    ensures err.None? <==> email.Some? && |email.value| <= EMAIL_LENGTH && !EmailTaken(users, email.value)
  {
    if email.None? then Some(NotNull("users.email"))
    else if |email.value| > EMAIL_LENGTH then Some(TooLong("users.email"))
    else if EmailTaken(users, email.value) then Some(Unique("users.email"))
    else None
  }

  function CheckClub(clubs: seq<Club>, name: Option<string>, abbrev: Option<string>, execEmail: Option<string>)
    : (err: Option<DbError>)
    ensures err.None? <==>
      name.Some? && |name.value| <= CLUB_NAME_LENGTH
      && FitsIn(abbrev, CLUB_NAME_ABBREV_LENGTH) && FitsIn(execEmail, EMAIL_LENGTH)
      && !ClubNameTaken(clubs, name.value)
  {
    if name.None? then Some(NotNull("clubs.name"))
    else if |name.value| > CLUB_NAME_LENGTH then Some(TooLong("clubs.name"))
    else if !FitsIn(abbrev, CLUB_NAME_ABBREV_LENGTH) then Some(TooLong("clubs.abbrev"))
    else if !FitsIn(execEmail, EMAIL_LENGTH) then Some(TooLong("clubs.exec_email"))
    else if ClubNameTaken(clubs, name.value) then Some(Unique("clubs.name"))
    else None
  }

  /** No UNIQUE constraint covers (user_id, club_id): the table's rows play no part. */
  function CheckClubMembership(userCount: int, clubCount: int, userId: Option<int>, clubId: Option<int>)
    : (err: Option<DbError>)
    ensures err.None? <==>
      userId.Some? && clubId.Some? && NamesRow(userId.value, userCount) && NamesRow(clubId.value, clubCount)
  {
    if userId.None? then Some(NotNull("club_memberships.user_id"))
    else if clubId.None? then Some(NotNull("club_memberships.club_id"))
    else if !NamesRow(userId.value, userCount) then Some(ForeignKey("club_memberships.user_id"))
    else if !NamesRow(clubId.value, clubCount) then Some(ForeignKey("club_memberships.club_id"))
    else None
  }

  /** The values given for a new `events` row; None leaves a column to its default or NULL. */
  datatype NewEvent = NewEvent(
    userId: Option<int>,
    clubId: Option<int>,
    title: Option<string>,
    location: Option<string>,
    ctaLink: Option<string>,
    startDate: Option<Date>,
    endDate: Option<Date>,
    startTime: Option<Time>,
    endTime: Option<Time>,
    approvedIs: Option<bool>)

  function CheckEvent(userCount: int, clubCount: int, f: NewEvent): (err: Option<DbError>)
    ensures err.None? <==>
      f.userId.Some? && FitsIn(f.title, EVENT_TITLE_LENGTH)
      && FitsIn(f.location, EVENT_LOCATION_LENGTH) && FitsIn(f.ctaLink, EVENT_LINK_LENGTH)
      && NamesRow(f.userId.value, userCount)
      && (f.clubId.Some? ==> NamesRow(f.clubId.value, clubCount))
  {
    if f.userId.None? then Some(NotNull("events.user_id"))
    else if !FitsIn(f.title, EVENT_TITLE_LENGTH) then Some(TooLong("events.title"))
    else if !FitsIn(f.location, EVENT_LOCATION_LENGTH) then Some(TooLong("events.location"))
    else if !FitsIn(f.ctaLink, EVENT_LINK_LENGTH) then Some(TooLong("events.cta_link"))
    else if !NamesRow(f.userId.value, userCount) then Some(ForeignKey("events.user_id"))
    else if f.clubId.Some? && !NamesRow(f.clubId.value, clubCount) then Some(ForeignKey("events.club_id"))
    else None
  }

  function CheckEventTag(eventCount: int, eventId: Option<int>): (err: Option<DbError>)
    ensures err.None? <==> eventId.Some? && NamesRow(eventId.value, eventCount)
  {
    if eventId.None? then Some(NotNull("event_tags.event_id"))
    else if !NamesRow(eventId.value, eventCount) then Some(ForeignKey("event_tags.event_id"))
    else None
  }

  /** `event_id` is nullable here, and `data` is bounded in bytes. */
  function CheckEventDescription(eventCount: int, eventId: Option<int>, data: string): (err: Option<DbError>)
    ensures err.None? <==> ChunkFits(data) && (eventId.Some? ==> NamesRow(eventId.value, eventCount))
  {
    if !ChunkFits(data) then Some(TooLong("event_descriptions.data"))
    else if eventId.Some? && !NamesRow(eventId.value, eventCount) then Some(ForeignKey("event_descriptions.event_id"))
    else None
  }

  /** Neither column is UNIQUE and email_addr is no foreign key: only the row's own values matter. */
  function CheckSessionId(sessionId: Option<string>, emailAddr: Option<string>): (err: Option<DbError>)
    ensures err.None? <==>
      sessionId.Some? && emailAddr.Some?
      && |sessionId.value| <= SESSION_ID_LENGTH && |emailAddr.value| <= EMAIL_LENGTH
  {
    if sessionId.None? then Some(NotNull("session_ids.session_id"))
    else if emailAddr.None? then Some(NotNull("session_ids.email_addr"))
    else if |sessionId.value| > SESSION_ID_LENGTH then Some(TooLong("session_ids.session_id"))
    else if |emailAddr.value| > EMAIL_LENGTH then Some(TooLong("session_ids.email_addr"))
    else None
  }

  lemma AppendDescriptionValid(chunks: seq<EventDescription>, row: EventDescription, eventCount: int)
    requires EventDescriptionsValid(chunks, eventCount)
    requires row.id == |chunks| + 1 && ChunkFits(row.data)
    requires row.eventId.Some? ==> NamesRow(row.eventId.value, eventCount)
    ensures EventDescriptionsValid(chunks + [row], eventCount)
  {
  }

  /** What appending one chunk does to every pair's description. */
  lemma AppendDescriptionEffects(chunks: seq<EventDescription>, row: EventDescription)
    ensures (row.eventId.Some?
             && forall d | d in chunks && InPair(d, row.eventId.value, row.contentType) :: d.contentIndex <= row.contentIndex)
      ==> (LogicalDescription(chunks + [row], row.eventId.value, row.contentType)
           == LogicalDescription(chunks, row.eventId.value, row.contentType) + row.data)
    ensures forall e, t | !InPair(row, e, t) :: LogicalDescription(chunks + [row], e, t) == LogicalDescription(chunks, e, t)
  {
    if row.eventId.Some?
      && forall d | d in chunks && InPair(d, row.eventId.value, row.contentType) :: d.contentIndex <= row.contentIndex
    {
      AppendChunk(chunks, row, row.eventId.value, row.contentType);
    }
    forall e, t | !InPair(row, e, t)
      ensures LogicalDescription(chunks + [row], e, t) == LogicalDescription(chunks, e, t)
    {
      AppendOtherChunk(chunks, row, e, t);
    }
  }

  class Database {
    var users: seq<User>
    var clubs: seq<Club>
    var clubMemberships: seq<ClubMembership>
    var events: seq<Event>
    var eventTags: seq<EventTag>
    var eventDescriptions: seq<EventDescription>
    var sessionIds: seq<SessionId>

    ghost predicate Valid()
      reads this
    {
      UsersValid(users)
      && ClubsValid(clubs)
      && MembershipsValid(clubMemberships, |users|, |clubs|)
      && EventsValid(events, |users|, |clubs|)
      && EventTagsValid(eventTags, |events|)
      && EventDescriptionsValid(eventDescriptions, |events|)
      && SessionIdsValid(sessionIds)
    }

    /** A freshly created schema: every table empty. */
    constructor ()
      ensures Valid()
      ensures users == [] && clubs == [] && clubMemberships == [] && events == []
      ensures eventTags == [] && eventDescriptions == [] && sessionIds == []
    {
      users, clubs, clubMemberships, events := [], [], [], [];
      eventTags, eventDescriptions, sessionIds := [], [], [];
    }

    /** Inserting the email of a stored user again is rejected as a UNIQUE violation. */
    lemma StoredEmailRejected(i: int)
      requires Valid() && 0 <= i < |users|
      ensures CheckUser(users, Some(users[i].email)) == Some(Unique("users.email"))
    {
    }

    /** Inserting the name of a stored club again is rejected as a UNIQUE violation. */
    lemma StoredClubNameRejected(i: int, abbrev: Option<string>, execEmail: Option<string>)
      requires Valid() && 0 <= i < |clubs|
      requires FitsIn(abbrev, CLUB_NAME_ABBREV_LENGTH) && FitsIn(execEmail, EMAIL_LENGTH)
      ensures CheckClub(clubs, Some(clubs[i].name), abbrev, execEmail) == Some(Unique("clubs.name"))
    {
    }

    /** A second membership for a stored (user, club) pair is accepted. */
    lemma StoredMembershipMayRepeat(i: int)
      requires Valid() && 0 <= i < |clubMemberships|
      ensures CheckClubMembership(|users|, |clubs|, Some(clubMemberships[i].userId), Some(clubMemberships[i].clubId)).None?
    {
    }

    /** A stored session token, or email address, may be inserted again. */
    lemma StoredSessionMayRepeat(i: int)
      requires Valid() && 0 <= i < |sessionIds|
      ensures CheckSessionId(Some(sessionIds[i].sessionId), Some(sessionIds[i].emailAddr)).None?
    {
    }

    /** A foreign key names a row: the ids 1..n are exactly the stored users' ids. */
    lemma UserIdsNameRows(k: int)
      requires Valid()
      ensures NamesRow(k, |users|) <==> exists i | 0 <= i < |users| :: users[i].id == k
    {
      if NamesRow(k, |users|) {
        assert users[k - 1].id == k;
      }
    }

    lemma ClubIdsNameRows(k: int)
      requires Valid()
      ensures NamesRow(k, |clubs|) <==> exists i | 0 <= i < |clubs| :: clubs[i].id == k
    {
      if NamesRow(k, |clubs|) {
        assert clubs[k - 1].id == k;
      }
    }

    lemma EventIdsNameRows(k: int)
      requires Valid()
      ensures NamesRow(k, |events|) <==> exists i | 0 <= i < |events| :: events[i].id == k
    {
      if NamesRow(k, |events|) {
        assert events[k - 1].id == k;
      }
    }

    /** `User(email, user_privilege)` added to `users`. */
    method InsertUser(email: Option<string>, userPrivilege: Option<int>, now: DateTime) returns (r: Result<int, DbError>)
      requires Valid()
      modifies this`users
      ensures Valid()
      ensures r.Failure? <==> CheckUser(old(users), email).Some?
      ensures r.Failure? ==> r.error == CheckUser(old(users), email).value && users == old(users)
      ensures r.Success? ==>
        r.value == |old(users)| + 1
        && users == old(users) + [User(r.value, email.value, userPrivilege.GetOr(DEFAULT_USER_PRIVILEGE), now, now)]
    {
      var err := CheckUser(users, email);
      if err.Some? {
        return Failure(err.value);
      }
      var id := |users| + 1;
      users := users + [User(id, email.value, userPrivilege.GetOr(DEFAULT_USER_PRIVILEGE), now, now)];
      r := Success(id);
    }

    /** `Club(name, abbrev, exec_email)` added to `clubs`. */
    method InsertClub(name: Option<string>, abbrev: Option<string>, execEmail: Option<string>)
      returns (r: Result<int, DbError>)
      requires Valid()
      modifies this`clubs
      ensures Valid()
      ensures r.Failure? <==> CheckClub(old(clubs), name, abbrev, execEmail).Some?
      ensures r.Failure? ==> r.error == CheckClub(old(clubs), name, abbrev, execEmail).value && clubs == old(clubs)
      ensures r.Success? ==>
        r.value == |old(clubs)| + 1 && clubs == old(clubs) + [Club(r.value, name.value, abbrev, execEmail)]
    {
      var err := CheckClub(clubs, name, abbrev, execEmail);
      if err.Some? {
        return Failure(err.value);
      }
      var id := |clubs| + 1;
      clubs := clubs + [Club(id, name.value, abbrev, execEmail)];
      r := Success(id);
    }

    /** `ClubMembership(user_id, club_id, member_privilege)` added to `club_memberships`. */
    method InsertClubMembership(userId: Option<int>, clubId: Option<int>, memberPrivilege: Option<int>)
      returns (r: Result<int, DbError>)
      requires Valid()
      modifies this`clubMemberships
      ensures Valid()
      ensures r.Failure? <==> CheckClubMembership(|users|, |clubs|, userId, clubId).Some?
      ensures r.Failure? ==>
        r.error == CheckClubMembership(|users|, |clubs|, userId, clubId).value
        && clubMemberships == old(clubMemberships)
      ensures r.Success? ==>
        r.value == |old(clubMemberships)| + 1
        && clubMemberships == old(clubMemberships)
          + [ClubMembership(r.value, userId.value, clubId.value, memberPrivilege.GetOr(DEFAULT_MEMBER_PRIVILEGE))]
    {
      var err := CheckClubMembership(|users|, |clubs|, userId, clubId);
      if err.Some? {
        return Failure(err.value);
      }
      var id := |clubMemberships| + 1;
      clubMemberships := clubMemberships
        + [ClubMembership(id, userId.value, clubId.value, memberPrivilege.GetOr(DEFAULT_MEMBER_PRIVILEGE))];
      r := Success(id);
    }

    /** An `Event(...)` added to `events`; approved_is defaults to false and location to "". */
    method InsertEvent(f: NewEvent, now: DateTime) returns (r: Result<int, DbError>)
      requires Valid()
      modifies this`events
      ensures Valid()
      ensures r.Failure? <==> CheckEvent(|users|, |clubs|, f).Some?
      ensures r.Failure? ==> r.error == CheckEvent(|users|, |clubs|, f).value && events == old(events)
      ensures r.Success? ==>
        r.value == |old(events)| + 1
        && events == old(events) + [Event(
          r.value, f.userId.value, f.clubId, f.title, f.location.GetOr(DEFAULT_LOCATION), f.ctaLink,
          f.startDate, f.endDate, f.startTime, f.endTime, f.approvedIs.GetOr(DEFAULT_APPROVED_IS), now, now)]
    {
      var err := CheckEvent(|users|, |clubs|, f);
      if err.Some? {
        return Failure(err.value);
      }
      var id := |events| + 1;
      events := events + [Event(
        id, f.userId.value, f.clubId, f.title, f.location.GetOr(DEFAULT_LOCATION), f.ctaLink,
        f.startDate, f.endDate, f.startTime, f.endTime, f.approvedIs.GetOr(DEFAULT_APPROVED_IS), now, now)];
      r := Success(id);
    }

    /** `EventTag(event_id, event_tag)` added to `event_tags`. */
    method InsertEventTag(eventId: Option<int>, eventTag: Option<int>) returns (r: Result<int, DbError>)
      requires Valid()
      modifies this`eventTags
      ensures Valid()
      ensures r.Failure? <==> CheckEventTag(|events|, eventId).Some?
      ensures r.Failure? ==> r.error == CheckEventTag(|events|, eventId).value && eventTags == old(eventTags)
      ensures r.Success? ==>
        r.value == |old(eventTags)| + 1
        && eventTags == old(eventTags) + [EventTag(r.value, eventId.value, eventTag.GetOr(DEFAULT_EVENT_TAG))]
    {
      var err := CheckEventTag(|events|, eventId);
      if err.Some? {
        return Failure(err.value);
      }
      var id := |eventTags| + 1;
      eventTags := eventTags + [EventTag(id, eventId.value, eventTag.GetOr(DEFAULT_EVENT_TAG))];
      r := Success(id);
    }

    /** The description of one (event, content type) pair, reassembled from its chunks. */
    function Description(eventId: int, contentType: EventDescriptionType): string
      reads this
    {
      LogicalDescription(eventDescriptions, eventId, EventDescriptionTypeValue(contentType))
    }

    /**
     * `EventDescription(event_id, content_type, content_index, data)` added to
     * `event_descriptions`. A chunk whose index is not below its pair's
     * indices extends that pair's description by its data; every other
     * description is unchanged.
     */
    method InsertEventDescription(eventId: Option<int>, contentType: int, contentIndex: int, data: Option<string>)
      returns (r: Result<int, DbError>)
      requires Valid()
      modifies this`eventDescriptions
      ensures Valid()
      ensures r.Failure? <==> CheckEventDescription(|events|, eventId, data.GetOr(DEFAULT_DATA)).Some?
      ensures r.Failure? ==>
        r.error == CheckEventDescription(|events|, eventId, data.GetOr(DEFAULT_DATA)).value
        && eventDescriptions == old(eventDescriptions)
      ensures r.Success? ==>
        r.value == |old(eventDescriptions)| + 1
        && eventDescriptions == old(eventDescriptions)
          + [EventDescription(r.value, eventId, contentType, contentIndex, data.GetOr(DEFAULT_DATA))]
      ensures (r.Success? && eventId.Some?
               && forall d | d in old(eventDescriptions) && InPair(d, eventId.value, contentType)
                 :: d.contentIndex <= contentIndex)
        ==> (LogicalDescription(eventDescriptions, eventId.value, contentType)
             == old(LogicalDescription(eventDescriptions, eventId.value, contentType)) + data.GetOr(DEFAULT_DATA))
      ensures r.Success? ==>
        forall e, t | eventId != Some(e) || EventDescriptionTypeValue(t) != contentType ::
          Description(e, t) == old(Description(e, t))
    {
      var value := data.GetOr(DEFAULT_DATA);
      var err := CheckEventDescription(|events|, eventId, value);
      if err.Some? {
        return Failure(err.value);
      }
      var id := |eventDescriptions| + 1;
      var row := EventDescription(id, eventId, contentType, contentIndex, value);
      AppendDescriptionValid(eventDescriptions, row, |events|);
      AppendDescriptionEffects(eventDescriptions, row);
      eventDescriptions := eventDescriptions + [row];
      r := Success(id);
    }

    /** `SessionId(session_id, email_addr)` added to `session_ids`. */
    method InsertSessionId(sessionId: Option<string>, emailAddr: Option<string>, now: DateTime)
      returns (r: Result<int, DbError>)
      requires Valid()
      modifies this`sessionIds
      ensures Valid()
      ensures r.Failure? <==> CheckSessionId(sessionId, emailAddr).Some?
      ensures r.Failure? ==> r.error == CheckSessionId(sessionId, emailAddr).value && sessionIds == old(sessionIds)
      ensures r.Success? ==>
        r.value == |old(sessionIds)| + 1
        && sessionIds == old(sessionIds) + [SessionId(r.value, sessionId.value, emailAddr.value, now)]
    {
      var err := CheckSessionId(sessionId, emailAddr);
      if err.Some? {
        return Failure(err.value);
      }
      var id := |sessionIds| + 1;
      sessionIds := sessionIds + [SessionId(id, sessionId.value, emailAddr.value, now)];
      r := Success(id);
    }

    /** `json(fullJSON)` of the stored event `eventId`, with its reassembled descriptions. */
    function EventJsonOf(eventId: int, fullJSON: int): (r: Option<EventJson.JObject>)
      requires Valid()
      reads this
      ensures r.Some? <==> NamesRow(eventId, |events|)
      ensures r.Some? ==> EventJson.Id in r.value && r.value[EventJson.Id] == EventJson.JInt(eventId)
      ensures r.Some? && fullJSON == 2 ==>
        EventJson.Desc in r.value && EventJson.DescHtml in r.value
        && r.value[EventJson.Desc] == EventJson.JStr(Description(eventId, Plaintext))
        && r.value[EventJson.DescHtml] == EventJson.JStr(Description(eventId, Html))
      ensures r.Some? && fullJSON == 1 ==>
        EventJson.Desc in r.value && EventJson.DescHtml !in r.value
        && r.value[EventJson.Desc] == EventJson.JStr(EventJson.Excerpt(Description(eventId, Plaintext)))
      ensures r.Some? ==>
        EventJson.Title in r.value && r.value[EventJson.Title] == EventJson.StrOrNull(events[eventId - 1].title)
        && EventJson.Link in r.value && r.value[EventJson.Link] == EventJson.StrOrNull(events[eventId - 1].ctaLink)
        && EventJson.Approved in r.value && r.value[EventJson.Approved] == EventJson.JBool(events[eventId - 1].approvedIs)
    {
      if NamesRow(eventId, |events|) then
        Some(EventJson.Json(events[eventId - 1], Description(eventId, Plaintext), Description(eventId, Html), fullJSON))
      else None
    }

    /** `serialize()` of the stored event `eventId`, with its reassembled descriptions. */
    function SerializeOf(eventId: int): (r: Option<EventJson.JObject>)
      requires Valid()
      reads this
      ensures r.Some? <==> NamesRow(eventId, |events|)
      ensures r.Some? ==>
        EventJson.DescriptionText in r.value
        && r.value[EventJson.DescriptionText] == EventJson.JStr(Description(eventId, Plaintext))
      ensures r.Some? ==>
        EventJson.Description in r.value
        && r.value[EventJson.Description]
           == EventJson.JStr(if Description(eventId, Html) != "" then Description(eventId, Html)
                             else Description(eventId, Plaintext))
    {
      if NamesRow(eventId, |events|) then
        Some(EventJson.Serialize(events[eventId - 1], Description(eventId, Plaintext), Description(eventId, Html)))
      else None
    }
  }
}
