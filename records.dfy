/**
 * One datatype per table row. References to other rows are integer ids;
 * the ORM relationships built on them are not modelled.
 */
module Records {
  import opened Wrappers
  import opened IsoFormat

  /** A row of `events`. */
  datatype Event = Event(
    id: int,
    userId: int,
    clubId: Option<int>,
    title: Option<string>,
    location: string,
    ctaLink: Option<string>,
    startDate: Option<Date>,
    endDate: Option<Date>,
    startTime: Option<Time>,
    endTime: Option<Time>,
    approvedIs: bool,
    dateCreated: DateTime,
    dateUpdated: DateTime)

  /** A row of `users`. */
  datatype User = User(id: int, email: string, userPrivilege: int, dateCreated: DateTime, dateUpdated: DateTime)

  /** A row of `clubs`. */
  datatype Club = Club(id: int, name: string, abbrev: Option<string>, execEmail: Option<string>)

  /** A row of `club_memberships`. */
  datatype ClubMembership = ClubMembership(id: int, userId: int, clubId: int, memberPrivilege: int)

  /** A row of `event_tags`. */
  datatype EventTag = EventTag(id: int, eventId: int, eventTag: int)

  /** A row of `event_descriptions`: one chunk of one description. */
  datatype EventDescription = EventDescription(
    id: int, eventId: Option<int>, contentType: int, contentIndex: int, data: string)

  /** A row of `session_ids`. */
  datatype SessionId = SessionId(id: int, sessionId: string, emailAddr: string, dateCreated: DateTime)
}
