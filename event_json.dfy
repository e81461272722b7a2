/**
 * The read projections of an event (`get_time_and_date`, `json`, `serialize`)
 * and of a user (`User.json`). A JSON object is a map from key to value; the
 * plaintext and HTML descriptions, whose columns are commented out in the
 * schema, are given as the strings reassembled from the description chunks.
 */
module EventJson {
  import opened Wrappers
  import opened IsoFormat
  import opened Records

  datatype JValue = JNull | JBool(b: bool) | JInt(n: int) | JStr(s: string)

  /** The dictionary keys the projections use; KeyName gives each one's text. */
  datatype Key =
    | Title | Location | Link | Approved | Id
    | StartDate | EndDate | StartTime | EndTime
    | Desc | DescHtml
    | Name | Description | DescriptionText
    | Email | UserPrivilegeKey

  function KeyName(k: Key): string {
    match k
    case Title => "title"
    case Location => "location"
    case Link => "link"
    case Approved => "approved"
    case Id => "id"
    case StartDate => "start_date"
    case EndDate => "end_date"
    case StartTime => "start_time"
    case EndTime => "end_time"
    case Desc => "desc"
    case DescHtml => "desc_html"
    case Name => "name"
    case Description => "description"
    case DescriptionText => "description_text"
    case Email => "email"
    case UserPrivilegeKey => "user_privilege"
  }

  /** Distinct keys have distinct names, so a map over Key is a dict over their names. */
  lemma KeyNameInjective(a: Key, b: Key)
    requires KeyName(a) == KeyName(b)
    ensures a == b
  {
  }

  type JObject = map<Key, JValue>

  const ScheduleKeys: set<Key> := {StartDate, EndDate, StartTime, EndTime}
  const EventKeys: set<Key> := {Title, Location, Link, Approved, Id}
  const SerializeKeys: set<Key> := {Name, Location, Description, DescriptionText}

  /** Python's truth test on a string: non-empty. */
  predicate Truthy(s: string) {
    s != []
  }

  function StrOrNull(s: Option<string>): (v: JValue)
    ensures v == JNull <==> s.None?
    ensures s.Some? ==> v == JStr(s.value)
  {
    match s
    case None => JNull
    case Some(x) => JStr(x)
  }

  function RenderDate(d: Option<Date>): (v: JValue)
    ensures v == JNull <==> d.None?
    ensures d.Some? ==> v == JStr(DateIso(d.value))
  {
    if d.Some? then JStr(DateIso(d.value)) else JNull
  }

  /** A time renders as its ISO string with the UTC marker "Z" appended. */
  function RenderTime(t: Option<Time>): (v: JValue)
    ensures v == JNull <==> t.None?
    ensures t.Some? ==> v == JStr(TimeIso(t.value) + "Z")
  {
    if t.Some? then JStr(TimeIso(t.value) + "Z") else JNull
  }

  /** `Event.get_time_and_date`: four keys, each null exactly when its own field is unset. */
  function GetTimeAndDate(e: Event): (m: JObject)
    ensures StartDate in m && m[StartDate] == RenderDate(e.startDate)
    ensures EndDate in m && m[EndDate] == RenderDate(e.endDate)
    ensures StartTime in m && m[StartTime] == RenderTime(e.startTime)
    ensures EndTime in m && m[EndTime] == RenderTime(e.endTime)
    ensures m.Keys == ScheduleKeys
  {
    map[StartDate := RenderDate(e.startDate),
        EndDate := RenderDate(e.endDate),
        StartTime := RenderTime(e.startTime),
        EndTime := RenderTime(e.endTime)]
  }

  lemma RenderDateInjective(a: Option<Date>, b: Option<Date>)
    requires RenderDate(a) == RenderDate(b)
    ensures a == b
  {
    if a.Some? && b.Some? {
      DateIsoInjective(a.value, b.value);
    }
  }

  lemma RenderTimeInjective(a: Option<Time>, b: Option<Time>)
    requires RenderTime(a) == RenderTime(b)
    ensures a == b
  {
    if a.Some? && b.Some? {
      var s := RenderTime(a).s;
      assert s[..|s| - 1] == TimeIso(a.value) == TimeIso(b.value);
      TimeIsoInjective(a.value, b.value);
    }
  }

  /** The schedule rendering loses nothing: equal renderings mean equal schedule fields. */
  lemma ScheduleRenderingInjective(e1: Event, e2: Event)
    requires GetTimeAndDate(e1) == GetTimeAndDate(e2)
    ensures e1.startDate == e2.startDate && e1.endDate == e2.endDate
    ensures e1.startTime == e2.startTime && e1.endTime == e2.endTime
  {
    RenderDateInjective(e1.startDate, e2.startDate);
    RenderDateInjective(e1.endDate, e2.endDate);
    RenderTimeInjective(e1.startTime, e2.startTime);
    RenderTimeInjective(e1.endTime, e2.endTime);
  }

  function Min(a: int, b: int): int {
    if a < b then a else b
  }

  /**
   * The summary excerpt `description[:100] + "..." if description else ""`.
   * The conditional binds loosest, so "..." follows every non-empty
   * description, also one of 100 characters or fewer.
   */
  function Excerpt(description: string): (r: string)
    ensures description == [] ==> r == []
    ensures description != [] ==> r == description[..Min(|description|, 100)] + "..."
    ensures |r| <= 103
  {
    if Truthy(description) then
      (if |description| < 100 then description else description[..100]) + "..."
    else ""
  }

  /** A short description survives the excerpt whole, followed by the marker. */
  lemma ExcerptOfShortDescription(description: string)
    requires 0 < |description| <= 100
    ensures Excerpt(description) == description + "..."
  {
    assert description[..|description|] == description;
  }

  /** The description keys `json` adds at detail level `fullJSON`. */
  function DescKeys(fullJSON: int): set<Key> {
    if fullJSON == 2 then {Desc, DescHtml} else if fullJSON == 1 then {Desc} else {}
  }

  /** The description entries `json` adds at each detail level. */
  function AdditionalJson(description: string, descriptionHtml: string, fullJSON: int): (m: JObject)
    ensures m.Keys == DescKeys(fullJSON)
    ensures fullJSON == 2 ==> m[Desc] == JStr(description) && m[DescHtml] == JStr(descriptionHtml)
    ensures fullJSON == 1 ==> m[Desc] == JStr(Excerpt(description))
  {
    if fullJSON == 2 then map[Desc := JStr(description), DescHtml := JStr(descriptionHtml)]
    else if fullJSON == 1 then map[Desc := JStr(Excerpt(description))]
    else map[]
  }

  /** The event's own entries in `json`. */
  function EventFields(e: Event): (m: JObject)
    ensures Title in m && m[Title] == StrOrNull(e.title)
    ensures Location in m && m[Location] == JStr(e.location)
    ensures Link in m && m[Link] == StrOrNull(e.ctaLink)
    ensures Approved in m && m[Approved] == JBool(e.approvedIs)
    ensures Id in m && m[Id] == JInt(e.id)
    ensures m.Keys == EventKeys
  {
    map[Title := StrOrNull(e.title),
        Location := JStr(e.location),
        Link := StrOrNull(e.ctaLink),
        Approved := JBool(e.approvedIs),
        Id := JInt(e.id)]
  }

  /** The entries every detail level of `json` has: event fields, then the schedule keys. */
  function BaseJson(e: Event): (m: JObject)
    ensures Title in m && m[Title] == StrOrNull(e.title)
    ensures Location in m && m[Location] == JStr(e.location)
    ensures Link in m && m[Link] == StrOrNull(e.ctaLink)
    ensures Approved in m && m[Approved] == JBool(e.approvedIs)
    ensures Id in m && m[Id] == JInt(e.id)
    ensures StartDate in m && m[StartDate] == RenderDate(e.startDate)
    ensures EndDate in m && m[EndDate] == RenderDate(e.endDate)
    ensures StartTime in m && m[StartTime] == RenderTime(e.startTime)
    ensures EndTime in m && m[EndTime] == RenderTime(e.endTime)
    ensures m.Keys == EventKeys + ScheduleKeys
  {
    EventFields(e) + GetTimeAndDate(e)
  }

  /** `{**base, **additionalJSON}`: the description entries join the base entries, which they do not overlap. */
  function MergeAdditional(base: JObject, description: string, descriptionHtml: string, fullJSON: int): (m: JObject)
    requires base.Keys == EventKeys + ScheduleKeys
    ensures forall k | k in base :: k in m && m[k] == base[k]
    ensures fullJSON == 2 ==> Desc in m && m[Desc] == JStr(description) && DescHtml in m && m[DescHtml] == JStr(descriptionHtml)
    ensures fullJSON == 1 ==> Desc in m && m[Desc] == JStr(Excerpt(description)) && DescHtml !in m
    ensures fullJSON != 1 && fullJSON != 2 ==> Desc !in m && DescHtml !in m
    ensures m.Keys == EventKeys + ScheduleKeys + DescKeys(fullJSON)
  {
    base + AdditionalJson(description, descriptionHtml, fullJSON)
  }

  /** On any base, the levels differ only in the description entries they add. */
  lemma MergeLevels(base: JObject, description: string, descriptionHtml: string)
    requires base.Keys == EventKeys + ScheduleKeys
    ensures MergeAdditional(base, description, descriptionHtml, 0) == base
    ensures MergeAdditional(base, description, descriptionHtml, 1) == base[Desc := JStr(Excerpt(description))]
    ensures MergeAdditional(base, description, descriptionHtml, 2)
      == base[Desc := JStr(description)][DescHtml := JStr(descriptionHtml)]
  {
    assert base + map[] == base;
    assert base + map[Desc := JStr(Excerpt(description))] == base[Desc := JStr(Excerpt(description))];
    assert base + map[Desc := JStr(description), DescHtml := JStr(descriptionHtml)]
      == base[Desc := JStr(description)][DescHtml := JStr(descriptionHtml)];
  }

  /**
   * `Event.json(fullJSON)` as intended: the event fields, then the schedule
   * keys, then the description keys of the chosen level (2 is the default).
   */
  function Json(e: Event, description: string, descriptionHtml: string, fullJSON: int): (m: JObject)
    ensures forall k | k in BaseJson(e) :: k in m && m[k] == BaseJson(e)[k]
    ensures fullJSON == 2 ==> Desc in m && m[Desc] == JStr(description) && DescHtml in m && m[DescHtml] == JStr(descriptionHtml)
    ensures fullJSON == 1 ==> Desc in m && m[Desc] == JStr(Excerpt(description)) && DescHtml !in m
    ensures fullJSON != 1 && fullJSON != 2 ==> Desc !in m && DescHtml !in m
    ensures m.Keys == EventKeys + ScheduleKeys + DescKeys(fullJSON)
  {
    MergeAdditional(BaseJson(e), description, descriptionHtml, fullJSON)
  }

  datatype PyError = TypeError(message: string) | AttributeError(name: string)

  /** Python's `**` on two dicts: dict defines no `__pow__`, so it raises. */
  function PowerOfDicts(base: JObject, exponent: JObject): Result<JObject, PyError> {
    Failure(TypeError("unsupported operand type(s) for ** or pow(): 'dict' and 'dict'"))
  }

  /**
   * The `additionalJSON` of `Event.json` when the `description` and
   * `description_html` attributes may be absent (their columns are commented
   * out, so they exist only when a caller has set them). Level 2 reads
   * `description`, then `description_html`; level 1 reads `description`.
   */
  function AdditionalJsonAsWritten(description: Option<string>, descriptionHtml: Option<string>, fullJSON: int)
    : (r: Result<JObject, PyError>)
    ensures r.Failure? <==> (fullJSON == 2 && (description.None? || descriptionHtml.None?))
                            || (fullJSON == 1 && description.None?)
    ensures r.Failure? ==> r.error.AttributeError?
    ensures r.Success? ==> r.value == AdditionalJson(description.GetOr(""), descriptionHtml.GetOr(""), fullJSON)
  {
    if fullJSON == 2 then
      if description.None? then Failure(AttributeError("description"))
      else if descriptionHtml.None? then Failure(AttributeError("description_html"))
      else Success(AdditionalJson(description.value, descriptionHtml.value, 2))
    else if fullJSON == 1 then
      if description.None? then Failure(AttributeError("description"))
      else Success(AdditionalJson(description.value, "", 1))
    else Success(map[])
  }

  /**
   * `Event.json` as written: without a comma between `**(self.get_time_and_date())`
   * and `**additionalJSON`, the item parses as `**(schedule ** additionalJSON)`,
   * and evaluating the power raises before a dict is built. A description read
   * on an event whose attribute is unset raises first.
   */
  function JsonAsWritten(e: Event, description: Option<string>, descriptionHtml: Option<string>, fullJSON: int)
    : Result<JObject, PyError>
  {
    match AdditionalJsonAsWritten(description, descriptionHtml, fullJSON)
    case Failure(err) => Failure(err)
    case Success(additional) =>
      match PowerOfDicts(GetTimeAndDate(e), additional)
      case Failure(err) => Failure(err)
      case Success(unpacked) => Success(EventFields(e) + unpacked)
  }

  /**
   * As written, `json` fails for every event at every detail level: with
   * TypeError whenever the descriptions it reads are present (always at
   * level 0), with AttributeError otherwise.
   */
  lemma JsonAsWrittenAlwaysRaises(e: Event, description: Option<string>, descriptionHtml: Option<string>, fullJSON: int)
    ensures JsonAsWritten(e, description, descriptionHtml, fullJSON).Failure?
    ensures JsonAsWritten(e, description, descriptionHtml, fullJSON).error.TypeError?
      <==> AdditionalJsonAsWritten(description, descriptionHtml, fullJSON).Success?
    ensures fullJSON != 1 && fullJSON != 2 ==> JsonAsWritten(e, description, descriptionHtml, fullJSON).error.TypeError?
  {
  }

  /** The summary level differs from the full level only in its description keys. */
  lemma JsonLevelsAgree(e: Event, description: string, descriptionHtml: string)
    ensures Json(e, description, descriptionHtml, 0) == BaseJson(e)
    ensures Json(e, description, descriptionHtml, 1)
      == Json(e, description, descriptionHtml, 0)[Desc := JStr(Excerpt(description))]
    ensures Json(e, description, descriptionHtml, 2)
      == Json(e, description, descriptionHtml, 0)[Desc := JStr(description)][DescHtml := JStr(descriptionHtml)]
  {
    MergeLevels(BaseJson(e), description, descriptionHtml);
  }

  /** The entries of `serialize` before the schedule keys. */
  function SerializeFields(e: Event, description: string, descriptionHtml: string): (m: JObject)
    ensures Name in m && m[Name] == StrOrNull(e.title)
    ensures Location in m && m[Location] == JStr(e.location)
    ensures Description in m
      && m[Description] == JStr(if Truthy(descriptionHtml) then descriptionHtml else description)
    ensures DescriptionText in m && m[DescriptionText] == JStr(description)
    ensures m.Keys == SerializeKeys
  {
    map[Name := StrOrNull(e.title),
        Location := JStr(e.location),
        Description := JStr(if Truthy(descriptionHtml) then descriptionHtml else description),
        DescriptionText := JStr(description)]
  }

  /**
   * `Event.serialize`: the HTML description when it is non-empty, otherwise the
   * plaintext; the plaintext always under description_text.
   */
  function Serialize(e: Event, description: string, descriptionHtml: string): (m: JObject)
    ensures Name in m && m[Name] == StrOrNull(e.title)
    ensures Location in m && m[Location] == JStr(e.location)
    ensures Description in m && (Truthy(descriptionHtml) ==> m[Description] == JStr(descriptionHtml))
    ensures Description in m && (!Truthy(descriptionHtml) ==> m[Description] == JStr(description))
    ensures DescriptionText in m && m[DescriptionText] == JStr(description)
    ensures forall k | k in GetTimeAndDate(e) :: k in m && m[k] == GetTimeAndDate(e)[k]
    ensures m.Keys == SerializeKeys + ScheduleKeys
  {
    SerializeFields(e, description, descriptionHtml) + GetTimeAndDate(e)
  }

  /** `serialize` and the full `json` show the same event: name is title, description_text is desc. */
  lemma SerializeAgreesWithJson(e: Event, description: string, descriptionHtml: string)
    ensures Serialize(e, description, descriptionHtml)[Name] == Json(e, description, descriptionHtml, 2)[Title]
    ensures Serialize(e, description, descriptionHtml)[Location] == Json(e, description, descriptionHtml, 2)[Location]
    ensures Serialize(e, description, descriptionHtml)[DescriptionText] == Json(e, description, descriptionHtml, 2)[Desc]
    ensures Serialize(e, description, descriptionHtml)[Description]
      in {Json(e, description, descriptionHtml, 2)[Desc], Json(e, description, descriptionHtml, 2)[DescHtml]}
    ensures Serialize(e, description, descriptionHtml)[Description] == JStr("")
      <==> description == "" && descriptionHtml == ""
    ensures forall k | k in GetTimeAndDate(e) ::
      Serialize(e, description, descriptionHtml)[k] == Json(e, description, descriptionHtml, 2)[k]
  {
  }

  /** `User.json`. */
  function UserJson(u: User): (m: JObject)
    ensures m.Keys == {Email, UserPrivilegeKey}
    ensures m[Email] == JStr(u.email) && m[UserPrivilegeKey] == JInt(u.userPrivilege)
  {
    map[Email := JStr(u.email), UserPrivilegeKey := JInt(u.userPrivilege)]
  }

  /** `User.json` shows the user's email and privilege and nothing else: equal output means equal columns. */
  lemma UserJsonDeterminesColumns(u1: User, u2: User)
    requires UserJson(u1) == UserJson(u2)
    ensures u1.email == u2.email && u1.userPrivilege == u2.userPrivilege
  {
    assert UserJson(u1)[Email] == UserJson(u2)[Email];
    assert UserJson(u1)[UserPrivilegeKey] == UserJson(u2)[UserPrivilegeKey];
  }
}
