# dormdigest schema, modelled in Dafny

This project models `src/db/schema.py` of the dormdigest backend. That file is the persistence layer of a campus club-events aggregator. It declares seven tables: `users`, `clubs`, `club_memberships`, `events`, `event_tags`, `event_descriptions` and `session_ids`. It also declares their length constants and enumerations, and the read projections of an event: `get_time_and_date`, `json` and `serialize`.

Modules, leaf first:

- `Wrappers` (wrappers.dfy): `Option` for nullable columns, `Result` for rejected inserts.
- `Schema` (schema.dfy): the length constants and the `UserPrivilege`, `MemberPrivilege` and `EventDescriptionType` enumerations with their stored integer values.
- `IsoFormat` (iso_format.dfy): naive dates and times and Python's `isoformat()` rendering of them, proved injective.
- `Records` (records.dfy): one datatype per table row. References are integer ids.
- `EventJson` (event_json.dfy): the projections as functions from a row to a JSON object (a map from `Key` to `JValue`). The plaintext and HTML descriptions are parameters. Their columns are commented out in the schema (lines 77-78), so callers supply them, reassembled from the description chunks.
- `DescriptionChunks` (description_chunks.dfy): the logical description of an (event, content type) pair. It is the concatenation of that pair's chunk `data`, ordered by `content_index` (rows with equal index stay in id order). It also holds the per-chunk bound of `EMAIL_DESCRIPTION_CHUNK_SIZE` bytes.
- `Store` (store.dfy): class `Database` with one `seq` field per table and one insert method per table. Each insert checks the declared constraints: NOT NULL, `String(n)` bounds (for description chunks, the stricter byte bound; see Left out), foreign keys, UNIQUE email and club name. A valid row is appended with its column defaults and the next autoincrement id. Anything else is rejected and no table changes. `Valid()` is the table-wide invariant every insert keeps. The live engine is SQLite, which by default checks neither foreign keys nor `String(n)` lengths. The model enforces the schema as declared.

Where the code and its intent part ways, the model follows the code, with one exception. For `json` the model uses the intended merge (see Findings), and `JsonAsWritten` keeps the code's behaviour.

## Model

| member | source | states |
|---|---|---|
| `Schema.UserPrivilegeOf` | src/db/schema.py:37-39 | `UserPrivilege(n)` exists exactly for 0 and 1 and inverts the member's value |
| `Schema.MemberPrivilegeOf` | src/db/schema.py:41-43 | `MemberPrivilege(n)` exists exactly for 0 and 1 and inverts the member's value |
| `Schema.EventDescriptionTypeOf` | src/db/schema.py:45-47 | `EventDescriptionType(n)` exists exactly for 0 (PLAINTEXT) and 1 (HTML) and inverts the value |
| `Schema.EnumRoundTrips` | src/db/schema.py:37-47 | reading back a member's stored value gives the member, for all three enumerations |
| `IsoFormat.DateIso` | src/db/schema.py:96-97 | a date renders as 10 characters, `-` at positions 4 and 7 |
| `IsoFormat.TimeIso` | src/db/schema.py:98-99 | a time renders as 8 characters, or 15 when the microsecond is non-zero, `:` at positions 2 and 5 |
| `IsoFormat.DateIsoInjective` | src/db/schema.py:96-97 | distinct dates render as distinct strings |
| `IsoFormat.TimeIsoInjective` | src/db/schema.py:98-99 | distinct times render as distinct strings |
| `EventJson.RenderDate` | src/db/schema.py:96-97 | a date value is null iff the date is unset, else its ISO string |
| `EventJson.RenderTime` | src/db/schema.py:98-99 | a time value is null iff the time is unset, else its ISO string followed by `Z` |
| `EventJson.RenderDateInjective` | src/db/schema.py:96-97 | distinct date values (set or unset) render as distinct JSON values |
| `EventJson.RenderTimeInjective` | src/db/schema.py:98-99 | distinct time values (set or unset) render as distinct JSON values |
| `EventJson.GetTimeAndDate` | src/db/schema.py:94-101 | exactly the keys start_date, end_date, start_time, end_time; each null iff its own field is unset |
| `EventJson.ScheduleRenderingInjective` | src/db/schema.py:94-101 | equal schedule renderings mean equal start/end dates and times |
| `EventJson.KeyNameInjective` | src/db/schema.py:95-131 | distinct dictionary keys have distinct names |
| `EventJson.Excerpt` | src/db/schema.py:112 | `""` for an empty description; otherwise the first min(100, len) characters then `...`; at most 103 characters |
| `EventJson.ExcerptOfShortDescription` | src/db/schema.py:112 | a non-empty description of at most 100 characters still gets `...` appended |
| `EventJson.AdditionalJson` | src/db/schema.py:104-113 | level 2 adds desc and desc_html verbatim, level 1 adds the excerpt as desc, any other level adds nothing |
| `EventJson.BaseJson` | src/db/schema.py:115-121 | title, location, link (cta_link), approved (approved_is), id and the four schedule keys |
| `EventJson.MergeAdditional` | src/db/schema.py:121-122 | the description keys join the base keys without overwriting any |
| `EventJson.MergeLevels` | src/db/schema.py:104-122 | on any base object, level 0 adds nothing, level 1 adds the excerpt under desc, level 2 adds desc and desc_html |
| `EventJson.Json` | src/db/schema.py:103-123 | keys are the base keys plus the level's description keys; base entries as in BaseJson; desc/desc_html per level |
| `EventJson.JsonLevelsAgree` | src/db/schema.py:103-123 | levels 0, 1 and 2 differ only in their description entries |
| `EventJson.AdditionalJsonAsWritten` | src/db/schema.py:104-113 | reading an unset `description` (levels 1 and 2) or `description_html` (level 2) raises AttributeError; otherwise the level's description entries |
| `EventJson.JsonAsWritten` | src/db/schema.py:103-123 | `json` as the code stands: the description reads of lines 107-112, then the `dict ** dict` of lines 121-122; its properties are stated by `EventJson.JsonAsWrittenAlwaysRaises` |
| `EventJson.JsonAsWrittenAlwaysRaises` | src/db/schema.py:121-122 | as written, `json` raises for every event at every level: TypeError exactly when the descriptions it reads are set (always at level 0), AttributeError otherwise |
| `EventJson.Serialize` | src/db/schema.py:125-132 | name is the title; description is the HTML when non-empty, else the plaintext; description_text is the plaintext; schedule keys as in get_time_and_date |
| `EventJson.SerializeAgreesWithJson` | src/db/schema.py:103-132 | serialize shows the same title, location, schedule and plaintext as the full json; its description is desc or desc_html, empty iff both are |
| `EventJson.UserJson` | src/db/schema.py:149-153 | exactly the keys email and user_privilege, with the row's values |
| `EventJson.UserJsonDeterminesColumns` | src/db/schema.py:149-153 | equal `User.json` output means equal email and user_privilege |
| `DescriptionChunks.Utf8Length` | src/db/schema.py:34 | a text's encoded size is between one and four bytes per character |
| `DescriptionChunks.ChunkFits` | src/db/schema.py:203 | a chunk's data fits when its UTF-8 encoding is at most 65000 bytes; `DescriptionChunks.ChunkFitsCharacters` and `DescriptionChunks.DescriptionSizeBound` state what follows |
| `DescriptionChunks.ChunkFitsCharacters` | src/db/schema.py:203 | chunk data within 65000 bytes is also within the column's 65000 characters |
| `DescriptionChunks.PairChunks` | src/db/schema.py:200-202 | the rows of one (event_id, content_type) pair: each stored row of the pair, with its multiplicity, and no other |
| `DescriptionChunks.SortByIndex` | src/db/schema.py:202 | the rows ordered by content_index, a permutation of the input |
| `DescriptionChunks.LogicalDescription` | src/db/schema.py:197-203 | the description of an (event_id, content_type) pair: its rows' data in content_index order; properties in `DescriptionChunks.NoChunksNoDescription`, `DescriptionChunks.AppendChunk`, `DescriptionChunks.AppendOtherChunk`, `DescriptionChunks.OrderIndependent`, `DescriptionChunks.DescriptionSizeBound` |
| `DescriptionChunks.NoChunksNoDescription` | src/db/schema.py:197-210 | a pair without rows has the empty description |
| `DescriptionChunks.AppendChunk` | src/db/schema.py:202-203 | a new row of the pair whose index is not below the pair's indices extends the description by its data |
| `DescriptionChunks.AppendOtherChunk` | src/db/schema.py:200-201 | a new row of another pair leaves the description unchanged |
| `DescriptionChunks.OrderIndependent` | src/db/schema.py:202 | the description does not depend on the physical order of the rows when an index names at most one row of the pair |
| `DescriptionChunks.DescriptionSizeBound` | src/db/schema.py:203 | a description is at most 65000 bytes per row of its pair |
| `Store.DefaultPrivilegesAreNormal` | src/db/schema.py:140 | the user_privilege and member_privilege defaults are the NORMAL members |
| `Store.CheckUser` | src/db/schema.py:139 | a user row is accepted iff its email is set, at most 64 characters and not already stored |
| `Store.CheckClub` | src/db/schema.py:161-163 | a club row is accepted iff its name is set, within 128 characters and new, abbrev within 32 and exec_email within 64 |
| `Store.CheckClubMembership` | src/db/schema.py:175-176 | a membership is accepted iff user_id and club_id are set and name stored rows; existing memberships play no part |
| `Store.CheckEvent` | src/db/schema.py:66-82 | an event is accepted iff user_id is set and names a user, club_id if set names a club, title within 256, location within 128, cta_link within 512 |
| `Store.CheckEventTag` | src/db/schema.py:187 | a tag is accepted iff event_id is set and names an event |
| `Store.CheckEventDescription` | src/db/schema.py:200-203 | a chunk is accepted iff its data is within 65000 bytes and event_id, when set, names an event |
| `Store.CheckSessionId` | src/db/schema.py:215-216 | a session row is accepted iff session_id (at most 32) and email_addr (at most 64) are set; existing sessions play no part |
| `Store.AppendDescriptionEffects` | src/db/schema.py:200-203 | appending a chunk extends its own pair's description or leaves it, and leaves every other pair's description unchanged |
| `Store.Database.Valid` | src/db/schema.py:60-216 | the table-wide invariant: ids are 1..n in order, NOT NULL columns set, `String(n)` bounds, UNIQUE email and club name, every foreign key names a stored row; every insert method and the constructor ensure it |
| `Store.Database.Description` | src/db/schema.py:197-203 | the stored description of an event for one content type, reassembled from `event_descriptions`; `Store.Database.InsertEventDescription` states how an insert changes it |
| `Store.Database.constructor` | src/db/schema.py:224 | a freshly created schema has every table empty and valid |
| `Store.Database.StoredEmailRejected` | src/db/schema.py:139 | inserting a stored user's email again is a UNIQUE violation |
| `Store.Database.StoredClubNameRejected` | src/db/schema.py:161 | inserting a stored club's name again is a UNIQUE violation |
| `Store.Database.StoredMembershipMayRepeat` | src/db/schema.py:175-176 | a duplicate (user, club) membership is accepted |
| `Store.Database.StoredSessionMayRepeat` | src/db/schema.py:215-216 | a duplicate session_id or email_addr is accepted |
| `Store.Database.UserIdsNameRows` | src/db/schema.py:136-137 | an id in 1..number of users is exactly the id of a stored user |
| `Store.Database.ClubIdsNameRows` | src/db/schema.py:159-160 | an id in 1..number of clubs is exactly the id of a stored club |
| `Store.Database.EventIdsNameRows` | src/db/schema.py:62-63 | an id in 1..number of events is exactly the id of a stored event |
| `Store.Database.InsertUser` | src/db/schema.py:134-147 | appends the user with the next id and user_privilege defaulting to 0 iff CheckUser accepts; otherwise reports the violation and changes nothing; keeps Valid |
| `Store.Database.InsertClub` | src/db/schema.py:157-168 | appends the club with the next id iff CheckClub accepts; otherwise changes nothing; keeps names unique |
| `Store.Database.InsertClubMembership` | src/db/schema.py:171-182 | appends the membership with member_privilege defaulting to 0 iff CheckClubMembership accepts; otherwise changes nothing |
| `Store.Database.InsertEvent` | src/db/schema.py:60-92 | appends the event with approved_is defaulting to false and location to "" iff CheckEvent accepts; otherwise changes nothing |
| `Store.Database.InsertEventTag` | src/db/schema.py:184-192 | appends the tag with event_tag defaulting to 0 iff CheckEventTag accepts; otherwise changes nothing |
| `Store.Database.InsertEventDescription` | src/db/schema.py:197-210 | appends the chunk with data defaulting to "" iff CheckEventDescription accepts; extends its pair's description when its index is not below the pair's; other descriptions unchanged |
| `Store.Database.InsertSessionId` | src/db/schema.py:212-221 | appends the session row iff CheckSessionId accepts; otherwise changes nothing |
| `Store.Database.EventJsonOf` | src/db/schema.py:103-123 | json of a stored event: present iff the id names an event; its id entry is that id; title, link and approved come from the row; level 2 carries the reassembled descriptions, level 1 only the excerpt of the plaintext |
| `Store.Database.SerializeOf` | src/db/schema.py:125-132 | serialize of a stored event: present iff the id names an event; description is the stored HTML when non-empty, else the plaintext; description_text is the reassembled plaintext |

## Left out

- Engine, connection and credential setup (src/db/schema.py:4, 15-24, 55-57): configuration and I/O.
- `metadata.create_all` (src/db/schema.py:224) is DDL sent to the engine. The model starts from the empty store that `Database`'s constructor builds.
- `relationship`/`backref` loading (src/db/schema.py:67, 72, 80): ORM plumbing. References are integer ids.
- `datetime.datetime.now` defaults (src/db/schema.py:91-92, 142-143, 217): the clock is a `now` parameter of the insert. date_created and date_updated take the same instant, where the two calls may differ by microseconds.
- `from ast import In` (src/db/schema.py:1): an unused import.
- `User.get_user_email` and `EventTag.get_tag_value` (src/db/schema.py:154-155, 194-195) are the row fields `User.email` and `EventTag.eventTag`. No separate member exists.
- Dictionary key order: a JSON object is a map, so the insertion order of Python's dict is not modelled.
- Timezone-aware times: the columns hold naive dates and times, so `isoformat()` never prints an offset.
- Column defaults: an insert argument of `None` takes the column default. The ORM's distinction between an attribute left unset and one set to `None` explicitly is not modelled. So `location` and `approved_is` are never NULL in the model.
- `Store.Database.InsertEventDescription`: content_type and content_index are modelled as non-NULL integers, although both columns are nullable. A row without them has no place in a pair's ordering.
- Deleting or updating rows: the file has no such operation. Ids are therefore 1..n in insertion order.
- Contiguity of content_index (0, 1, 2, … without gaps) is not declared by the schema and is not enforced here. `DescriptionChunks.OrderIndependent` requires only that an index names at most one row of its pair.
- Splitting a description into chunks, reassembly with integrity checks, approval and authorization, and session validation and expiry: no such code is in src/db/schema.py, so none is modelled.
- Store.CheckEventDescription: bounds `data` by 65000 UTF-8 bytes, following the `# bytes` comment on `EMAIL_DESCRIPTION_CHUNK_SIZE` (src/db/schema.py:34). The declared `String(65000)` column (src/db/schema.py:203) limits characters, so the model rejects some chunks the column admits, e.g. 30000 copies of '€' (90000 bytes). `DescriptionChunks.ChunkFitsCharacters` shows the byte bound is the stricter one.
- UTF-8 encoding: only the encoded length of the chunk text is modelled, not the bytes.
- Transactions and concurrent access: the store is one sequential object.
- `EMAIL_MESSAGE_ID_LENGTH` and `EMAIL_IN_REPLY_TO` are declared but bound no column of this file.

## Findings

| source | as written | input that shows it | evidently intended | confidence | as-written member | corrected member |
|---|---|---|---|---|---|---|
| src/db/schema.py:121-122 | `**(self.get_time_and_date())` and `**additionalJSON` have no comma between them, so the item parses as `**((schedule) ** additionalJSON)`; `dict ** dict` raises TypeError | any event, e.g. `event.json(0)`; at levels 1 and 2 the same TypeError follows once a caller has set `description` (and for level 2 `description_html`), and an AttributeError comes first otherwise, since those columns are commented out (src/db/schema.py:77-78) | unpack the schedule keys, then the additional description keys, into the result | high (Python grammar), not executed | `EventJson.JsonAsWrittenAlwaysRaises` (about `EventJson.JsonAsWritten`) | `EventJson.Json` |
