# Draft scheduling in the team Discord bot, modelled in Dafny

This project models the draft-scheduling core of the bot in `main.go`. It also models the bot's team-status command. Discord, Postgres, The Blue Alliance and the clock are replaced by explicit state and parameters.

- **Proposal parser** (`Proposal`, `Dates`). The `draftRegex` grammar is a hand-written scanner over a character sequence. It finds the leftmost four-line block `Name: <word>`, `Teams: <url token>`, `Rounds: <digits>` and `Date: MM/DD@HH:MM`. The scanner is proved to accept exactly the well-formed rendered blocks. `Find` is proved to return the leftmost one.
  - Rounds are read the way `strconv.ParseInt` reads them: a value that does not fit in 64 bits becomes the largest 64-bit integer.
  - The date is read the way `time.Parse` reads layout `01/02@15:04` and then shifted by `AddDate(year, 0, 0)`:
    - an out-of-range field makes the parse fail, and the stored date becomes 1 January of the next year;
    - 29 February of a common year rolls over to 1 March.
- **Draft table** (`Drafts`). The table is a `DraftTable` class with a sequence of rows and a key counter.
  - `Register` is the proposal handler's insert. It does nothing for the bot's own messages and for texts without a block.
  - `Due` is the activation query. It returns the rows whose `Channel` is NULL or empty and whose date lies between now and now plus one day, both ends included.
  - `SetChannel` is the one-way `Channel` update.
- **Platform** (`Platform`). A `Discord` class holds the created channels, roles and role grants, and the reactions on each message. Its six methods are the API calls the activation job makes. It also holds the colour and permissions a new role is created with.
- **Activation** (`Activation`). `Provision` is one iteration of the `getDrafts` loop:
  - it derives the slug;
  - creates `draft-<slug>`;
  - records the channel id on the row;
  - creates the role and renames it `<slug> Drafter`;
  - grants the role to every user listed under every reaction on the origin message, at most 100 users per emoji.

  `Activate` runs it over the due rows in key order. It stops after the first row whose origin message cannot be fetched.
  - The job's whole effect is stated as functions of the due rows.
  - After a run that completes, no row is due any more at the run's own time.
- **Event selection** (`Events`). `DetermineEvent` is the two loops of `determineEvent`:
  - it returns the first event in list order that is in progress;
  - otherwise it returns the event with the strictly latest end among those that ended within the past 365 days, and ties keep the earliest;
  - otherwise it returns two empty strings.

  As in the code, `end` is not extended by a day, because the result of `end.Add` is discarded.
- **Team status** (`TeamStatus`). `HandleStatus` extracts every `[[digits]]` / `[[digits@word]]` tag, using the `tRegex` grammar as a scanner, and produces one reply per tag.
  - As in the code, a tag with an `@word` suffix never gets an event code, so its reply is always the fixed "Come on Joe" text.
  - Every `<b>` and `</b>` in a reply becomes `**`.

Behaviour of `main.go` worth noting:
- The due window includes both ends (SQL `BETWEEN`).
- Malformed rounds or dates are stored as the parsers leave them. The parse errors are only logged.
- The slug is the `TrimSpace`d name with each single space replaced by `-`. Other whitespace is not collapsed, and the case is not changed.
- The role is named from the slug.
- The channel id is written to the row right after the channel is created, before any role work.
- A failed fetch of the origin message ends the whole run (`log.Fatal`), leaving the remaining due rows unprovisioned.

Modules: `Options`, `Text` (character classes, numerals, `strings.Replace`, `strings.TrimSpace`), `Dates`, `Proposal`, `Drafts`, `Platform`, `Activation`, `Events`, `TeamStatus`.

## Model

| member | source | states |
|---|---|---|
| Text.TrimSpaceSpec | main.go:241 | The trimmed name is a contiguous slice of the name: everything cut from either end is white space, and what is left starts and ends with non-space. |
| Text.ReplaceOccurrence | main.go:158-159 | After a prefix free of the pattern's first character, the next occurrence of the pattern is replaced by the replacement text, and replacement goes on after it. |
| Text.ReplaceAllAvoids | main.go:158-159 | Replace every occurrence of a pattern by a text that shares no character with a word. Afterwards the word occurs nowhere in the result, provided it is the pattern itself or did not occur before. |
| Dates.ParseRounds | main.go:178-181 | The stored round count equals the numeral's value when that fits in 64 bits, and is the largest 64-bit integer when it does not. |
| Dates.RoundsRoundTrip | main.go:178-181 | Any round count up to the 64-bit maximum, written in decimal, is read back unchanged. |
| Dates.ParseLayout | main.go:36 | Parsing a `MM/DD@HH:MM` text succeeds exactly when month, day, hour and minute are in range, and then yields those digits' values. |
| Dates.ParseDateRoundTrip | main.go:183-188 | A date written in the layout is stored in the current year with the same month, day, hour and minute, unless it is 29 February of a common year. |
| Dates.ParseDateOutOfRange | main.go:183-188 | A date text with a field out of range is stored as midnight on 1 January of the following year. |
| Dates.ClockTextIsFormatted | main.go:34-36 | Every text the date sub-pattern accepts is the layout rendering of the fields read from it, so the round trip covers all accepted dates. |
| Dates.FieldsOfFormat | main.go:36 | Rendering fields in the layout and reading the digits back gives the same fields. |
| Proposal.UrlTokenIff | main.go:32 | The linear token check accepts exactly the texts the url sub-pattern describes: 2 to 256 host characters, a dot, a 2 to 6 letter suffix at a word boundary, then path characters. |
| Proposal.UrlTokenOneLine | main.go:32-35 | A teams token never contains a line break, so it cannot run into the next line of the block. |
| Proposal.MatchBlockIff | main.go:35 | The block scanner matches `c` at the start of a text exactly when `c` is well formed and the text begins with its four-line rendering. |
| Proposal.MatchAtIff | main.go:35 | The same equivalence at any index of a message. |
| Proposal.Find | main.go:169 | A found proposal is always well formed: a word name, a url token, a digit run and a date text. |
| Proposal.FindSpec | main.go:169-172 | `Find` returns nothing exactly when no index holds a block, and otherwise returns a block at an index before which none starts (the leftmost match). |
| Proposal.FindRendered | main.go:169 | A message that begins with the rendering of a well-formed proposal yields exactly that proposal. |
| Drafts.Propose | main.go:164-199 | A row is built exactly when the message is not the bot's, contains a block, and comes from a channel whose guild is known. An unknown channel is the fatal lookup failure. The row holds the leftmost block's name and teams, the parsed rounds and date, the channel's guild, and the origin channel and message ids. |
| Drafts.ProposeNeedsBlock | main.go:165-172 | Messages by the bot, and messages in which no index holds a block, are not proposals. A stored row's name and teams are those of a block in the text. |
| Drafts.ProposeRoundTrip | main.go:178-199 | When the leftmost block was written from a name, a link, a round count and date fields, the row stores exactly those values, the date in the given year, and the guild of the origin channel. |
| Drafts.ProposeStoresMalformed | main.go:178-199 | A block in a known channel is stored even when its sub-fields are malformed. Rounds that overflow become the largest 64-bit integer, and an out-of-range date becomes 1 January of the next year. |
| Drafts.DueRows | main.go:216-219 | A row is returned exactly when it is in the table, unprovisioned and dated within [now, now + 1 day], and the table's key order is kept. |
| Drafts.WithChannelActivates | main.go:247 | Writing a non-empty channel to a key makes that row due at no time. It leaves every other row unchanged, never reverts a provisioned row, and keeps every key and draft. |
| Drafts.DraftTable.Insert | main.go:199 | The new row is appended with a fresh key and no channel. The key counter advances by one. |
| Drafts.DraftTable.Register | main.go:164-202 | The table gains exactly the row `Propose` builds when it is a proposal, and is unchanged otherwise. |
| Drafts.DraftTable.SetChannel | main.go:247-250 | The rows become `WithChannel` of the old rows, and the key counter is kept. |
| Platform.FirstUsers | main.go:267 | A page is the first `limit` users of the listing, or the whole listing when it is no longer than that. |
| Platform.Reactors | main.go:267 | The users listed for an emoji number at most the limit, and each reacted to the message with that emoji. |
| Platform.EditNewest | main.go:257 | Editing the role just created replaces only that role, with the new name, colour, hoist, permissions and mentionable flag. |
| Platform.Discord.GuildChannelCreate | main.go:242 | Appends a channel with the next id, guild and name. Nothing else changes. |
| Platform.Discord.GuildRoleCreate | main.go:252 | Appends a role with the next id and the platform's default colour and permissions. Nothing else changes. |
| Platform.Discord.GuildRoleEdit | main.go:257 | Rewrites the role with that id and guild. Channels, grants and ids are unchanged. |
| Platform.Discord.ChannelMessage | main.go:262-265 | Returns the message's reactions exactly when the message exists. |
| Platform.Discord.MessageReactions | main.go:267-270 | Returns the first `limit` users who reacted with that emoji. |
| Platform.Discord.GuildMemberRoleAdd | main.go:273 | Adds exactly one grant. |
| Activation.SlugHasNoSpace | main.go:241 | A slug contains no space at any index. |
| Activation.SlugOfWord | main.go:241-257 | The slug of a parsed name (a word) is the name itself, so the channel is `draft-<name>` and the role `<name> Drafter`. |
| Activation.GranteesStep | main.go:266-272 | Each reaction of the loop adds exactly the listed users of its emoji to the grantee set. |
| Activation.ReactorsOfOwnEmoji | main.go:267 | When emoji are distinct, the users listed for a reaction's emoji are that reaction's first 100 users. |
| Activation.GranteesUnion | main.go:266-278 | The users granted the role are the union, over every reaction on the message, of that reaction's first 100 users. |
| Activation.GranteesExample | main.go:266-278 | Reactions from {U1, U2} and {U2, U3} grant the role to exactly {U1, U2, U3}. |
| Activation.ChannelText | main.go:247 | The channel id written to a row is never empty, so the row counts as provisioned. |
| Activation.GrantReactors | main.go:266-278 | The nested loops add exactly one grant per grantee of the message's reactions. Channels, roles and ids are untouched. |
| Activation.CreateDraftRole | main.go:252-260 | Creating and editing gives one new role with the next id, named `<slug> Drafter`, mentionable and not hoisted. It keeps the colour and permissions the platform gave it at creation. |
| Activation.Provision | main.go:241-279 | One due row: its channel `draft-<slug>` with the next id is recorded on the row, and its role gets the id after that. Grants are added for the message's reactors, or none are added when the message is missing, which the result reports. |
| Activation.ReachFromSpec | main.go:224-279 | The run covers every due row when every origin message exists. Otherwise it stops right after the first row whose message is missing. |
| Activation.MarkAllAt | main.go:247 | After a run, each row keeps its key and draft. Every processed row has a non-empty channel, and every other row is unchanged. |
| Activation.MarkedNotDue | main.go:219-247 | A row still due after a run was due before it and was not processed. |
| Activation.NothingDueTwice | main.go:216-250 | After every due row has been provisioned, the due query at the same time returns nothing: activation is one-way. |
| Activation.ReachedStep | main.go:224-279 | Provisioning the next due row extends the run's rows, channels, roles and grants by exactly that row's share. |
| Activation.ProvisionNext | main.go:224-279 | One loop iteration moves the table and platform from the state after `n` rows to the state after `n + 1` rows, and reports whether the message was found. |
| Activation.Activate | main.go:216-280 | The job processes the due rows in order up to the first missing message. It reports completion exactly when every message exists. The final rows, ids, channels, roles and grants are those of the processed prefix. |
| Events.FirstInProgress | main.go:76-90 | Returns the index of an in-progress event with none in progress before it, or nothing when no event is in progress. |
| Events.FirstInProgressUnique | main.go:76-90 | An in-progress event preceded by none is the one chosen. |
| Events.LatestEnded | main.go:93-108 | The chosen event ended within the past year and no other such event ended later. Ties keep the earliest. Nothing is chosen when no event qualifies. |
| Events.DetermineEvent | main.go:76-110 | The loops return the first in-progress event, else the latest recently ended one, else empty strings. |
| TeamStatus.TagAtSound | main.go:29 | A tag read at the start of a text is well formed, and the text is the tag's rendering followed by the rest. |
| TeamStatus.TagAtComplete | main.go:29 | Every well-formed tag is read back from its rendering, whatever follows it. |
| TeamStatus.TagsWellFormed | main.go:144 | Every extracted tag has a non-empty digit team and a word or empty event. |
| TeamStatus.TagsOfRendered | main.go:144 | A rendered tag at the front of a text is extracted first, and scanning resumes after it. |
| TeamStatus.TagsOfPlain | main.go:144 | A text without `[` has no tags. |
| TeamStatus.TagsOccur | main.go:144 | Every extracted tag is written in the message: its rendering occurs at some index. |
| TeamStatus.TagsSkip | main.go:144 | Text at none of whose indices a tag starts, before the rest of a message, adds no tags and hides none, even when it holds `[`. |
| TeamStatus.NoTagWithoutBracket | main.go:29 | No tag starts inside text without `[`, whatever follows it. |
| TeamStatus.TagsAfterText | main.go:144 | A tag after text at none of whose indices a tag starts is extracted, followed by the tags of the rest. |
| TeamStatus.TagsExample | main.go:144 | `status of [[254]]` yields exactly the tag for team 254 with no event. |
| TeamStatus.TagsAfterBracketExample | main.go:144 | `[x] [[254]]` yields exactly the tag for team 254: a `[` that opens no tag hides nothing. |
| TeamStatus.BoldClean | main.go:158-159 | A reply contains no `<b>` and no `</b>` anywhere. |
| TeamStatus.BoldPlain | main.go:158-159 | A text with no `<` passes through the rewrite unchanged. |
| TeamStatus.BoldPrefix | main.go:155-159 | The rewrite leaves a prefix without `<` alone and acts only on what follows. |
| TeamStatus.BoldOpen | main.go:158-159 | A `<b>` after a prefix without `<` becomes `**`, and the rewrite goes on after it. |
| TeamStatus.BoldClose | main.go:158-159 | A `</b>` after a prefix without `<` becomes `**`, and the rewrite goes on after it. |
| TeamStatus.SuffixIgnored | main.go:145-153 | A tag with an `@event` suffix is always answered with the "Come on Joe" text. |
| TeamStatus.ReplyNamesEvent | main.go:147-159 | A tag without a suffix, for a team with a selected event, is answered `At <event name>, <status>` with only the status rewritten. |
| TeamStatus.ReplyTo | main.go:145-159 | Builds exactly the reply the specification function gives for a tag. |
| TeamStatus.HandleStatus | main.go:139-162 | There is no reply to the bot's own messages. Otherwise there is one reply per extracted tag, in order, each the specified reply. |

## Left out

- Discord sessions, handler registration and message sending. Replies are returned as a sequence instead of being sent.
- Postgres and `database/sql`: the table is an in-memory sequence kept in key order, and the SQL text and driver behaviour are not modelled. A failed insert, which the code only logs, is not modelled.
- The Blue Alliance HTTP calls and JSON decoding (`makeRequest`, `getTeamEventStatus`). A team's events arrive already decoded as integer instants, and a team's status as a function `statusOf`. The year in the request URLs is folded into those parameters. The panics of the JSON type assertions are not modelled.
- Events.DetermineEvent: a date that fails to parse in an event record is not modelled; event boundaries are given as instants.
- The gin router, the cron trigger, environment variables and `main`.
- The mutex and the concurrent `go getDrafts()` and cron triggers. Registration and activation are sequential operations.
- `log.Fatal` becomes an outcome in only two places: an origin channel with no known guild (`ChannelLookupFailed`, no insert) and a missing origin message (the run ends). The other platform calls are modelled as always succeeding.
- Time zones and daylight saving: the clock is a count of seconds with 86400 per day, and the several `time.Now()` calls are one `now`.
- Activation.GrantReactors: reactions are looked up by their emoji text. The code passes `Emoji.ID`, which is empty for Unicode emoji; that difference is not modelled.
- Platform.Discord.GuildRoleCreate: the platform's default role settings are a fixed `RoleDefaults` value given when the platform is built. They do not vary between calls.
- Activation.Activate: the due query has no ORDER BY, so the database may return rows in any order. The model fixes key order. That order decides where a run stops at a missing message and which ids go to which row.
- Logging.
