# PacketQTH core, modelled in Dafny

PacketQTH is a text-mode gateway between packet radio and HomeAssistant. A radio
operator connects over telnet, usually through a BPQ node that sends the operator's
callsign first. The operator proves who they are with a six-digit TOTP code and then
types short commands: `L` lists devices a page at a time, `S 3` shows device 3,
`ON 3`/`OFF 3` switch it, `SET 3 50` sets a level, `A` lists automations and `T 2`
triggers one. Every write needs a fresh TOTP code, and the answers are kept short for
1200-baud links.

This project models the parts of the system that decide what happens:

| module | file | what it models |
|---|---|---|
| `Wrappers`, `Text` | `wrappers.dfy`, `text.dfy` | `Option`/`Result`, and the Python string built-ins the code relies on: `strip`, `upper`, `split`, `join`, `ljust`, `int()`, slicing and indexing |
| `Models` | `models.dfy` | `commands/models.py`: the command kinds, the `Command` record and its predicates, `ParseError` |
| `Parser` | `parser.dfy` | `commands/parser.py`: text to `Command`, errors carried in the command |
| `Validators` | `validators.dfy` | `commands/validators.py`: the command checked against the mapped entities |
| `Filters` | `filters.dfy` | `homeassistant/filters.py`: the glob include/exclude filter, the domain filter, the id-sorted entity list and the `EntityMapper` class that numbers entities |
| `Pagination` | `pagination.dfy` | `formatting/pagination.py`: page clamping, slicing, page indicators and navigation |
| `EntityFormat` | `entity_format.dfy` | `formatting/entities.py`: domain abbreviations, state text, list lines, the detail view |
| `HelpFormat` | `help_format.dfy` | `formatting/help.py`: help topics, message prefixes, tables and compact lists |
| `Auth` | `totp.dfy` | `auth/totp.py`: the `TOTPAuthenticator` (per-callsign rate limiting, code checks) and the `SessionManager` (session table, expiry) classes |
| `Connection` | `session.dfy` | `server/session.py`: one telnet session — login, the command loop with per-write re-verification, the session lifetime |
| `Listener` | `telnet.dfy` | `server/telnet.py`: the IP safelist, the connection cap and the active-session bookkeeping of `TelnetServer` |

The pure modules (`Parser`, `Validators`, `Pagination`, `EntityFormat`, `HelpFormat`)
are functions over datatypes. The stateful objects of the source are classes whose
methods update fields in place: `Filters.EntityMapper`, `Auth.TOTPAuthenticator`,
`Auth.SessionManager`, `Connection.TelnetSession` and `Listener.TelnetServer`. Each
method is proved against a specification function on the state it changes.

The telnet session is modelled in two layers:

- `Connection.Login`, `Connection.LoopFrom` and their helpers are pure functions.
  They run a session over a `ConnState`: a script of timestamped input lines, the
  output sent so far, and a list of the events that matter for authorization: each
  command line the loop parsed (other than QUIT), each call to the authenticator's
  `verify_totp`, and each call to the command handler.
- The `TelnetSession` methods perform the same steps on fields, and each one ensures
  that its new state is the one the function computes.

The authenticator, the session manager, the parser, the validator and the command
handler are reached through an `Env` record of function values. That way the session
properties hold for every behaviour of those parts, not for one implementation.

Time is whole seconds. The session's clock advances with the timestamps of its input
lines; the authenticator and the session manager take `now` as a parameter.

The main properties proved:

- **Login.**
  - A session is authenticated only after a code the authenticator accepted for the
    callsign used.
  - At most `max_auth_attempts` codes are verified.
  - A rate-limited callsign ends the login before any code is read.
  - A non-numeric or wrong-length code uses up an attempt.
- **Writes.**
  - No HomeAssistant write (ON, OFF, SET, TRIGGER) reaches the command handler unless
    a TOTP code, read after that command line was parsed, was verified for the
    logged-in callsign in between. The login's verification, or the one made for an
    earlier command, never lets a write through.
  - A refused or missing code makes no call and leaves the session open.
- **Session lifetime.**
  - An expired session gets the expiry message, and the command loop ends before
    the next command is read.
  - `close` always removes the bound session from the session manager, so a whole
    connection leaves the session table with the ids it had.
- **Rate limiting.**
  - The per-callsign failure window holds only failures younger than the lockout.
  - Lockout starts exactly at the fifth failure.
  - A success clears the window.
- **Parser.**
  - Parsing never fails.
  - It ignores letter case and tokens after the third.
  - Every error-free command is well formed: ids of at least 1, a SET value present,
    pages of at least 1.
- **Validator.** The per-domain rules (switchable, settable, automation-only) hold,
  with inclusive ranges.
- **Filters.** A glob with no wildcards matches only itself. Exclusion wins. The domain
  filter keeps exactly the listed domains. Sorting gives an ordered permutation.
  `EntityMapper` numbers new entities 1, 2, 3, … in alphabetical order of their ids and keeps both of its maps
  inverse to each other.
- **Pagination.** The page number is clamped into range. The pages cover the items
  exactly, in order. Indicators and navigation describe the page shown.
- **Listener.**
  - The safelist check is network-prefix containment as in section 3.1 of RFC 4632.
  - An empty safelist allows everyone.
  - The connection count never exceeds `max_connections` at admission.
  - A finished connection is removed from the active list, leaving the other
    connections unchanged.

Three behaviours of the code are easy to misread. The model does what the code does:

- A code that is not six digits at login uses up an attempt: the `continue` at
  `server/session.py:205` advances the `for attempt` loop.
- A timeout or EOF at the BPQ re-prompt (`server/session.py:179-182`) does not end the
  login. It is answered with "Callsign required." and the next attempt follows.
- The keys of the users map are not upper-cased when the map is loaded, so a callsign
  whose configured key is not upper case is never found by `verify_totp`.

## Model

| member | source | states |
|---|---|---|
| Models.ValueInjective | commands/models.py:12-24 | distinct command kinds have distinct string values |
| Models.ParseError.ToString | commands/models.py:118-122 | the result is the message alone exactly when there is no non-empty suggestion, and otherwise the message, a newline and the suggestion |
| Models.ToStringShape | commands/models.py:84-100 | a command prints as "Command(<kind value>", then ", device_id=<id>", ", value=<value>", ", page=<page>" and ", error='<error>'", each exactly when that field is present (a non-empty error), in that order, then ')'; with no fields it is just "Command(<kind value>)" |
| Models.Classification | commands/models.py:47-82 | SET is the only kind needing a value and is also an id command and a write; the writes are ON, OFF, SET and TRIGGER; paginated kinds neither write nor need an id |
| Parser.CommandMap | commands/parser.py:30-52 | the alias table maps no token to UNKNOWN |
| Parser.AliasesAreUpperCase | commands/parser.py:30-52 | every alias is upper case |
| Parser.ParseIntField | commands/parser.py:284-301 | succeeds exactly when the token is an integer, with that integer; otherwise the error is "Invalid <field>: <token>" |
| Parser.ParsePage | commands/parser.py:137-140 | no page when there is no second token; a second token is accepted exactly when it is an integer of at least 1, and that integer is the page; otherwise "Invalid page number: <token>" or "Page number must be >= 1" |
| Parser.ParseId | commands/parser.py:150-156 | succeeds exactly when the second token is an integer of at least 1, with that integer; with fewer than two tokens the error is the usage error |
| Parser.ParseList | commands/parser.py:133-146 | a successful LIST carries no id and a page of at least 1 or none; `L` alone is the bare LIST; with a second token it succeeds exactly when that token is an integer of at least 1, which becomes the page, and fails with the page error otherwise |
| Parser.ParseAutomations | commands/parser.py:229-242 | the same for AUTOMATIONS: `A` alone is the bare listing, and a second token is accepted exactly when it is an integer of at least 1 |
| Parser.ParseIdCommand | commands/parser.py:148-194 | the shared shape of SHOW/ON/OFF/TRIGGER: success exactly for an id of at least 1, with the command holding that id and nothing else |
| Parser.ParseShow | commands/parser.py:148-162 | SHOW succeeds exactly for an id of at least 1; with no id the error is "SHOW requires device ID" with usage "S <id>" |
| Parser.ParseOn | commands/parser.py:164-178 | the same for ON with usage "ON <id>" |
| Parser.ParseOff | commands/parser.py:180-194 | the same for OFF with usage "OFF <id>" |
| Parser.ParseTrigger | commands/parser.py:244-261 | the same for TRIGGER, whose id names an automation |
| Parser.SetValue | commands/parser.py:209-220 | the SET value is an integer exactly when the token reads as one, and otherwise the token itself |
| Parser.ParseSet | commands/parser.py:196-227 | SET succeeds exactly with three tokens and an id of at least 1, carrying the id and the value; with fewer tokens the error is "SET requires device ID and value" |
| Parser.ParseArgs | commands/parser.py:98-131 | a successful argument parse keeps the kind and the raw text and carries no error; a failure has a non-empty message |
| Parser.ParseTokens | commands/parser.py:82-131 | the result records the raw text and is well formed; an unknown first token gives UNKNOWN with "Unknown command: <token>"; a known one gives its kind: the argument parse's command when it succeeds, and otherwise a command of that kind with no fields and the error's string form, which is not valid |
| Parser.Normalize | commands/parser.py:71-75 | the normalized text has no blank ends and is empty exactly when the input is blank |
| Parser.Parse | commands/parser.py:58-131 | never fails: every result is well formed and records the input; blank input gives UNKNOWN with "Empty command" |
| Parser.ArgsIgnoreRaw | commands/parser.py:133-282 | the argument parsers only record the raw text; nothing else depends on it |
| Parser.TokensIgnoreRaw | commands/parser.py:82-131 | the same for the whole token parse |
| Parser.ParseCaseInsensitive | commands/parser.py:71-72 | upper-casing the input changes nothing but the recorded raw text |
| Parser.FirstTokenDecidesKind | commands/parser.py:83-96 | the kind of the result is the first token's alias, whether or not the arguments are in error; an unknown word gives UNKNOWN with "Unknown command: <WORD>" |
| Parser.ArgsIgnoreExtra | commands/parser.py:133-282 | no argument parser looks past the third token |
| Parser.ExtraTokensIgnored | commands/parser.py:82-131 | tokens after the third never change the parse |
| Parser.BareAccepted | commands/parser.py:133-146 | L, A, H, Q and R alone parse to their kind with nothing else set |
| Parser.PageAccepted | commands/parser.py:133-146 | a page of at least 1 is accepted and recorded by LIST and AUTOMATIONS |
| Parser.MissingIdKeepsKind | commands/parser.py:126-131 | a SHOW with no id keeps the kind SHOW and carries the error message and the usage hint on two lines |
| Parser.IdAccepted | commands/parser.py:148-194 | SHOW, ON, OFF and TRIGGER with an id of at least 1 parse to that kind and id with no error |
| Parser.SetAccepted | commands/parser.py:196-227 | SET with an id of at least 1 and a value parses to that id and value |
| Parser.WellFormedSet | commands/parser.py:196-227 | "SET 1 50" is SET on device 1 with the integer value 50 |
| Parser.ParseAsKind | commands/parser.py:88-119 | tokens led by an alias whose arguments parse give exactly that parse |
| Validators.IdDomain | commands/validators.py:137-138 | the domain is the part before the first dot, or the whole id when there is none |
| Validators.ReplaceChar | commands/validators.py:141 | `replace` changes exactly the occurrences of one character |
| Validators.Title | commands/validators.py:141 | `title()` keeps the length, upper-cases every letter that starts a word and lower-cases every other character |
| Validators.ValidateSwitch | commands/validators.py:135-157 | ON/OFF pass exactly for the switchable domains; otherwise the message is "<Type> cannot be turned <action>" (the entity type from the domain) with the SET suggestion |
| Validators.ValidateValueRange | commands/validators.py:187-243 | inclusive ranges: light 0..255, cover 0..100, climate -50..120, fan 0..100; other domains and non-numbers pass |
| Validators.ValidateSet | commands/validators.py:159-174 | domains that cannot be SET are refused; for the others the value range decides |
| Validators.ValidateTrigger | commands/validators.py:176-185 | only automations can be triggered; otherwise the message is "#<id> is not an automation" ("#None" without an id) with the A suggestion |
| Validators.Validate | commands/validators.py:82-128 | kinds needing no entity, and a missing mapper, always pass; an unmapped id is "Device #<id> not found"; SHOW always passes |
| Validators.SwitchRule | commands/validators.py:121-124 | ON/OFF on a mapped entity pass exactly for the switchable domains |
| Validators.SetDomainRule | commands/validators.py:165-170 | SET on a domain that cannot be SET is refused, whatever the value |
| Validators.SetRangeBounds | commands/validators.py:212-243 | the SET ranges are inclusive at both ends; input_number and number take any value |
| Validators.TriggerRule | commands/validators.py:176-185 | TRIGGER passes exactly for automations |
| Validators.SetWithoutValue | commands/validators.py:173-174 | a SET without a value is checked only for its domain |
| Validators.ParsedCommandsDoNotFail | commands/validators.py:108-128 | with a mapper whose entities all have ids, commands of the form the parser produces never cause a lookup failure |
| Filters.DomainOf | homeassistant/filters.py:55-56 | the domain has no dot and, followed by '.', starts the id; an id without a dot has the empty domain |
| Filters.GlobLiteral | homeassistant/filters.py:62-65 | an exclusion pattern without `*` or `?` excludes exactly the identical id |
| Filters.GlobStarMatchesAll | homeassistant/filters.py:62-65 | the pattern `*` excludes every entity |
| Filters.GlobPrefixStar | homeassistant/filters.py:62-65 | `prefix*` excludes exactly the ids that start with the prefix |
| Filters.NewFilter | homeassistant/filters.py:21-40 | a missing or empty domain list means every domain; the given domains, patterns and attributes are kept (missing patterns and attributes are empty) |
| Filters.AnyPatternMatches | homeassistant/filters.py:63-65 | true exactly when some exclusion pattern matches the id |
| Filters.ShouldInclude | homeassistant/filters.py:42-72 | an entity is kept exactly when its domain is allowed, no pattern matches its id and no excluded attribute has the excluded value |
| Filters.FilterEntities | homeassistant/filters.py:74-84 | the result holds exactly the kept entities of the input |
| Filters.FilterEntitiesAppend | homeassistant/filters.py:74-84 | filtering keeps the original order: filtering a concatenation concatenates the filtered parts |
| Filters.EmptyFilterKeepsAll | homeassistant/filters.py:21-40 | a filter with no settings keeps the whole list unchanged |
| Filters.InsertSorted | homeassistant/filters.py:96-102 | adding a domain to the sorted set keeps it strictly sorted and adds exactly that domain |
| Filters.GetDomains | homeassistant/filters.py:86-102 | the result is strictly sorted (so duplicate-free) and holds exactly the domains of ids that contain a dot |
| Filters.FilterByDomain | homeassistant/filters.py:104-122 | keeps exactly the entities whose id starts with "<domain>." |
| Filters.StartsWithDomainIff | homeassistant/filters.py:119-122 | for a domain without a dot, starting with "<domain>." is having that domain |
| Filters.AddOneSpec | homeassistant/filters.py:177-192 | one step of `add_entities` keeps the mapper invariant and existing numbers; a new non-empty id gets the next number and the counter moves on by one; an absent, empty or known id changes nothing |
| Filters.AddFreshValid | homeassistant/filters.py:186-192 | numbering a new non-empty id with the next number keeps the two maps inverse to each other |
| Filters.AddAllSpec | homeassistant/filters.py:167-192 | after `add_entities` the invariant holds, earlier numbers are unchanged, every non-empty id of the list is mapped and no other id is |
| Filters.MapperCount | homeassistant/filters.py:245-252 | the number of mapped entities is the last number handed out, and both maps have that size |
| Filters.SortById | homeassistant/filters.py:174-175 | the sort gives a permutation of the input, sorted by entity id |
| Filters.InsertById | homeassistant/filters.py:174-175 | inserting into a sorted list keeps it sorted and adds exactly that entity |
| Filters.EntityMapper.constructor | homeassistant/filters.py:161-165 | a new mapper is empty, valid, and hands out 1 first |
| Filters.EntityMapper.AddEntities | homeassistant/filters.py:167-192 | the new state is the old one with the id-sorted list numbered in turn; the invariant is kept; newly numbered ids get numbers from the old counter up, in alphabetical order of their ids |
| Filters.AddAllOrdered | homeassistant/filters.py:167-192 | adding an id-sorted list numbers every new id from the old counter up, and of two new ids the alphabetically smaller gets the smaller number |
| Filters.ThreeNumbered | homeassistant/filters.py:167-192 | three entities with ids a < m < z given as z, a, m are numbered a → 1, m → 2, z → 3 |
| Filters.IdsSortedExample | tests/test_filters.py:212-223 | `light.z_last`, `light.a_first`, `light.m_middle` added in that order get 3, 1 and 2 |
| Filters.EntityMapper.Number | homeassistant/filters.py:178-192 | one loop step: a new non-empty id gets the next number; anything else changes nothing |
| Filters.EntityMapper.GetById | homeassistant/filters.py:194-204 | a number is mapped exactly when it is between 1 and the last one handed out, and then the answer is the entity stored under it; its entity's id maps back to it |
| Filters.EntityMapper.GetId | homeassistant/filters.py:206-216 | a mapped id has a number in range whose entity has that id |
| Filters.EntityMapper.GetAll | homeassistant/filters.py:218-225 | every mapped entity, listed in the order of their numbers |
| Filters.EntityMapper.Clear | homeassistant/filters.py:227-231 | the mapper is empty again and hands out 1 next |
| Filters.EntityMapper.Refresh | homeassistant/filters.py:233-243 | the state is exactly that of a new mapper given the new list |
| Filters.EntityMapper.Count | homeassistant/filters.py:245-252 | the count is the size of both maps and the last number handed out |
| Pagination.CeilDiv | formatting/pagination.py:32 | `ceil(n / size)` is the fewest pages of `size` items that hold `n` items, and 0 exactly for no items |
| Pagination.Paginator.TotalPages | formatting/pagination.py:21-32 | the pages hold every item and the last page is not empty; no items means no pages; a page size of 0 or less gives 1 |
| Pagination.Paginator.PageShown | formatting/pagination.py:45-48 | a page below 1 shows page 1, a page past the end shows the last, and any other page shows itself |
| Pagination.Paginator.GetPage | formatting/pagination.py:34-54 | a page never holds more than the page size, nor more than the list |
| Pagination.Paginator.GetPageInfo | formatting/pagination.py:56-82 | the page is clamped to max(1, min(p, total)); the indices, the item count and the next/previous flags follow from it |
| Pagination.Paginator.FormatPageIndicator | formatting/pagination.py:84-114 | the compact form shows the clamped page and the total after an optional title; the verbose form adds the item count |
| Pagination.Paginator.FormatNavigation | formatting/pagination.py:116-146 | nothing for a single page; otherwise it contains N exactly when there is a next page and P exactly when there is a previous one, and the compact form ends with ':' |
| Pagination.PySliceLength | formatting/pagination.py:54 | a slice is never longer than the distance between its bounds |
| Pagination.PageInRange | formatting/pagination.py:45-54 | an in-range page starts inside the list and is the run of items from its start to its end or the end of the list |
| Pagination.PagesPrefix | formatting/pagination.py:34-54 | the first k pages, read in order, are the first k × size items (or the whole list) |
| Pagination.PagesCoverItems | formatting/pagination.py:34-54 | reading every page in order gives back exactly the whole list: nothing is lost, repeated or reordered |
| Pagination.PageClamping | formatting/pagination.py:45-48 | a page number below 1 shows page 1, and one past the end shows the last page |
| Pagination.InfoDescribesPage | formatting/pagination.py:56-82 | the start index, end index and item count of `get_page_info` describe exactly the page that `get_page` returns |
| Pagination.Framed | formatting/pagination.py:174-191 | the header first, then the body in order, then the navigation line when there is a non-empty one |
| Pagination.PaginateAndFormat | formatting/pagination.py:149-191 | the compact indicator, one formatted line per item of the page in order, then the navigation prompt when asked for and there is more than one page |
| Pagination.PageWithEntitiesFrame | formatting/pagination.py:194-235 | the lines are the compact page indicator, one line per entity of the shown page, then the navigation prompt exactly when there is one |
| Pagination.PageWithEntitiesNumbering | formatting/pagination.py:194-235 | line 1 + k is the formatter's line for entity k of the shown page under the number start_index + 1 + k of the page info returned |
| Pagination.Numbered | formatting/pagination.py:225-228 | each item is formatted with its running number |
| Pagination.CalculateOptimalPageSize | formatting/pagination.py:238-265 | 10 when the average length is not positive; otherwise the most lines that fit the budget after 20 bytes per overhead line, clamped to 1..20 |
| EntityFormat.AbbrevTableShape | formatting/entities.py:12-25 | every domain code is two characters and no two domains share one |
| EntityFormat.GetEntityAbbrev | formatting/entities.py:28-39 | the code of the domain before the first '.', or "??" for an unknown domain; always two characters |
| EntityFormat.NoDotUnknown | formatting/entities.py:38 | an id without a dot has no known domain and gets "??" |
| EntityFormat.FormatState | formatting/entities.py:42-94 | on, off and unavailable/unknown/none, in any letter case, give "[ON]", "[--]" and "[??]"; an integer state starts with its digits; any other state is cut to at most six characters, its first five and '…' |
| EntityFormat.FormatStateCaseInsensitive | formatting/entities.py:55-66 | the markers do not depend on the letter case of the state |
| EntityFormat.DisplayName | formatting/entities.py:121 | the friendly name as text when there is one, otherwise the part of the id after its last '.' |
| EntityFormat.NameField | formatting/entities.py:123-125 | the name column is exactly the width: a short name padded with spaces, a long one cut to width − 1 characters plus '…' |
| EntityFormat.FormatEntityLine | formatting/entities.py:97-137 | the line length is the id's digits, the name column, five fixed characters and the state |
| EntityFormat.LineLayout | formatting/entities.py:135 | the line is "<id>.<AB> ", then the name column, one space, then the state |
| EntityFormat.StatesAligned | formatting/entities.py:133-135 | lines whose ids have the same number of digits put the state in the same column, whatever the names |
| EntityFormat.FormatEntityList | formatting/entities.py:140-162 | one line per entity, in order, numbered consecutively from the start id |
| EntityFormat.ListNumbering | formatting/entities.py:158-160 | the k-th listed line starts with start id + k and a '.' |
| EntityFormat.DetailExtras | formatting/entities.py:194-230 | a light shows "Bright: <n>%" and then "Color: RGB(r,g,b)" for the attributes it has; a cover "Pos: <n>%"; a climate device "Target: <t><unit>" then "Current: <t><unit>"; a sensor "Unit: <u>" when its unit is not empty; any other domain nothing |
| EntityFormat.FormatEntityDetail | formatting/entities.py:165-235 | the header "#<id> <AB> <name>", then "State: …", then the domain's extra lines, and "ID: <entity id>" last: three to five lines |
| EntityFormat.FormatCompact | formatting/entities.py:288-299 | the joined text is as long as the items plus the separators between them; no items give ""; one item gives that item; it starts with the first item |
| EntityFormat.FormatCompactAppend | formatting/entities.py:288-299 | one more item adds exactly the separator and that item at the end, so the items appear in order, each separated once |
| EntityFormat.Truncate | formatting/entities.py:302-317 | text that fits is unchanged; longer text is cut to the limit and ends with the suffix |
| EntityFormat.TruncateIdempotent | formatting/entities.py:302-317 | truncating twice to the same limit changes nothing the second time |
| HelpFormat.HelpTopicsAreCommands | formatting/help.py:42-100 | every help topic is a command alias, and its page names the command on its usage line |
| HelpFormat.FormatCommandHelp | formatting/help.py:32-103 | the page of the upper-cased name when there is one, else "No help for: <name>" as typed |
| HelpFormat.CommandHelpCaseInsensitive | formatting/help.py:102-103 | a name and its upper-cased form get the same help page |
| HelpFormat.FormatErrorMessage | formatting/help.py:127-143 | "ERR: <error>", then the context on a second line exactly when it is non-empty |
| HelpFormat.FormatSuccessMessage | formatting/help.py:146-156 | the message after "OK: " |
| HelpFormat.FormatInfoMessage | formatting/help.py:159-169 | the message after "INFO: " |
| HelpFormat.FormatPrompt | formatting/help.py:274-284 | the prompt text followed by exactly one blank |
| HelpFormat.FormatListHeader | formatting/help.py:287-303 | "<title> (<count> " first and "<item type>)" last, with nothing else in between |
| HelpFormat.FormatStatusLine | formatting/help.py:172-187 | no pairs give the empty line; one pair gives "key: value"; otherwise it starts with the first "key: value" and is as long as the pairs and separators |
| HelpFormat.FormatStatusLineAppend | formatting/help.py:172-187 | one more pair adds exactly the separator and "key: value" at the end, so the pairs appear in order |
| HelpFormat.Pairs | formatting/help.py:186 | each pair, in order, as "key: value" |
| HelpFormat.FormatCompactList | formatting/help.py:306-330 | without a (non-zero) limit every item after the prefix; with a positive limit the first items up to it, then "... and <k> more" for the k left out; a negative limit drops that many items from the end and always adds the "more" line |
| HelpFormat.ColumnWidth | formatting/help.py:215-219 | the width of a column is the widest entry any row has in that column |
| HelpFormat.ColWidths | formatting/help.py:211-219 | one width per column of the first row, at least as wide as every entry in that column |
| HelpFormat.RowParts | formatting/help.py:230-238 | the cells inside the columns, padded to the column width unless compact |
| HelpFormat.FormatTable | formatting/help.py:190-245 | no rows give no lines; with headers in the verbose form, a header line and a dash line of the same length come first; each row gives one line |
| HelpFormat.PaddedLength | formatting/help.py:236-238 | cells padded to their widths are as long as the widths together |
| HelpFormat.TableAligned | formatting/help.py:221-243 | in the verbose form every row that fills all the columns prints with the same length as the header line |
| HelpFormat.RowLength | formatting/help.py:237-243 | a padded full row is the widths plus one blank between each pair of columns |
| Auth.Recent | auth/totp.py:90-95 | the failure times kept are exactly those strictly later than now − 300 |
| Auth.RateLimit | auth/totp.py:75-98 | only this callsign's log is pruned to the window; the callsign is limited exactly when it has a log with at least five recent failures |
| Auth.RecordFailure | auth/totp.py:100-104 | the time is appended to this callsign's log, a new log is started when there is none, and other logs are untouched |
| Auth.ClearFailures | auth/totp.py:106-109 | this callsign's log is dropped and the other logs are kept |
| Auth.ClearedIsFree | auth/totp.py:106-109 | a callsign whose log was cleared is not rate limited |
| Auth.Unexpired | auth/totp.py:136-137 | the used codes kept are exactly those whose expiry is later than now |
| Auth.Verify | auth/totp.py:111-155 | accepted exactly when the upper-cased callsign is not limited, is a user, the code is not blocked and it matches the secret now; an acceptance says "Authentication successful.", a refusal gives one of the three refusal messages |
| Auth.RateLimitComesFirst | auth/totp.py:124-126 | a limited callsign is refused with the lock-out message before its user entry or its code are looked at |
| Auth.FailureRecordsOne | auth/totp.py:128-131 | an unknown callsign, or a known one with a wrong code that is not blocked, is refused as invalid and adds exactly one failure, at now, to the pruned log |
| Auth.ReplayRefused | auth/totp.py:133-139 | a code still blocked is refused as already used, without counting a failure and without changing the used codes |
| Auth.SuccessConsumesCode | auth/totp.py:147-152 | an accepted code is blocked for 90 seconds, expired codes of the callsign are purged, its failure log is cleared, and other callsigns' used codes are untouched |
| Auth.SecondUseRefused | auth/totp.py:133-152 | the same code presented again within 90 seconds is refused as already used, even though it still matches |
| Auth.FailuresAccumulate | auth/totp.py:124-155 | a run of wrong codes at one time adds one failure each to the log and leaves the used codes alone |
| Auth.StillRefused | auth/totp.py:133-155 | once a refusal leaves the used codes alone, the remaining wrong codes stay wrong and unblocked |
| Auth.OneMoreFailure | auth/totp.py:128-155 | one refused attempt below the limit turns k failures at now into k + 1 |
| Auth.OnesRecent | auth/totp.py:90-95 | failures at the current time are all inside the window |
| Auth.RecentAppend | auth/totp.py:90-95 | pruning a concatenated log prunes each part |
| Auth.FiveStrikes | auth/totp.py:75-98 | after four or five wrong codes at one time, the callsign is limited exactly after the fifth |
| Auth.GetSpec | auth/totp.py:201-223 | an unknown id gives nothing; an expired session is dropped and gives nothing; a live one is returned with its activity set to now |
| Auth.CleanupSpec | auth/totp.py:230-237 | exactly the expired sessions are removed and the others are unchanged |
| Auth.CreateThenGet | auth/totp.py:178-223 | a session read at the moment it is created is live, with the upper-cased callsign, when the timeout is not negative |
| Auth.DistinctIdsKept | auth/totp.py:178-199 | two sessions created under distinct ids are both kept with their own callsigns, and nothing else is added |
| Auth.TOTPAuthenticator.constructor | auth/totp.py:45-56 | the users and the TOTP check are the given ones; both logs start empty |
| Auth.TOTPAuthenticator.IsRateLimited | auth/totp.py:75-98 | the answer and the new logs are those of `RateLimit` |
| Auth.TOTPAuthenticator.RecordFailedAttempt | auth/totp.py:100-104 | the new logs are those of `RecordFailure` |
| Auth.TOTPAuthenticator.ClearFailedAttempts | auth/totp.py:106-109 | the new logs are those of `ClearFailures` |
| Auth.TOTPAuthenticator.VerifyTotp | auth/totp.py:111-155 | the answer, the message and the new logs are those of `Verify` |
| Auth.Session.constructor | auth/totp.py:17-23 | the record holds the given callsign, times and id |
| Auth.Session.UpdateActivity | auth/totp.py:29-31 | only the last-activity time changes, to now |
| Auth.SessionManager.constructor | auth/totp.py:168-176 | an empty table with the given timeout |
| Auth.SessionManager.CreateSession | auth/totp.py:178-199 | a fresh session object is stored under the new id with the upper-cased callsign; every other entry is unchanged |
| Auth.SessionManager.GetSession | auth/totp.py:201-223 | the table and the answer are those of `GetSpec`; the session returned is the object the table holds |
| Auth.SessionManager.EndSession | auth/totp.py:225-228 | the id is removed and nothing else changes; an absent id changes nothing |
| Auth.SessionManager.CleanupExpiredSessions | auth/totp.py:230-237 | the new table is `CleanupSpec` of the old one |
| Auth.SessionManager.GetActiveSessions | auth/totp.py:239-242 | after clean-up, exactly the sessions left in the table |
| Connection.Sents | server/session.py:94-102 | one `Sent` entry per line, in order |
| Connection.Write | server/session.py:75-92 | `send` appends the text to the transcript and counts as activity; nothing else changes |
| Connection.WriteAll | server/session.py:94-102 | the transcript grows by exactly the lines' entries; activity is updated only when something was sent |
| Connection.ReadInput | server/session.py:104-144 | a non-empty prompt is written first; one input event is consumed; the answer is the stripped line, or None exactly when the event is a timeout/EOF or the input is exhausted; login fields and calls are untouched |
| Connection.Normalized | server/session.py:172 | a normalized callsign is upper case |
| Connection.ReadCallsign | server/session.py:158-186 | the callsign step never touches the login fields or calls, only extends the transcript, can only switch BPQ mode off (and only on the first BPQ attempt), and a callsign it hands on is non-empty and upper case |
| Connection.Reprompt | server/session.py:174-182 | the blank BPQ first line leads to exactly one `Callsign: ` prompt and never to the abort outcome |
| Connection.Login | server/session.py:146-238 | whatever the input: success means logged in under a non-empty upper-case callsign bound to one new session under the new id, and the last call made is a successful verification for that callsign; failure leaves the login fields and the session table unchanged; at most one verification per remaining attempt; the write-command guard is kept; BPQ mode is never switched back on |
| Connection.Attempt | server/session.py:158-238 | one pass of the attempt loop establishes the same login guarantee |
| Connection.WithCallsign | server/session.py:188-192 | after the rate-limit check the login guarantee still holds |
| Connection.ReadCode | server/session.py:194-199 | after the code read the login guarantee still holds |
| Connection.CodeRead | server/session.py:201-205 | after the format check the login guarantee still holds |
| Connection.CheckCode | server/session.py:207-233 | a verified code always logs in under that callsign, right after the successful verification of that callsign; otherwise the login guarantee holds |
| Connection.Retry | server/session.py:224-233 | a failed verification writes the authenticator's message first and changes nothing but the transcript |
| Connection.Welcome | server/session.py:210-222 | a verified code leaves the connection logged in and bound to a new session holding the callsign; authenticator, calls, input and BPQ mode are unchanged |
| Connection.NoInputNoLogin | server/session.py:163-170 | with no input nobody logs in and the session table is untouched |
| Connection.BpqFirstLine | server/session.py:160-186 | outside the first BPQ attempt the callsign is prompted for; a non-blank BPQ first line is taken without a prompt; a blank one switches BPQ mode off and prompts within the same attempt |
| Connection.NormalizedKeepsText | server/session.py:172-174 | a line with text after stripping gives a non-empty callsign |
| Connection.RateLimitedAborts | server/session.py:188-192 | a rate-limited callsign ends the whole login with the lock-out message, without reading a code or verifying |
| Connection.MalformedCodeCostsAttempt | server/session.py:201-205 | a code that is not six digits is never verified and the login goes on with the next attempt number |
| Connection.MalformedCode | server/session.py:201-205 | a malformed code writes the refusal and continues with the next attempt |
| Connection.LoginExhausted | server/session.py:235-238 | once every attempt is used the login fails with the final message |
| Connection.AttemptEnds | server/session.py:168-170 | a timeout or EOF at the callsign prompt ends the login as failed |
| Connection.AttemptMissing | server/session.py:180-186 | a missing callsign uses up the attempt |
| Connection.Touch | server/session.py:287-289 | the activity update changes no connection field, no authenticator state and no session id |
| Connection.Response | server/session.py:338-368 | the handler is called exactly when it exists and validation passes; without a handler the answer is the not-initialized error; a validation error gives its message and suggestion; a failed lookup or a raising handler gives "ERR: Command processing error"; otherwise the handler's lines are the answer; every refusal starts with `ERR: ` |
| Connection.Dispatch | server/session.py:338-368 | dispatch never ends the loop, records a handler call exactly when the handler ran, sends exactly the response lines, and keeps the write-command guard when the last two events are that command read and a successful verification for the connection's callsign |
| Connection.Reauthorize | server/session.py:307-336 | a write command never ends the loop and keeps the login fields and the table; when the command was just read, it reaches the handler only through a successful verification of the connection's callsign made in between |
| Connection.ReauthorizeCancelled | server/session.py:313-316 | a timeout at the fresh-code prompt cancels the operation with no call |
| Connection.ReauthorizeMalformed | server/session.py:321-324 | a fresh code of the wrong form is refused with no call |
| Connection.VerifyThenDispatch | server/session.py:326-336 | the fresh code is verified for the connection's callsign (or "" without one) as the next call; a refused code ends there; the handler is reached only after it verifies, and the guard is kept when the command was the last event |
| Connection.Execute | server/session.py:291-368 | one command line keeps the login fields and the table, and keeps the guard; a line that does not parse continues the loop with no call, sending exactly the parse error as an `ERR: ` line |
| Connection.Perform | server/session.py:301-368 | the loop stops exactly on QUIT, which sends "73!" and nothing else; the guard is kept |
| Connection.PerformRoutes | server/session.py:307-338 | every command but QUIT is recorded as read; a write command then goes through `Reauthorize` and any other command straight to `Dispatch` |
| Connection.LoopExpires | server/session.py:269-273 | an expired session gets the expiry line and the loop ends before reading |
| Connection.LoopWithoutInput | server/session.py:275-281 | a timeout or EOF at the command prompt ends the loop |
| Connection.LoopSkipsEmpty | server/session.py:283-285 | an empty line is skipped and the loop goes on |
| Connection.LoopKeeps | server/session.py:252-368 | the whole loop keeps the login fields and BPQ mode, the write-command guard, and changes the table only in the bound session's last-activity time |
| Connection.QuitEndsLoop | server/session.py:301-305 | a line that parses to QUIT writes `73!` and ends the loop |
| Connection.CloseSpec | server/session.py:400-414 | close removes exactly the bound session from the table, if any, and keeps everything else |
| Connection.Banner | server/session.py:240-250 | a non-empty banner is sent line by line followed by an empty line; an empty one sends nothing; nothing else changes |
| Connection.RunGuarded | server/session.py:370-398 | over a whole connection every write-command handler call directly follows a successful verification of the connection's callsign, which directly follows the reading of that same command; once the connection closes the session table has the same ids as before |
| Connection.TelnetSession.constructor | server/session.py:30-73 | a fresh connection is logged out, unbound, with the given BPQ mode, clock and input, and empty transcript |
| Connection.TelnetSession.Send | server/session.py:75-92 | the connection state becomes `Write` of the old one; authenticator and sessions untouched |
| Connection.TelnetSession.SendLines | server/session.py:94-102 | the connection state becomes `WriteAll` of the old one |
| Connection.TelnetSession.Receive | server/session.py:291-292 | the parsed command is recorded as the connection's latest event; nothing else changes |
| Connection.TelnetSession.ReadLine | server/session.py:104-144 | state and answer are those of `ReadInput` |
| Connection.TelnetSession.GetCallsign | server/session.py:158-186 | state and outcome are those of `ReadCallsign` |
| Connection.TelnetSession.TryAttempt | server/session.py:158-233 | the attempt ends as `Attempt` says |
| Connection.TelnetSession.CheckTotp | server/session.py:207-208 | the verification is made on the authenticator and recorded among the calls |
| Connection.TelnetSession.SendRetry | server/session.py:224-233 | the connection state becomes `Retry` of the old one |
| Connection.TelnetSession.OpenSession | server/session.py:212-213 | the session created and fetched back is the table's entry under the new id |
| Connection.TelnetSession.BindSession | server/session.py:210-222 | the world becomes `Welcome` of the old one |
| Connection.TelnetSession.Authenticate | server/session.py:146-238 | final state and answer are those of `Login` from attempt 1, so its guarantee holds |
| Connection.TelnetSession.ShowBanner | server/session.py:240-250 | the connection state becomes `Banner` of the old one |
| Connection.TelnetSession.TouchSession | server/session.py:287-289 | the world becomes `Touch` of the old one |
| Connection.TelnetSession.DispatchCommand | server/session.py:338-368 | the connection state becomes that of `Dispatch` |
| Connection.TelnetSession.ReauthorizeCommand | server/session.py:307-336 | connection and authenticator states become those of `Reauthorize` |
| Connection.TelnetSession.ExecuteLine | server/session.py:291-368 | state and stop flag are those of `Execute` |
| Connection.TelnetSession.PerformCommand | server/session.py:301-368 | state and stop flag are those of `Perform` |
| Connection.TelnetSession.CommandLoop | server/session.py:252-368 | the world becomes `Serve` of the old one, so `LoopKeeps` applies |
| Connection.TelnetSession.Close | server/session.py:400-414 | the world becomes `CloseSpec` of the old one |
| Connection.TelnetSession.Run | server/session.py:370-398 | the world becomes `RunSpec` of the old one, so `RunGuarded` applies |
| Listener.ContainsByPrefix | server/telnet.py:107-115 | an address is in a well-formed network exactly when the versions agree and its first prefix-length bits equal the network's |
| Listener.ToNetwork | server/telnet.py:74-84 | an entry parses exactly when its version is 4 or 6, its address fits the width and its prefix is between 0 and the width; the result is well formed, with host bits cleared |
| Listener.Networks | server/telnet.py:74-84 | the safelist is no longer than the configuration and holds only well-formed networks |
| Listener.NetworksMembers | server/telnet.py:74-84 | a network is in the safelist exactly when some configured entry parses to it |
| Listener.NetworksAppend | server/telnet.py:76-81 | the safelist of a concatenation is the concatenation of the safelists |
| Listener.SkipInvalid | server/telnet.py:77-84 | an entry that does not parse is skipped without affecting the others |
| Listener.ParseSafelist | server/telnet.py:74-84 | the loop builds exactly `Networks` of the entries |
| Listener.AllowedByPrefix | server/telnet.py:93-119 | with a non-empty safelist a peer is allowed exactly when some network shares its version and prefix bits |
| Listener.UnparsableRefused | server/telnet.py:103-119 | an unparsable peer is refused exactly when the safelist is non-empty |
| Listener.AllInvalidAllowsAll | server/telnet.py:74-105 | a configuration whose every entry fails gives an empty safelist, which allows everyone |
| Listener.SafelistExample | server/telnet.py:93-119 | `192.168.1.0/24` allows 192.168.1.1 and 192.168.1.254 and refuses 192.168.2.1 |
| Listener.Decide | server/telnet.py:139-164 | a peer is admitted exactly when it passes the IP check and a slot is free; the IP check comes first; a full list refuses an allowed peer |
| Listener.Without | server/telnet.py:194-197 | removing a connection that is listed drops exactly one entry and keeps all others; removing an unlisted one changes nothing |
| Listener.WithoutAt | server/telnet.py:194-197 | the list closes over the gap, keeping order |
| Listener.WithoutDistinct | server/telnet.py:194-197 | in a list without duplicates the removed connection is gone and the rest stay distinct |
| Listener.WithoutLast | server/telnet.py:179-197 | appending a connection and removing it gives back the list |
| Listener.Callsigns | server/telnet.py:321-332 | a callsign is listed exactly when some logged-in connection carries it non-empty |
| Listener.CallsignsAppend | server/telnet.py:321-332 | the callsigns of a concatenation are those of each part in order |
| Listener.SessionsStats | server/telnet.py:311-319 | one entry per live connection, in order, with its callsign, login flag and idle time |
| Listener.TelnetServer.constructor | server/telnet.py:33-91 | the safelist is `Networks` of the configuration; no live connections; zero counted |
| Listener.TelnetServer.IsIpAllowed | server/telnet.py:93-119 | the answer is `Allowed` of the safelist and the peer |
| Listener.TelnetServer.Admit | server/telnet.py:139-180 | the decision is `Decide`; a refused peer changes nothing; an admitted one is a fresh logged-out connection appended to the list and counted |
| Listener.TelnetServer.Release | server/telnet.py:194-197 | the connection leaves the live list and nothing else changes |
| Listener.TelnetServer.HandleConnection | server/telnet.py:121-202 | a refused peer gets one refusal line and nothing else changes; an admitted one is counted, runs as `RunSpec` says and leaves the live list as it found it |
| Listener.TelnetServer.RunAdmitted | server/telnet.py:187-197 | the connection runs as `RunSpec` says and is then removed from the list |
| Listener.TelnetServer.Stop | server/telnet.py:257-277 | every live connection is closed, exactly their bound sessions are ended, and the list is emptied |
| Listener.TelnetServer.GetStats | server/telnet.py:293-319 | the live count is the list's length, the cap and the running total are the server's, and each connection has its entry with its callsign, login flag and idle time |
| Listener.StatsWithinCap | server/telnet.py:153-164 | the live count reported never exceeds the cap |

## Left out

- Network I/O, asyncio and timeouts: the stream is a script of timestamped input events. A timeout, EOF or read error is an event with no line. Writes cannot fail, so the `raise` in `send` and the `except Exception` of `run` are not modelled.
- Logging is not modelled.
- Wall-clock time is whole seconds: the clock of a connection is the timestamp of its latest input event; `datetime.now()` elsewhere is a `now` parameter.
- The connection keeps its output and its calls as two lists, so the interleaving of written lines with verification and handler calls is not recorded.
- The pyotp TOTP computation (RFC 6238 with a window of three steps) is the authenticator's `totpMatches` function value, fixed at construction.
- `secrets.token_hex` is replaced by a session id passed in by the caller. The session manager requires it to be fresh in the table.
- `load_users`, `reload_users` and the YAML users file are left out; the users map is a constructor parameter.
- The default authenticator and session manager that the connection and server constructors create when given none are left out; both are always passed in.
- The connection reaches the authenticator, parser, validator and command handler through function values. The concrete `TOTPAuthenticator` is connected to them by `TelnetSession.Wired`, but the command handler's HomeAssistant calls are not modelled.
- The id of the session a successful login creates is passed into `Authenticate` and `Run` rather than drawn at random; it is used only by the attempt that verifies.
- Session accessors `is_authenticated`, `get_callsign`, `get_remote_addr` and `get_idle_time` read a field each and are not separate members; the fields are read directly.
- Listener: the `ipaddress` parsing of peer addresses and safelist entries is left out. Addresses arrive as (version, integer) pairs or as unparsable. Safelist entries arrive as an address with an optional prefix length; netmask-style suffixes are not represented.
- Listener: connections are handled one at a time. `Admit` and `Release` are the halves of `handle_connection` before and after the connection runs, and no other connection interleaves between them.
- Listener.TelnetServer.GetStats: the uptime, the listening flag and the peer addresses are left out; the counts and the per-connection entries are modelled.
- `start`, `serve_forever`, `run`, `shutdown`, `run_server`, `from_config` and `EntityFilter.from_config` are event-loop and configuration plumbing and are left out.
- Floating point: attribute and SET values are integers, booleans, strings or lists of integers. The float branch of `_parse_set`, the float conversion in `_validate_value_range` and the decimal-state branch of `format_state` are not modelled. The brightness percentage is exact integer division truncated toward zero.
- `format_bandwidth_stats` and `estimate_transmission_time` are left out (floats and UTF-8 byte counts).
- `format_main_menu`, `format_abbreviations`, `format_welcome_message` and `format_disconnect_message` return constant text and are not modelled. The login welcome lines and `73!` are written by `Connection`.
- EntityFormat.FormatEntityLine: requires the friendly name to be text, because the source's padding of a non-text name raises.
- EntityFormat.FormatEntityLine: requires a name width of at least 1; a width of 0, which the source accepts, is not modelled.
- EntityFormat.FormatEntityDetail: requires a light's brightness to be a number and its colour to have three components, because the source raises on anything else.
- Connection.RunGuarded: requires a session timeout of at least 0 minutes. The source also accepts a negative timeout, a misconfiguration under which every session expires as soon as it is created; the whole-connection statement is not proved for that case.
- Filters.GlobMatch: `*` and `?` only. Bracket sets match literally, and platform case folding is left out.
- Python's `str.upper`, `str.lower`, `str.title`, `str.isdigit` and `int()` are modelled on ASCII; `int()` accepts an optional sign and ASCII digits only. `strip` removes Python's whitespace characters (`Text.IsSpace`).
- Filters.SortById: a stable insertion sort by entity id stands in for Python's stable `sorted`. Only order and permutation are proved, not stability, so which of two entities with the same entity_id `add_entities` numbers first is not stated.
- The HomeAssistant client, the command handlers, `main.py` and the tools are not part of this model.
