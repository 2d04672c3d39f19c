# Support-ticket bot core, modelled in Dafny

This project models the decision and data logic of a Discord support-ticket bot
(`src/index.js`). The model has five parts:

- **Dispatcher** (`flow.dfy`, module `Flow`). Maps an interaction to the bot's
  response. An interaction is a slash command, a button press, a string-select
  choice, or anything else. The response is a fresh reply, an in-place update
  that replaces the prompt's controls, ticket creation, archiving, or nothing.
  The flow keeps no session: the controls the last response showed are the only
  state. So the decision tree (read the FAQ? what kind of support? filed an
  in-game report?) is checked as paths through those controls.
- **Ticket naming** (`naming.dfy`, module `Naming`). The channel name is
  `ticket-<username>`, lower-cased, with every character outside `[a-z0-9-]`
  removed.
- **Channels and permission overwrites** (`channels.dfy`, module `Channels`).
  Covers how the tickets category is resolved, the three overwrites of a new
  ticket, and how closing denies Send to every subject but the support role.
  Permission flags are bit positions of Discord's permission bitfield: View
  channel 10, Send messages 11, Read message history 16.
- **Transcript** (`transcript.dfy`, module `Transcript`). Fetches the newest
  messages (at most 100) and sorts them stably by creation time. Each message
  becomes one line `[ts] tag (id): content`, followed by
  ` [attachments: u1, u2]` when the message has attachments. The lines are
  joined with newlines, or the text is `No messages.` when nothing was fetched.
- **Guild state** (`bot.dfy`, class `Bot.Guild`). Holds the channels, the
  messages the bot has sent, and a stand-in for the platform's id allocator.
  The methods resolve the category, create a ticket, run the lock loop, archive
  a ticket, and handle one interaction. Each method is proved against the pure
  functions above.

`text.dfy` holds the string helpers: ASCII lower-casing, `join`, a splitter
that inverts it, substring search, and decimal rendering of ids.

In two places the source's own comments and command descriptions state an
intent that the code does not carry out. The model follows the code:

- The close button archives for anyone who presses it. The comments at
  src/index.js:359 and 362 speak of a staff-or-opener check, but that test in
  the handler has an empty body (`Flow.ArchivesIff`).
- `/close` is described as closing "this ticket" (src/index.js:64), but it
  checks only that the parent is a category whose lower-cased name contains
  `ticket` (`Flow.CloseCommandGuard`). So when the configured category has a
  name whose lower-cased form does not contain `ticket`, `/close` is refused
  inside every ticket; a category named `Support` is one example
  (`Flow.CloseRefusedUnderOtherName`). Tickets under a category that was found
  by name or created pass the check (`Bot.CloseWorksInNewTicket`).

Two further behaviours of the code are worth knowing, though no comment in
the source speaks to them:

- A control whose custom id is none of the bot's seven, or a support-select
  value other than `ingame` and `other`, gets no response at all; no failure
  notice is sent (`Flow.SilentIff`).
- The transcript has one line per message only when no line contains a newline.
  Message content may contain newlines (`Transcript.RenderLines`).

## Model

| member | source | states |
|---|---|---|
| `Text.Lower` | src/index.js:171 | lower-casing keeps the length and maps each ASCII upper-case letter to its lower-case letter, leaving every other character as it is |
| `Text.Join` | src/index.js:212 | `join`: no parts give the empty string; otherwise the result starts with the first part and its length is the parts' total length plus one separator between each neighbouring pair |
| `Text.JoinAppend` | src/index.js:208-212 | joining one more part appends the separator and that part; with the one-part case this fixes `join` on every list, for any separator |
| `Text.Decimal` | src/index.js:206 | an id renders as a non-empty string of decimal digits that denotes exactly that id |
| `Text.Contains` | src/index.js:279 | `includes`: a string can contain only a substring no longer than itself |
| `Text.ContainsIff` | src/index.js:279 | `includes` holds exactly when the substring occurs in the string at some index |
| `Text.SplitJoin` | src/index.js:212 | splitting lines that were joined with `\n` at `\n` gives the lines back, when no line contains a newline |
| `Naming.Strip` | src/index.js:171 | the result is never longer than the input and has only characters in `[a-z0-9-]` |
| `Naming.StripChar` | src/index.js:171 | one character is kept when it is in `[a-z0-9-]` and dropped otherwise |
| `Naming.StripAppend` | src/index.js:171 | stripping a concatenation strips each part; with `StripChar` this fixes the result on every string: the allowed characters, in order |
| `Naming.StripFixpoint` | src/index.js:171 | stripping leaves a string unchanged exactly when all of its characters are in `[a-z0-9-]` |
| `Naming.Sanitize` | src/index.js:171 | lower-casing then stripping gives only characters in `[a-z0-9-]` and never lengthens the name |
| `Naming.SanitizeIdempotent` | src/index.js:171 | sanitising a sanitised name changes nothing |
| `Naming.TicketChannelName` | src/index.js:171 | the channel name starts with `ticket-`, has only characters in `[a-z0-9-]`, and is `ticket-` followed by the sanitised username |
| `Naming.TicketNameStable` | src/index.js:171 | sanitising a ticket channel name again leaves it unchanged |
| `Naming.TicketNameExample` | src/index.js:171 | username `John_Doe!123` gives channel `ticket-johndoe123` |
| `Transcript.FetchRecent` | src/index.js:201 | the fetch returns the newest messages of the history, `min(n, 100)` of them |
| `Transcript.SortByTime` | src/index.js:202 | the sorted messages are in ascending `createdTimestamp` order and are a permutation of the fetched ones |
| `Transcript.SortIsStable` | src/index.js:202 | for every timestamp, the messages created at that time keep their fetched order |
| `Transcript.Content` | src/index.js:207 | the content is the clean content when there is one, and empty otherwise |
| `Transcript.AttachmentSuffix` | src/index.js:208 | the suffix is empty exactly when there are no attachments; otherwise it is ` [attachments: ` + urls joined by `, ` + `]` |
| `Transcript.Line` | src/index.js:204-210 | a line starts with `[`, then the timestamp, `] `, the author tag, ` (`, the author id, `): `, then the content and the attachment suffix |
| `Transcript.Lines` | src/index.js:204-210 | one line per message, in the same order |
| `Transcript.Render` | src/index.js:212 | the transcript is never empty, and reads `No messages.` when nothing was fetched |
| `Transcript.TranscriptFileName` | src/index.js:213 | the file name is the channel name followed by `-transcript.txt` |
| `Transcript.NoMessagesIff` | src/index.js:212 | the transcript reads `No messages.` if and only if no messages were fetched |
| `Transcript.RenderLines` | src/index.js:202-212 | with messages fetched and no newline inside a line, splitting the transcript at newlines gives exactly one line per message, in ascending timestamp order |
| `Transcript.EmptyTranscript` | src/index.js:212 | with nothing fetched the transcript is the single line `No messages.` |
| `Transcript.TranscriptBounded` | src/index.js:201-212 | every transcript renders at most 100 messages; when no line contains a newline it has at most 100 lines |
| `Channels.Lookup` | src/index.js:90 | the lookup finds a channel with the id if one exists, and reports none otherwise |
| `Channels.ConfiguredCategory` | src/index.js:89-92 | the configured id yields a channel only when it is set and names an existing category, and yields none exactly otherwise |
| `Channels.FindTicketsCategory` | src/index.js:94 | the result is the first category whose lower-cased name is `tickets`, or none when there is no such category |
| `Channels.Resolve` | src/index.js:88-95 | the configured id wins when it names an existing category; otherwise the first category, in cache order, whose lower-cased name is `tickets` is used; creation is chosen exactly when neither exists |
| `Channels.IsTextBased` | src/index.js:216 | every channel kind except category and forum is text-based: text, voice, announcement and stage channels |
| `Channels.NewCategory` | src/index.js:98-113 | the created category is a top-level `tickets` category that the name search finds, whose overwrites are exactly everyone denied View and allowed nothing, then the support role allowed View and denied nothing |
| `Channels.ResolveIdempotent` | src/index.js:88-114 | after resolution, resolving again returns the same category and creates nothing |
| `Channels.TicketOverwrites` | src/index.js:174-178 | everyone is denied View and allowed nothing; the support role and the opener are allowed exactly View, Send and ReadHistory and denied nothing |
| `Channels.TicketChannel` | src/index.js:170-179 | a new ticket is a text channel under the category, named `ticket-` plus the sanitised username (only `[a-z0-9-]`), carrying the three ticket overwrites |
| `Channels.DenySend` | src/index.js:228 | the edit denies Send, removes Send from the allowed bits, and leaves every other bit and the subject unchanged |
| `Channels.LockEntry` | src/index.js:227-228 | an overwrite of the support role, or one whose edit fails, is unchanged; any other gets Send denied with its other bits unchanged |
| `Channels.Locked` | src/index.js:225-230 | the lock keeps the number and order of the overwrites and applies the per-entry edit to each |
| `Channels.LockedEffect` | src/index.js:225-230 | after the lock, every overwrite except the support role's denies Send, unless its edit failed; the support role's overwrite, failed entries and all other bits are unchanged |
| `Channels.LockTwice` | src/index.js:225-230 | closing twice equals one close in which only the edits that failed both times fail |
| `Channels.LockIdempotent` | src/index.js:225-230 | once a close succeeded on every edit, closing again, even with failing edits, changes nothing |
| `Channels.ClosedTicketIsReadOnly` | src/index.js:225-230 | a fresh ticket closed without failures hides the channel from everyone, keeps View, Send and ReadHistory for support, and leaves the opener View and ReadHistory with Send denied |
| `Flow.ControlOf` | src/index.js:77-85 | the control parsed from a custom id carries that same id, and is unknown exactly when the id is none of the bot's seven |
| `Flow.ControlRoundTrip` | src/index.js:77-85 | parsing any control's custom id gives that control back, so a parsed control and its id determine each other |
| `Flow.CloseAllowed` | src/index.js:279 | the guard passes only for a parent that is a category whose name has at least the length of `ticket` |
| `Flow.RespondToControl` | src/index.js:290-367 | a control creates a ticket exactly for report yes or the `other` choice, archives exactly for the close button, gets a fresh reply exactly for Open Ticket, and gets no response exactly for a foreign id or a select without `ingame`/`other` |
| `Flow.Respond` | src/index.js:244-367 | only controls create tickets or update a prompt; a command gets no response exactly when it is none of the four; a command archives only as `/close` past the guard; a control archives exactly when it is the close button; any other interaction gets nothing |
| `Flow.StepResponses` | src/index.js:292-357 | Open Ticket gives an ephemeral reply with the FAQ yes/no row; FAQ yes shows the support-type select; `ingame` shows the report yes/no row; FAQ no and report no clear the controls; `other` and report yes create a ticket |
| `Flow.CreatesIff` | src/index.js:325-357 | a ticket is created if and only if the support select's value is `other` or the control is report yes |
| `Flow.ArchivesIff` | src/index.js:278-367 | archiving happens if and only if the close button is pressed, whoever presses it, or `/close` passes the guard |
| `Flow.CloseCommandGuard` | src/index.js:279-284 | `/close` outside a category whose lower-cased name contains `ticket` gets the ephemeral refusal and archives nothing; inside one it archives |
| `Flow.SilentIff` | src/index.js:290-368 | a control gets no response exactly when its custom id is none of the bot's, or it is the support select without an `ingame` or `other` choice |
| `Flow.AbortsClearControls` | src/index.js:304-351 | FAQ no and report no update the prompt with an empty control list and create nothing |
| `Flow.FlowsFollowTree` | src/index.js:292-357 | every path of controls from Open Ticket follows the decision tree: FAQ yes/no, then the support type, then report yes/no |
| `Flow.TreeIsFlow` | src/index.js:292-357 | every path of the decision tree can be taken through the controls the responses show |
| `Flow.CompleteIff` | src/index.js:292-357 | a path ends, leaving no controls, exactly after FAQ no, `other`, report no or report yes |
| `Flow.CreatesAtMostOnce` | src/index.js:325-357 | along any path a ticket is created at most once and only at its last step; a finished path creates one exactly when it ends with `other` or report yes, and otherwise ends on a cleared prompt |
| `Flow.CloseRowArchives` | src/index.js:181-183 | the close row posted in a new ticket offers only the close button, and pressing it archives |
| `Flow.CloseAllowedInTicketsCategory` | src/index.js:279 | a category whose lower-cased name is `tickets` passes the `/close` guard |
| `Flow.CloseRefusedUnderOtherName` | src/index.js:279 | `/close` under a category named `Support` is refused |
| `Bot.TranscriptFile` | src/index.js:212-213 | the file is named `<channel-name>-transcript.txt` and holds the rendered transcript, which is never empty and reads `No messages.` exactly when nothing was fetched |
| `Bot.ParentOf` | src/index.js:279 | the parent is a cached channel whose id is the channel's parent id; there is none exactly when the channel has no parent or the parent is not in the cache |
| `Bot.LogPosts` | src/index.js:215-221 | at most one log message; there is one exactly when the log channel exists and is text-based, and it goes to that channel with the ticket name, the closer and the transcript file |
| `Bot.NewTicketParent` | src/index.js:166-179 | the parent of a newly created ticket is the resolved tickets category |
| `Bot.CloseWorksInNewTicket` | src/index.js:279-283 | `/close` inside a newly created ticket archives when its category was found by name or created |
| `Bot.Guild.GetOrCreateTicketsCategory` | src/index.js:88-114 | returns the resolved category and appends exactly one new `Tickets` category only when resolution finds none |
| `Bot.Guild.CreateTicketChannel` | src/index.js:166-197 | appends the category if one had to be created, then the ticket channel, and posts one introduction that mentions the opener and the support role and carries the close row |
| `Bot.Guild.LockTicket` | src/index.js:224-230 | the loop leaves the channel's overwrites locked as `Channels.Locked` says, and changes no other channel |
| `Bot.Guild.PostToLog` | src/index.js:215-221 | appends exactly the log messages `LogPosts` gives: one when the log channel exists and is text-based, none otherwise |
| `Bot.Guild.ArchiveTicket` | src/index.js:199-233 | names the transcript file `<channel-name>-transcript.txt`, posts to the log only when the log channel exists and is text-based, locks the channel, and always posts the closing notice last |
| `Bot.Guild.Handle` | src/index.js:242-368 | answers as `Flow.Respond` says; creates a ticket (channels, id counter and introduction) only on a creating response and archives only on an archiving one, and otherwise changes nothing |

## Left out

- Client construction, gateway intents, login and slash-command registration are left out. They are connection plumbing.
- The start-up check of the environment variables and the process exit are left out. The configuration is the `Config` record, and the guild id is the `Guild.id` field.
- Embed, button and select-menu rendering (titles, descriptions, emojis, styles) is left out. Replies carry a `Screen` tag and control rows carry a `Row` tag.
- The texts of the `conprob` and `faq` replies, and the default connect link, are left out. Both commands are modelled only as tagged replies.
- `Date.toISOString` is the parameter `iso` of the transcript functions. It is treated as an unknown function of the timestamp.
- Lower-casing covers ASCII only. JavaScript's full Unicode `toLowerCase` is not modelled.
- The UTF-8 encoding of the transcript buffer is left out. The file holds the text as a string.
- Network calls are modelled by their effects on records. `messages.fetch` is `FetchRecent` over a history parameter. Every `channel.send` appends a `Post`. Permission edits update overwrites. Channel creation appends a channel whose id comes from `nextSnowflake`. Deferred replies, edited replies and follow-ups are not recorded; only their `Response` is.
- The platform's delivery order of fetched messages is not modelled. `FetchRecent` keeps history order, and the sort makes the order matter only among messages with equal timestamps.
- The catch-all error handler is left out. Failures of the fetch, of the log send or of the final send escape to that handler. Only the swallowed per-overwrite edit failures are modelled (`failing`).
- Concurrency is left out, including races between two category creations or two closes.
- `Bot.Guild.Handle`: requires the interaction's channel to be a channel of the guild. Interactions from channels outside the cache, where the handler would fail or `/close` would see no parent, are not modelled there. `Flow.Respond` alone covers the missing-parent case.
- `Transcript.RenderLines`: "one line per message" is proved only when no rendered line contains a newline. Message content may contain newlines.
- `Transcript.TranscriptBounded`: the bound of 100 lines is proved only when no rendered line contains a newline. Message content may contain newlines, and then the text has more lines than messages; the bound of 100 rendered messages holds for every history.
