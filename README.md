# discord-channel-transporter, modelled in Dafny

discord-channel-transporter is a one-shot bot script (`index.ts`). In its
`transport-channels` mode it copies every readable text channel of one Discord server
into a new, hidden category of another server. For each such channel it pages through
the history oldest first and replays every message as a bot post: an embed naming the
original author, the original embeds, and the re-uploaded attachments. In its
`danger-purge-all-channels` mode it deletes every channel of a server. Any other mode
is an error.

The project models that core in five modules:

- `wrappers.dfy` (`Wrappers`): `Option` and `Result`.
- `discord.dfy` (`Discord`): the platform as the script sees it.
  - A channel history is a sequence of messages with positive, strictly ascending ids.
  - `Fetch(h, after, limit)` is `messages.fetch({ limit, after })`. It returns the
    `limit` oldest messages newer than the cursor, newest first, as the platform's
    collection orders them.
  - Lemmas state the shape of a page and which messages it holds.
- `transcoder.dfy` (`Transcoder`): the payload built for one message (the author
  block, the spread of the original embeds, the files) and the download of the
  attachments.
- `channel_migrator.dfy` (`ChannelMigrator`): the per-channel work.
  - The `do … while (messageId)` pagination loop, as a method with an invariant.
  - The oldest-first walk over each page, as a method with a loop.
  - The per-message `try`/`catch`: every message ends as one `Sent` payload or one
    `Warning` that carries the message URL.
  - What a complete walk does is proved against functions of the history:
    `Paginated`, `ProgressLog`, `SentLog` and `WarningLog`.
- `transporter.dfy` (`Transporter`): the server-level part.
  - A `Guild` class, whose methods create, delete and post to channels.
  - The guild lookup by name.
  - The eligibility filter `viewable && type === GuildText`.
  - The transport mode: one category, then one text channel per eligible channel.
  - The purge mode.
  - The mode dispatch, with `INVALID_MODE: <mode>`.

The outside world is a parameter, `ChannelMigrator.Environment`:
- `responses` is the response, if any, that `fetch(url)` obtains for each attachment URL.
- `rejected` is the set of payloads the destination refuses.

Where the code and its description differ, the model follows the code:

- The loop stops only when a page comes back empty (`firstKey()` is `undefined`), not
  when a page is under-full. A complete walk over `n` messages therefore makes
  `(n + 99) / 100 + 1` requests; the last one is empty (`ChannelMigrator.Paginated`).
- The payload has no `content` field. The message text travels only as the author
  block's `description` (`Transcoder.Transcode`).
- `fetch(url)` does not reject a response that has an error status. Its body is
  uploaded as the file whatever the status: two sets of responses that differ only in
  their statuses give the same downloads (`Transcoder.StatusIgnored`). Only a URL that
  gets no response fails the message.
- The guild lookups use the `!` operator and have no not-found branch. A missing server
  makes the first property access on it throw.
  - The model reports this as `GuildNotFound`, before anything changes.
  - The destination is checked first, because `destServer.channels` is evaluated
    before `sourceServer.name` in the `create` call.

## Model

| member | source | states |
|---|---|---|
| Discord.Reversed | index.ts:36 | `messages.reverse()`: same length, and entry `i` of the result is entry `n-1-i` of the input |
| Discord.Fetch | index.ts:34 | a page request returns at most `limit` messages |
| Discord.FirstKey | index.ts:35 | `firstKey()` is absent exactly on an empty page, and otherwise is the id of the page's first entry |
| Discord.FetchNext | index.ts:34-35 | from a cursor that separates the `pos` messages already seen: the page, read oldest first, is exactly the next `min(100, n-pos)` messages; it is empty exactly when none are left; its first key is the newest of them |
| Discord.FetchOrder | index.ts:34-35 | a fetched page is newest first (ids strictly descending), so `firstKey()` is its newest message |
| Discord.FetchMembers | index.ts:34 | every message of a page belongs to the history and is newer than the cursor |
| Discord.FetchComplete | index.ts:34 | an under-full page holds every message newer than the cursor |
| Discord.AfterSplit | index.ts:34 | a cursor that separates the first `pos` messages leaves exactly the rest as newer |
| Discord.CursorSplits | index.ts:34-35 | both the initial cursor `0` and the id of the newest message seen so far separate the seen messages from the rest |
| Discord.AfterMembers | index.ts:34 | a message is newer than the cursor exactly when it is in the history with a larger id |
| Discord.AfterAscending | index.ts:34 | the messages newer than a cursor keep the history's ascending order |
| Transcoder.IconUrl | index.ts:50 | the icon is the author's avatar URL when there is one and the placeholder `https://cdn.discordapp.com/embed/avatars/1.png` otherwise |
| Transcoder.AuthorBlock | index.ts:48-55 | the author block names the username with its icon, has the content as description and the creation time as timestamp, and has no title, URL or fields |
| Transcoder.Transcode | index.ts:45-58 | the payload's files are the downloaded attachments, unchanged and in order; its embeds are the author block followed by the message's own embeds, `1 + n` of them; the block names the username, has the avatar or the placeholder URL as icon, the content as description and the creation time as timestamp, and has no title, URL or fields |
| Transcoder.TranscodeReadBack | index.ts:45-58 | the author, icon, content, creation time, original embeds and files can all be read back off the payload |
| Transcoder.Urls | index.ts:41-42 | one URL per attachment, in order |
| Transcoder.DownloadAll | index.ts:40-43 | succeeds exactly when every attachment URL gets a response; then it gives one body per attachment, in order; otherwise it names an attachment URL that got no response |
| Transcoder.StatusIgnored | index.ts:40-43 | the statuses of the responses never change a download: responses that reach the same URLs with the same bodies give the same result, success or failure |
| ChannelMigrator.Deliver | index.ts:38-61 | a message is sent exactly when its attachments download and the payload is accepted; the payload sent is the transcoded one; a failure yields a warning with the message's URL; the warning is an attachment failure exactly when the download failed, and a send rejection otherwise |
| ChannelMigrator.ProgressFor | index.ts:37 | the progress line gives the creation time, the destination channel's name, the author's username and the content |
| ChannelMigrator.ProgressLog | index.ts:37 | one progress line per attempted message |
| ChannelMigrator.LogsSplit | index.ts:36-61 | the sends and warnings of a run of messages are those of its parts, concatenated in order |
| ChannelMigrator.SendsSplit | index.ts:38-61 | recording the outcomes of two runs one after the other gives the sends and warnings of each, in order |
| ChannelMigrator.EveryOutcomeAccounted | index.ts:38-61 | every outcome is a send or a warning, never both and never neither |
| ChannelMigrator.EveryMessageAccounted | index.ts:38-61 | the sends plus the warnings number exactly the attempted messages |
| ChannelMigrator.LogsAppend | index.ts:36-61 | attempting one more message extends the logs by that message's outcome alone |
| ChannelMigrator.ProgressAppend | index.ts:37 | attempting one more message adds exactly its progress line |
| ChannelMigrator.FailureIsolated | index.ts:38-61 | a failing message sends nothing and adds exactly its own warning; the sends and warnings of the messages before and after it are unchanged |
| ChannelMigrator.SuccessRecorded | index.ts:38-61 | a succeeding message adds exactly its payload to the sends and nothing to the warnings; the messages around it are unaffected |
| ChannelMigrator.ChainedExtend | index.ts:34-35 | a request that uses the first key of the last non-empty page keeps the cursor chain |
| ChannelMigrator.RequestCount | index.ts:33-63 | full pages up to the last non-empty one, then one empty page, make `ceil(n/100) + 1` requests |
| ChannelMigrator.ReplayPage | index.ts:36-62 | walking one page oldest first hands on exactly its messages and extends the progress, send and warning logs to those of the messages handed on |
| ChannelMigrator.StartAfter | index.ts:34 | `messageId ?? '0'`: the cursor's key when it has one, and `0` otherwise |
| ChannelMigrator.WalkStep | index.ts:34-36 | one loop pass keeps the walk invariant: the messages handed on are a prefix of the history, the cursor is on the newest of them, one request per page, and the chain of cursors |
| ChannelMigrator.WalkOn | index.ts:34-36 | a pass with messages left fetches a non-empty page, hands on the next `min(100, n-pos)` messages and moves the cursor to the newest of them |
| ChannelMigrator.WalkEnd | index.ts:34-36 | a pass with no message left fetches an empty page and stops the walk |
| ChannelMigrator.WalkDone | index.ts:63 | a stopped walk has handed on the whole history, and its requests paginate it |
| ChannelMigrator.NextPage | index.ts:34-62 | one loop pass keeps the walk invariant and the logs, issues one request with the current cursor, and makes progress unless the page was empty |
| ChannelMigrator.MigrateChannel | index.ts:32-63 | the first request uses cursor 0; each later one uses the first key of the non-empty page before it; the requests number `ceil(n/100) + 1` and the last page is empty; every message is handed on exactly once, oldest first, and the logs are those of attempting the history in order |
| ChannelMigrator.CursorsAscending | index.ts:34-35 | the request cursors strictly increase |
| ChannelMigrator.EmptyChannel | index.ts:33-35 | an empty channel makes exactly one request, with cursor 0, and logs, sends and warns nothing |
| Transporter.Eligible | index.ts:29 | a channel passes the filter exactly when it is viewable and of type `GuildText` |
| Transporter.EligibleChannels | index.ts:29 | only viewable text channels are copied, at most as many as there are channels |
| Transporter.EligibleMembers | index.ts:29 | a channel is copied exactly when it is in the snapshot and is viewable and of type `GuildText` |
| Transporter.EligibleSplit | index.ts:28-29 | filtering a concatenation filters each part, keeping the order |
| Transporter.Without | index.ts:69 | after a delete, a channel remains exactly when it was there and has a different id |
| Transporter.WithoutAbsent | index.ts:69 | deleting an id no channel has changes nothing |
| Transporter.WithoutFirst | index.ts:69 | with distinct ids, deleting the first remaining channel removes it alone |
| Transporter.WithoutValid | index.ts:69 | a delete keeps the server's channels well formed |
| Transporter.WithoutDistinct | index.ts:69 | a delete keeps the channel ids distinct |
| Transporter.PostTo | index.ts:45 | sending appends the payloads to the `posted` list of the channels with that id, changes nothing else about them, and leaves every other channel as it was |
| Transporter.PostToLast | index.ts:45 | sending into the newest channel changes that channel alone |
| Transporter.Guild.CreateChannel | index.ts:19-25 | a create appends one new, empty channel with a fresh id and the given name, type, parent and overwrites, and keeps the server valid |
| Transporter.Guild.DeleteChannel | index.ts:69 | a delete removes the channels with that id, keeping the server valid |
| Transporter.Guild.Post | index.ts:45 | sending appends the payloads to the channel with that id and changes nothing else |
| Transporter.FindGuild | index.ts:16-17 | no result exactly when no server has that name; otherwise the first server with that name |
| Transporter.CategoryFor | index.ts:19-25 | the category is named after the source server, has no parent and no content, and denies `ViewChannel` to `@everyone` |
| Transporter.DestinationFor | index.ts:30 | the copy is a text channel with the source channel's name, parented to the category, with no overwrites, and holds exactly the payloads sent into it |
| Transporter.ReportedAt | index.ts:28-30 | the `k`-th report copies the `k`-th eligible channel into the `k`-th new id |
| Transporter.ReportedAppend | index.ts:28-30 | copying one more eligible channel into the next id keeps the reports one for one |
| Transporter.MigratedAppend | index.ts:30-63 | one more completely migrated channel keeps every report's migration complete |
| Transporter.CopiesExactlyEligible | index.ts:28-30 | every report copies a viewable text channel of the snapshot into a text channel of the same name under the category; every such channel has a report |
| Transporter.TransportChannel | index.ts:30-63 | one eligible channel gets one new text channel of its name under the category; its whole history is migrated; that channel holds exactly the payloads the migration sent |
| Transporter.CopyNext | index.ts:28-65 | one pass over the snapshot copies the channel if it passes the filter and skips it otherwise, keeping the reports and the server in step |
| Transporter.EligibleAppend | index.ts:29 | one more channel of the snapshot adds itself to the copied channels if it passes the filter, and nothing otherwise |
| Transporter.DestinationsAppend | index.ts:30 | one more report adds its destination channel at the end |
| Transporter.CopyAll | index.ts:28-65 | every channel of the snapshot that passes the filter is copied, in snapshot order, into consecutive new ids, and the server gains exactly those channels |
| Transporter.Transport | index.ts:19-65 | the destination gains one category named after the source server, hidden from `@everyone`, then one text channel per eligible channel (of the source as it stood once the category existed), in order, each parented to the category and holding what that channel's complete migration sent |
| Transporter.Purge | index.ts:67-70 | every cached channel is deleted, whatever its type; the ids deleted are those of the cache, in order |
| Transporter.Run | index.ts:14-73 | `transport-channels` and `danger-purge-all-channels` run their mode on the servers found by name; a missing server fails the run with nothing changed; any other mode fails with `INVALID_MODE: <mode>` and changes nothing; servers the mode does not touch stay unchanged |

## Left out

- Client construction, gateway intents, login, the `ready` wiring and `process.exit`
  (index.ts:4-13, 74-77) are process lifecycle. They are not modelled.
- Network access is a parameter. `Environment.responses` gives the response, if any,
  for each attachment URL. `Environment.rejected` gives the payloads a send refuses.
  A rejection therefore depends only on the payload.
- `Promise.all` concurrency is not modelled.
  - Channels are copied one after the other, in the order of the snapshot. Each has its
    own cursor, and they share nothing but the destination server.
  - Channel ids are handed out in that order. The real ids depend on the order in which
    the concurrent `create` calls complete.
  - The deletes of purge mode are issued one after the other, in cache order.
- Dates are not formatted. `new Date(ms).toISOString()` is the `Instant` wrapper around
  the creation time, and console lines are kept as `ProgressLine` and `Warning` values.
- The category's permission overwrite is kept as data, with no permission semantics.
- The platform assigns channel ids from a counter (`Guild.nextId`). Real snowflake ids
  are opaque.
- A sent payload is appended to the destination channel's `posted` list. It does not
  become a message with an id in that channel's history.
- `sourceServer.channels.fetch()` and `devServer.channels.cache` are both the server's
  channel list held by the `Guild` object.
- Failures the code does not catch are not modelled. These are a page fetch
  (index.ts:34), a channel create (index.ts:19-25, 30), the source channel list fetch
  (`sourceServer.channels.fetch()`, index.ts:26) or a channel delete
  (`devServer.channels.delete`, index.ts:69) that rejects, and an invalid date thrown by
  `toISOString` at index.ts:37. For the model all of these requests succeed.
- Transporter.Purge: its result, a server with no channels, holds only because every
  delete succeeds. The platform refuses to delete some channels, such as the rules and
  updates channels of a Community server, and the code would then stop with an
  uncaught rejection.
- ChannelMigrator.Deliver: the `attachmentUrl` of an `AttachmentFetchFailed` warning is
  an addition of the model. The code logs only the rejection `error` and the message URL
  (index.ts:60). When several attachments of a message fail, the model names the first
  in attachment order.
- A mode argument that is missing is not modelled. The code would report
  `INVALID_MODE: undefined`.
