# Team History Management — verified model of the history pipeline

This project is a Dafny model of the core of the Teams "history management" bot.
On request, the bot extracts a chat's, channel's or thread's message history from
Microsoft Graph, rebuilds the discussion threads, renders a report (HTML, PDF,
JSON or plain text) and uploads it to the requester's OneDrive. The model covers
these parts of the C# service, one Dafny module per source file:

- `TeamsHistoryService`: the paged crawler over Graph. Cursor chains are
  followed until a page fails, is empty, has no `@odata.nextLink`, or holds a
  message older than the `since` cutoff. Replies are fetched per root, and a
  chat and a channel are fetched differently.
- `GraphBaseService`: the request executor. It retries on 429 and 500..600
  while budget is left, waits the `Retry-After` delay, and logs and rethrows
  once it gives up.
- `OneDriveService`: the upload. A file of at most 4 MiB is one PUT; a larger
  one goes up in sequential 320×4 KiB chunks of an upload session, with one
  retry pass.
- `MSGraphClient`: maps a Graph drive item to the response record: its
  download URL, its `UniqueId` query value, and the ETag token.
- `MessageSorter`: rebuilds threads from the flat message list (roots,
  attached replies, partial threads for replies whose parent was not fetched,
  stable ordering).
- `TxtGenerator`: the plain-text report. `ReportGeneratorsProvider` selects
  the generator for the requested format.
- `HistoryReportService`: the report job. It sets the report window, builds
  the report body, names the file and sequences fetch → render → upload.
- Bot-side helpers:
  - `TeamsBotSettings` (`AppSettings` configuration parsing);
  - `TeamsBotModels` (`ReportParameters`);
  - the two label converters;
  - `MessageHelper` (the confirmation sentence);
  - `IntentStrings` and `SimpleRecognizer` (command recognition);
  - `IMessageActivityExtensions` (adding an @mention).

Shared modules:

- `Wrappers`: `Option`, `Result`.
- `DotNetText`: the .NET string operations the code relies on (`Trim`,
  `Split`, `Int32.TryParse`, case mapping).
- `Linq`: `Where`, stable `OrderBy`, `Max`, `Distinct`, `Count`, with their
  lemmas.
- `GraphModels`: the Graph entities.
- `ReportTypes`: the report enums and body details.

The model has the same shape as the code:

- Enums are `newtype`s over the Int32 range with named members, so undefined
  values (from casts or from `Enum.TryParse` of a numeral) can be represented.
- Timestamps are integers (ticks).
- The network is an oracle. A paged read gets a sequence of page responses
  (the k-th request gets the k-th page). The executor gets a sequence of
  attempts. An upload pass gets one result per chunk.
- Each I/O method returns what it requested, so request sequences, retries
  and stopping points are stated and proved.
- Loops are methods with invariants, each proved equal to a specification
  function. The properties are lemmas about those functions: the thread
  partition, the cursor chain, the retry shape, the chunk cover, and the
  parse/print round trips.
- Objects the code updates in place are classes with `modifies` clauses:
  `AppSettings`, `ReportParameters`, `DriveItemResponse`, and the activity and
  account in `AddMentionToText`.

The model follows these behaviours of the code as written:

- The threads are not always a strict partition of the input. A reply whose
  parent was fetched but is itself a reply is dropped, and so is a message
  that replies to itself (`MessageSorter.Dropped`,
  `MessageSorter.SelfReplyVanishes`). `MessageSorter.Partition` proves the
  partition under the condition that every reply to a fetched message replies
  to a root.
- The upload's second pass reuses the same upload session rather than
  creating a new one (`OneDriveService.Upload`).
- A reply whose `ReplyToId` is `""` is an orphan like any other reply whose
  parent is absent (`MessageSorter.OrphanPlacement`).
- A 600 status is retried as well as 5xx, because the test is `>= 500 && <= 600`
  (`GraphBaseService.IsRetryable`).
- A repeated response header reads as its values joined by `,`, so two
  `Retry-After` headers give the default delay (`GraphBaseService.RepeatedRetryAfter`).
- Configuration keys match ignoring case, and a later provider overrides an
  earlier one (`TeamsBotSettings.LookupMeaning`).
- A report stage that throws ends the report: a failed fetch, details or
  render stage uploads nothing, and a failed upload is the result
  (`HistoryReportService.PrepareReportInOneDrive`). The upload fails when the
  PUT, the session request or a chunk request throws, or when a second pass
  finds no item (`OneDriveService.UploadResultMeaning`).
- The channel data, its Team and its Channel are read without null checks, so
  a null one throws NullReferenceException, both when the request is filled in
  (`TeamsBotModels.ReportParameters.FillRestDetailsFromActivity`) and when the
  report body is built (`HistoryReportService.GetReportBodyDetails`).

## Model

| member | source | states |
|---|---|---|
| MessageSorter.ProcessMessages | Source/Microsoft.Teams.Apps.TeamHistoryManagement.ReportsGenerators/MessageSorter.cs:22-78 | The threads built step by step (seed, attach and remove children, append orphan groups, order) equal `Reconstruct`; the list is ascending by `LastMessageCreationTime` and every thread is well formed |
| MessageSorter.SeedThreads | Source/Microsoft.Teams.Apps.TeamHistoryManagement.ReportsGenerators/MessageSorter.cs:27-33 | One thread per root, in root order, holding just that root, full, with the root's time |
| MessageSorter.TakeReplies | Source/Microsoft.Teams.Apps.TeamHistoryManagement.ReportsGenerators/MessageSorter.cs:43-48 | Appending each matching child and calling `List.Remove` on it leaves the thread with its replies in input order and the children without them |
| MessageSorter.AttachChildren | Source/Microsoft.Teams.Apps.TeamHistoryManagement.ReportsGenerators/MessageSorter.cs:38-54 | Each seeded thread in turn takes the remaining children that reply to its first message, then is ordered; the result is `AttachReplies` |
| MessageSorter.AppendGroups | Source/Microsoft.Teams.Apps.TeamHistoryManagement.ReportsGenerators/MessageSorter.cs:57-73 | One partial thread per `GroupBy(ReplyToId)` group of orphan replies, in first-occurrence order, is appended |
| MessageSorter.ReconstructWellFormed | Source/Microsoft.Teams.Apps.TeamHistoryManagement.ReportsGenerators/MessageSorter.cs:51-52 | Every output thread is non-empty, ascending by creation time, and its `LastMessageCreationTime` is the maximum over its members |
| MessageSorter.ReconstructStable | Source/Microsoft.Teams.Apps.TeamHistoryManagement.ReportsGenerators/MessageSorter.cs:75 | The final ordering is stable: threads with equal `LastMessageCreationTime` keep their order, root threads first, then orphan groups |
| MessageSorter.Placement | Source/Microsoft.Teams.Apps.TeamHistoryManagement.ReportsGenerators/MessageSorter.cs:27-73 | The threads hold exactly the roots, the replies to roots and the replies whose parent was not fetched, each as often as in the input |
| MessageSorter.Partition | Source/Microsoft.Teams.Apps.TeamHistoryManagement.ReportsGenerators/MessageSorter.cs:36-57 | When every message has an Id and every reply to a fetched message replies to a root, the threads are a partition of the input (multiset equality) |
| MessageSorter.Dropped | Source/Microsoft.Teams.Apps.TeamHistoryManagement.ReportsGenerators/MessageSorter.cs:36-57 | A reply whose parent was fetched but is not a root is in no thread |
| MessageSorter.SelfReplyVanishes | Source/Microsoft.Teams.Apps.TeamHistoryManagement.ReportsGenerators/MessageSorter.cs:36-57 | A lone message that replies to itself yields no thread at all |
| MessageSorter.ThreadMembership | Source/Microsoft.Teams.Apps.TeamHistoryManagement.ReportsGenerators/MessageSorter.cs:28-73 | A full thread holds one root and replies to that root; a partial thread holds all the fetched replies to one parent that was not fetched, and nothing else |
| MessageSorter.FullThreadCount | Source/Microsoft.Teams.Apps.TeamHistoryManagement.ReportsGenerators/MessageSorter.cs:27-33 | There are exactly as many full threads as roots |
| MessageSorter.OrphanPlacement | Source/Microsoft.Teams.Apps.TeamHistoryManagement.ReportsGenerators/MessageSorter.cs:57-73 | A reply whose parent is not among the fetched Ids (a `ReplyToId` of "" included) is in a partial thread whose members all reply to that parent and which holds every fetched reply to it |
| MessageSorter.FullThreadReplies | Source/Microsoft.Teams.Apps.TeamHistoryManagement.ReportsGenerators/MessageSorter.cs:36-48 | Every member of a full thread is a root or replies to a fetched message |
| MessageSorter.RootFirst | Source/Microsoft.Teams.Apps.TeamHistoryManagement.ReportsGenerators/MessageSorter.cs:51 | A root stays first in its thread when none of its replies is older (stable ordering) |
| MessageSorter.RootThreadContents | Source/Microsoft.Teams.Apps.TeamHistoryManagement.ReportsGenerators/MessageSorter.cs:28-52 | A root's thread is full and holds the root and its replies, nothing else, with the newest time |
| MessageSorter.AttachDistinct | Source/Microsoft.Teams.Apps.TeamHistoryManagement.ReportsGenerators/MessageSorter.cs:40-48 | With distinct root Ids, the i-th root's thread holds that root and every child that replies to it |
| TeamsHistoryService.GetMessagesDetailsPaged | Source/Microsoft.Teams.Apps.TeamHistoryManagement.MSGraphProvider/Services/TeamsHistoryService.cs:133-169 | The do-while loop returns `PagedResult` and requests `PagedRequests`: pages up to the first stopping page, with messages filtered by the cutoff |
| TeamsHistoryService.ReadPage | Source/Microsoft.Teams.Apps.TeamHistoryManagement.MSGraphProvider/Services/TeamsHistoryService.cs:153-163 | One page keeps `Kept` (the messages at or after the cutoff, or all of them) and asks for the next page exactly when `WantsNext`: the page is not empty and holds no message before the cutoff |
| TeamsHistoryService.FirstStop | Source/Microsoft.Teams.Apps.TeamHistoryManagement.MSGraphProvider/Services/TeamsHistoryService.cs:166 | The last request is the first page that failed, is empty, has no `nextLink` or holds an older message; every page before it carries a cursor |
| TeamsHistoryService.PagedMember | Source/Microsoft.Teams.Apps.TeamHistoryManagement.MSGraphProvider/Services/TeamsHistoryService.cs:151-161 | A message is returned exactly when it is on a page read and, with a cutoff, is not older than the cutoff |
| TeamsHistoryService.PagedAtOrAfter | Source/Microsoft.Teams.Apps.TeamHistoryManagement.MSGraphProvider/Services/TeamsHistoryService.cs:151-155 | With a cutoff, every returned message was created at or after it |
| TeamsHistoryService.WantsNextMeaning | Source/Microsoft.Teams.Apps.TeamHistoryManagement.MSGraphProvider/Services/TeamsHistoryService.cs:154-159 | Another page is wanted exactly when the page is non-empty and, with a cutoff, holds no older message |
| TeamsHistoryService.PagedStopRule | Source/Microsoft.Teams.Apps.TeamHistoryManagement.MSGraphProvider/Services/TeamsHistoryService.cs:154-166 | Every page before the last one read succeeded, had a cursor and asked for more; the last one stops the walk |
| TeamsHistoryService.PagedRequestChain | Source/Microsoft.Teams.Apps.TeamHistoryManagement.MSGraphProvider/Services/TeamsHistoryService.cs:136-149 | At least one request is made, the first to the given URL, each later one to the previous page's `nextLink` verbatim |
| TeamsHistoryService.PagedNoCutoff | Source/Microsoft.Teams.Apps.TeamHistoryManagement.MSGraphProvider/Services/TeamsHistoryService.cs:157-161 | Without a cutoff, the result is every message of every page read, in page order |
| TeamsHistoryService.ExpandMessageRepliesPaged | Source/Microsoft.Teams.Apps.TeamHistoryManagement.MSGraphProvider/Services/TeamsHistoryService.cs:107-131 | Follows cursors until one is empty but returns an empty list whenever it does not throw |
| TeamsHistoryService.GetDromTeamsApi | Source/Microsoft.Teams.Apps.TeamHistoryManagement.MSGraphProvider/Services/TeamsHistoryService.cs:56-82 | The channel result is the roots (the named message, or the paged collection with the cutoff) followed by each root's replies, as `ChannelHistory` defines |
| TeamsHistoryService.ExpandReplies | Source/Microsoft.Teams.Apps.TeamHistoryManagement.MSGraphProvider/Services/TeamsHistoryService.cs:74-79 | For each root in order, its replies are read with no cutoff and appended |
| TeamsHistoryService.ReplyRunStep | Source/Microsoft.Teams.Apps.TeamHistoryManagement.MSGraphProvider/Services/TeamsHistoryService.cs:75-79 | One more root adds its reply pages' messages after the earlier roots' replies |
| TeamsHistoryService.ReplyRunFailureStays | Source/Microsoft.Teams.Apps.TeamHistoryManagement.MSGraphProvider/Services/TeamsHistoryService.cs:78 | Once a reply read throws, nothing more is requested and the exception is the result |
| TeamsHistoryService.ReplyRunMember | Source/Microsoft.Teams.Apps.TeamHistoryManagement.MSGraphProvider/Services/TeamsHistoryService.cs:78 | Replies are never cut off: a message is among the replies exactly when it is on a page read for one of the roots |
| TeamsHistoryService.GetFromChatsApi | Source/Microsoft.Teams.Apps.TeamHistoryManagement.MSGraphProvider/Services/TeamsHistoryService.cs:84-88 | A chat is one paged read of the chat's messages URL with the cutoff |
| TeamsHistoryService.GetConversationHistory | Source/Microsoft.Teams.Apps.TeamHistoryManagement.MSGraphProvider/Services/TeamsHistoryService.cs:39-54 | A future cutoff returns [] with no request; an empty team id reads the chat; otherwise the channel |
| TeamsHistoryService.ChannelFirstRequest | Source/Microsoft.Teams.Apps.TeamHistoryManagement.MSGraphProvider/Services/TeamsHistoryService.cs:59-70 | A channel read first requests the channel's messages collection (or the named message), never a chat URL |
| TeamsHistoryService.ChannelRootsFirst | Source/Microsoft.Teams.Apps.TeamHistoryManagement.MSGraphProvider/Services/TeamsHistoryService.cs:62-79 | The channel result starts with the roots; with a cutoff and no named message, every root is at or after it |
| GraphBaseService.RequestLoop | Source/Microsoft.Teams.Apps.TeamHistoryManagement.MSGraphProvider/Services/GraphBaseService.cs:36-69 | The retry loop's outcome, delays and try count equal `RunFrom`, and every try sends the same url, method, body and content type |
| GraphBaseService.HandleAttempt | Source/Microsoft.Teams.Apps.TeamHistoryManagement.MSGraphProvider/Services/GraphBaseService.cs:39-68 | A try is retried exactly when budget is left, it failed with 429 or a 5xx status and the delay is not negative; the delay is the Retry-After rule's value; any other try ends as `Stop`: the answer, the propagated exception, the rejected delay or the rethrown failure |
| GraphBaseService.RequestBaseAsync | Source/Microsoft.Teams.Apps.TeamHistoryManagement.MSGraphProvider/Services/GraphBaseService.cs:36-69 | The retry loop with `GetDelayMsec` as the delay rule |
| GraphBaseService.Get | Source/Microsoft.Teams.Apps.TeamHistoryManagement.MSGraphProvider/Services/GraphBaseService.cs:31-34 | A GET with the default budget of 8: between 1 and 9 tries, all identical |
| GraphBaseService.RunFrom | Source/Microsoft.Teams.Apps.TeamHistoryManagement.MSGraphProvider/Services/GraphBaseService.cs:36-57 | A run makes between 1 and budget + 1 tries and waits once per retry |
| GraphBaseService.RunShape | Source/Microsoft.Teams.Apps.TeamHistoryManagement.MSGraphProvider/Services/GraphBaseService.cs:47-57 | Every try but the last failed with 429 or 500..600 while budget was left and was followed by its Retry-After delay; the last try decides the outcome |
| GraphBaseService.StopMeaning | Source/Microsoft.Teams.Apps.TeamHistoryManagement.MSGraphProvider/Services/GraphBaseService.cs:41-67 | An answer is returned unchanged, another exception propagates, a WebException is rethrown unchanged exactly when it is not retryable or no budget is left, and a retryable one with budget left only ends the run when its delay is out of range for `Task.Delay` |
| GraphBaseService.NoResponseNotRetried | Source/Microsoft.Teams.Apps.TeamHistoryManagement.MSGraphProvider/Services/GraphBaseService.cs:46-52 | A failure without an HTTP response is not retried: one try, rethrown |
| GraphBaseService.BudgetSpent | Source/Microsoft.Teams.Apps.TeamHistoryManagement.MSGraphProvider/Services/GraphBaseService.cs:47-57 | On a sustained retryable failure exactly budget + 1 tries are made and the last failure is rethrown |
| GraphBaseService.HeaderJoins | Source/Microsoft.Teams.Apps.TeamHistoryManagement.MSGraphProvider/Services/GraphBaseService.cs:54 | The header read is the `,`-join of the values of every header with that name, in order, and null when there is none |
| GraphBaseService.HeaderFound | Source/Microsoft.Teams.Apps.TeamHistoryManagement.MSGraphProvider/Services/GraphBaseService.cs:54 | A header is found exactly when some header has that name ignoring case; a single such header gives its own value, several give their values joined by `,` |
| GraphBaseService.HeaderValuesMeaning | Source/Microsoft.Teams.Apps.TeamHistoryManagement.MSGraphProvider/Services/GraphBaseService.cs:54 | The joined values are exactly those of the headers with that name, ignoring case |
| GraphBaseService.RepeatedRetryAfter | Source/Microsoft.Teams.Apps.TeamHistoryManagement.MSGraphProvider/Services/GraphBaseService.cs:54-55 | Two or more `Retry-After` headers read as one comma-joined text, which `int.TryParse` rejects, so the delay is the default 3000 ms |
| DotNetText.TryParseRejects | Source/Microsoft.Teams.Apps.TeamHistoryManagement.MSGraphProvider/Services/GraphBaseService.cs:74 | A character that is not white space, a digit or a sign makes `int.TryParse` fail wherever it stands |
| GraphBaseService.DelayFromSeconds | Source/Microsoft.Teams.Apps.TeamHistoryManagement.MSGraphProvider/Services/GraphBaseService.cs:71-80 | A Retry-After of n seconds waits n*1000 ms |
| GraphBaseService.DelayWithoutHeader | Source/Microsoft.Teams.Apps.TeamHistoryManagement.MSGraphProvider/Services/GraphBaseService.cs:73 | No Retry-After header waits 3000 ms |
| GraphBaseService.DelayFromHttpDate | Source/Microsoft.Teams.Apps.TeamHistoryManagement.MSGraphProvider/Services/GraphBaseService.cs:74 | A Retry-After holding a letter (the HTTP-date form) falls back to 3000 ms |
| GraphBaseService.DelayNeverInfinite | Source/Microsoft.Teams.Apps.TeamHistoryManagement.MSGraphProvider/Services/GraphBaseService.cs:56-76 | The delay is always even, so never -1 (an infinite wait) |
| GraphBaseService.GiveUp | Source/Microsoft.Teams.Apps.TeamHistoryManagement.MSGraphProvider/Services/GraphBaseService.cs:61-67 | Giving up logs and rethrows the original WebException; it agrees with the code as written whenever a response exists |
| GraphBaseService.NoResponseAsWritten | Source/Microsoft.Teams.Apps.TeamHistoryManagement.MSGraphProvider/Services/GraphBaseService.cs:61 | As written, a WebException without a response ends in a NullReferenceException (see Findings) |
| OneDriveService.ChunkRangesCover | Source/Microsoft.Teams.Apps.TeamHistoryManagement.MSGraphProvider/Services/OneDriveService.cs:63-65 | The chunk ranges cover the bytes from the offset to the end in order, without gaps or overlaps, none longer than the chunk size (320*4*1024 in the service) |
| OneDriveService.LastSucceededMeaning | Source/Microsoft.Teams.Apps.TeamHistoryManagement.MSGraphProvider/Services/OneDriveService.cs:72-80 | The kept item is that of the last chunk whose upload succeeded; there is one exactly when some chunk succeeded |
| OneDriveService.ChunkRequests | Source/Microsoft.Teams.Apps.TeamHistoryManagement.MSGraphProvider/Services/OneDriveService.cs:64-65 | One chunk request per range, in order, all on the same session |
| OneDriveService.UploadPass | Source/Microsoft.Teams.Apps.TeamHistoryManagement.MSGraphProvider/Services/OneDriveService.cs:66-80 | The chunk requests are sent in order; a recorded error does not stop the pass, and the first request that throws is the last one sent and ends the pass with its exception; otherwise the item of the last success is kept; the errors recorded before any throw are collected |
| OneDriveService.Upload | Source/Microsoft.Teams.Apps.TeamHistoryManagement.MSGraphProvider/Services/OneDriveService.cs:61-96 | A chunk request that throws ends the upload with its exception, in either pass; a pass with an item returns its last one; a first pass with neither runs exactly once more over the same session; a second pass with no item fails with "Can't upload file into onedrive" |
| OneDriveService.UploadThroughSession | Source/Microsoft.Teams.Apps.TeamHistoryManagement.MSGraphProvider/Services/OneDriveService.cs:29-32 | A failed session request is the result and the only request sent; otherwise the chunked upload over the returned session; the result and requests are `UploadResult` and `UploadRequests` |
| OneDriveService.UploadResultMeaning | Source/Microsoft.Teams.Apps.TeamHistoryManagement.MSGraphProvider/Services/OneDriveService.cs:27-96 | An upload ends in an item exactly when no request threw and a pass found one; a failure is the exception of the PUT, of the session request or of the first chunk request that threw, or the message after a second pass without an item; every request after the session request is a chunk of the returned session |
| OneDriveService.UploadTo | Source/Microsoft.Teams.Apps.TeamHistoryManagement.MSGraphProvider/Services/OneDriveService.cs:18-37 | At most 4 MiB is one PUT whose item or exception is the result; larger sends the session request, whose exception ends the upload, then only chunks of the returned session; the first chunk request that throws ends it with its exception; otherwise it succeeds exactly when a pass found an item and fails with "Can't upload file into onedrive" |
| OneDriveService.UploadToPersonalOneDrive | Source/Microsoft.Teams.Apps.TeamHistoryManagement.MSGraphProvider/Services/OneDriveService.cs:27-38 | Into the personal drive: one PUT up to 4 MiB, its item or exception the result; above, the session request and its exception, then only chunk requests of that session, ending at the first that throws; success exactly when no request threw and a pass found an item; the result and requests are `UploadResult` and `UploadRequests` |
| OneDriveService.UploadToChannelFolder | Source/Microsoft.Teams.Apps.TeamHistoryManagement.MSGraphProvider/Services/OneDriveService.cs:48-59 | Into the group's drive: the same size rule, the PUT, session and chunk exceptions, success condition, failure message, result and requests as the personal drive |
| MSGraphClient.DriveItemResponse.constructor | Source/Microsoft.Teams.Apps.TeamHistoryManagement.MSGraphProvider/MSGraphClient.cs:166-179 | A new response has every property null |
| MSGraphClient.MapResult | Source/Microsoft.Teams.Apps.TeamHistoryManagement.MSGraphProvider/MSGraphClient.cs:127-164 | Id, ContentUrl and MimeType are copied; with a download URL, UniqueId is its URL-decoded query value or "" and DownloadUrl is its path part plus `?UniqueId=` and that value; otherwise UniqueId is the ETag token and DownloadUrl stays null |
| MSGraphClient.UploadFileInPersonalOneDrive | Source/Microsoft.Teams.Apps.TeamHistoryManagement.MSGraphProvider/MSGraphClient.cs:73-79 | The OneDrive upload into the personal drive; its failure is the result, and the item it returns is mapped as `MapResult` maps it |
| MSGraphClient.UploadFileInTeamDrive | Source/Microsoft.Teams.Apps.TeamHistoryManagement.MSGraphProvider/MSGraphClient.cs:82-88 | The same into the team's group drive |
| MSGraphClient.DownloadUrlOf | Source/Microsoft.Teams.Apps.TeamHistoryManagement.MSGraphProvider/MSGraphClient.cs:135-144 | `@microsoft.graph.downloadUrl` wins over `@content.downloadUrl`; neither gives "" |
| MSGraphClient.UniqueIdFromETag | Source/Microsoft.Teams.Apps.TeamHistoryManagement.MSGraphProvider/MSGraphClient.cs:155-160 | The braces-stripped first match of `{[a-zA-Z0-9-]+}`, or nothing |
| MSGraphClient.ETagTokenMeaning | Source/Microsoft.Teams.Apps.TeamHistoryManagement.MSGraphProvider/MSGraphClient.cs:155-159 | The token is the inner text of the leftmost match; there is none exactly when nothing matches |
| MSGraphClient.TokenFromLeftmost | Source/Microsoft.Teams.Apps.TeamHistoryManagement.MSGraphProvider/MSGraphClient.cs:156-157 | The search finds the leftmost match at or after a position, and nothing exactly when there is none |
| MSGraphClient.StripBraces | Source/Microsoft.Teams.Apps.TeamHistoryManagement.MSGraphProvider/MSGraphClient.cs:159 | Removing `{` and `}` from a match `{t}` leaves t |
| MSGraphClient.UrlParts | Source/Microsoft.Teams.Apps.TeamHistoryManagement.MSGraphProvider/MSGraphClient.cs:148-151 | The URL's left part, as split here, has no query or fragment and is a prefix of the URL; the part before the fragment is the left part, `?` and the query |
| MSGraphClient.ValuesOfPresent | Source/Microsoft.Teams.Apps.TeamHistoryManagement.MSGraphProvider/MSGraphClient.cs:149-150 | A query value is found exactly when some piece's URL-decoded name equals the key, ignoring case |
| MSGraphClient.DecodeClean | Source/Microsoft.Teams.Apps.TeamHistoryManagement.MSGraphProvider/MSGraphClient.cs:149-150 | URL decoding leaves text without `%` and `+` unchanged |
| MSGraphClient.DecodePlus | Source/Microsoft.Teams.Apps.TeamHistoryManagement.MSGraphProvider/MSGraphClient.cs:149-150 | Without `%`, URL decoding turns every `+` into a space and changes nothing else |
| MSGraphClient.SinglePair | Source/Microsoft.Teams.Apps.TeamHistoryManagement.MSGraphProvider/MSGraphClient.cs:149-150 | A one-pair query gives back its value, URL-decoded |
| MSGraphClient.DownloadUrlReparse | Source/Microsoft.Teams.Apps.TeamHistoryManagement.MSGraphProvider/MSGraphClient.cs:151 | The built DownloadUrl has the same path part and its query is exactly `UniqueId=` and the value, which parses back to the value when it holds none of `&`, `#`, `%`, `+` (the value is not encoded again) |
| HistoryReportService.GetMessagesHistory | Source/Microsoft.Teams.Apps.TeamHistoryManagement.TeamsBot/Services/HistoryReportService.cs:67-93 | Till := now; Since goes back 1 day for LastDay and 7 for Last7Days, else unchanged; the result is the history fetched with those parameters, or the exception the fetch throws |
| HistoryReportService.ChannelNameIn | Source/Microsoft.Teams.Apps.TeamHistoryManagement.TeamsBot/Services/HistoryReportService.cs:130 | `FirstOrDefault` finds the first channel of that id, or none |
| HistoryReportService.GetReportBodyDetails | Source/Microsoft.Teams.Apps.TeamHistoryManagement.TeamsBot/Services/HistoryReportService.cs:95-150 | In a channel conversation a null channel data, Team or Channel throws NullReferenceException, and nothing else throws; otherwise each scope flag is set exactly for its report type; messages, window and author are copied; outside a channel conversation there is no team or channel name; inside one a channel id always yields a channel name, the General title is used when the channel is the team, and the team name and id come from the team lookup (the team id itself when the lookup throws, none when it finds no team) |
| HistoryReportService.ScopeFlagsExclusive | Source/Microsoft.Teams.Apps.TeamHistoryManagement.TeamsBot/Services/HistoryReportService.cs:99-101 | When the details are built, each of the three report types sets exactly one scope flag and any other value none |
| HistoryReportService.GenerateReportByteArray | Source/Microsoft.Teams.Apps.TeamHistoryManagement.TeamsBot/Services/HistoryReportService.cs:152-165 | Images are downloaded exactly for HTML and PDF; the document is the provider's |
| HistoryReportService.FolderPrefix | Source/Microsoft.Teams.Apps.TeamHistoryManagement.TeamsBot/Services/HistoryReportService.cs:170 | The folder prefix is "" exactly when no folder is configured, and otherwise ends in `/` |
| HistoryReportService.UploadReport | Source/Microsoft.Teams.Apps.TeamHistoryManagement.TeamsBot/Services/HistoryReportService.cs:167-215 | The upload path is the folder prefix plus stamp + `_history_report` + the format's extension; the upload's failure is the result; otherwise the mapped file, with `FileName` set to the name without the folder |
| HistoryReportService.FileNamesDistinct | Source/Microsoft.Teams.Apps.TeamHistoryManagement.TeamsBot/Services/HistoryReportService.cs:174-199 | Different formats give different file names |
| HistoryReportService.FetchDetails | Source/Microsoft.Teams.Apps.TeamHistoryManagement.TeamsBot/Services/HistoryReportService.cs:60-61 | The details stage sees the window the fetch stage set; the exception of a failed fetch or details stage is the result |
| HistoryReportService.FetchAndRender | Source/Microsoft.Teams.Apps.TeamHistoryManagement.TeamsBot/Services/HistoryReportService.cs:60-62 | Fetch, details and render run in that order and stop after the first that throws; the outcome is `ReportDocument` |
| HistoryReportService.PrepareReportInOneDrive | Source/Microsoft.Teams.Apps.TeamHistoryManagement.TeamsBot/Services/HistoryReportService.cs:58-65 | A failed fetch runs no other stage, failed details no render, a failed render no upload; each ends with its exception and nothing uploaded; otherwise the rendered document is uploaded under its file name, and the upload's exception or the named, mapped file is the result |
| HistoryReportService.ConcludeReport | Source/Microsoft.Teams.Apps.TeamHistoryManagement.TeamsBot/Services/HistoryReportService.cs:62-64 | After the render: the exception of a failed stage, or the upload of the document, whose failure or named file is the result |
| TeamsBotSettings.AppSettings.constructor | Source/Microsoft.Teams.Apps.TeamHistoryManagement.TeamsBot/AppSettings.cs:22-26 | Every setting is what `ParseConfig` derives from the configuration |
| TeamsBotSettings.AppSettings.ParseConfig | Source/Microsoft.Teams.Apps.TeamHistoryManagement.TeamsBot/AppSettings.cs:50-65 | Every setting is derived from the configuration: strings or their defaults, the normalised base URL, the BlobStorage connection string, the parsed flag, timeout (default 300) and format list (default `[TXT]`) |
| TeamsBotSettings.AppSettings.ParseStrings | Source/Microsoft.Teams.Apps.TeamHistoryManagement.TeamsBot/AppSettings.cs:52-57 | Each string setting is the configured value or its default ("", or `botstatestorage` for the container) |
| TeamsBotSettings.AppSettings.ParseUrls | Source/Microsoft.Teams.Apps.TeamHistoryManagement.TeamsBot/AppSettings.cs:58-59 | The base URL is the configured value normalised by `NormalizeBaseUrl` (null stays null), and the connection string is the `ConnectionStrings:BlobStorage` value; the string settings are left as they are |
| TeamsBotSettings.AppSettings.ParseSwitches | Source/Microsoft.Teams.Apps.TeamHistoryManagement.TeamsBot/AppSettings.cs:60-63 | `UseCardUpdating` is `ParseBool` with default false and `SignInTimeout` is `ParseInt` with default 300; the settings read before are left as they are |
| TeamsBotSettings.AppSettings.ParseFormats | Source/Microsoft.Teams.Apps.TeamHistoryManagement.TeamsBot/AppSettings.cs:64 | The format list is `ReportFormats` of the `ReportFileFormats` value with `[TXT]` as the default; every other setting is left as it is |
| TeamsBotSettings.EnumNames | Source/Microsoft.Teams.Apps.TeamHistoryManagement.TeamsBot/AppSettings.cs:100 | `Enum.TryParse` reads each member's name back as that member |
| TeamsBotSettings.LookupMeaning | Source/Microsoft.Teams.Apps.TeamHistoryManagement.TeamsBot/AppSettings.cs:52-57 | A key reads as null exactly when no key matches it ignoring case, else as the value of the last matching pair |
| TeamsBotSettings.LookupIgnoresCase | Source/Microsoft.Teams.Apps.TeamHistoryManagement.TeamsBot/AppSettings.cs:52-57 | Keys that differ only in letter case read the same value |
| TeamsBotSettings.ParseBool | Source/Microsoft.Teams.Apps.TeamHistoryManagement.TeamsBot/AppSettings.cs:67-78 | A missing or blank value gives the default |
| TeamsBotSettings.ParseBoolMeaning | Source/Microsoft.Teams.Apps.TeamHistoryManagement.TeamsBot/AppSettings.cs:67-78 | For a value that is not blank the default plays no part, and the result is true exactly when the lower-cased, trimmed value is "true", "yes" or "1" |
| TeamsBotSettings.ParseBoolPadded | Source/Microsoft.Teams.Apps.TeamHistoryManagement.TeamsBot/AppSettings.cs:69-77 | " Yes " reads as true: surrounding white space and letter case do not matter |
| TeamsBotSettings.ParseBoolOther | Source/Microsoft.Teams.Apps.TeamHistoryManagement.TeamsBot/AppSettings.cs:69-77 | "no" reads as false even with the default true |
| TeamsBotSettings.ParseBoolIgnoresCase | Source/Microsoft.Teams.Apps.TeamHistoryManagement.TeamsBot/AppSettings.cs:69 | The result does not depend on letter case |
| TeamsBotSettings.TrimToEmpty | Source/Microsoft.Teams.Apps.TeamHistoryManagement.TeamsBot/AppSettings.cs:69-70 | Trimming empties a string exactly when it is all white space |
| TeamsBotSettings.ParseInt | Source/Microsoft.Teams.Apps.TeamHistoryManagement.TeamsBot/AppSettings.cs:80-89 | A blank value gives the default; any other result is an Int32 |
| TeamsBotSettings.ParseIntRoundTrip | Source/Microsoft.Teams.Apps.TeamHistoryManagement.TeamsBot/AppSettings.cs:82-85 | Every Int32 written in decimal reads back |
| TeamsBotSettings.EnumNumerals | Source/Microsoft.Teams.Apps.TeamHistoryManagement.TeamsBot/AppSettings.cs:100 | `Enum.TryParse` reads any Int32 numeral as that enum value, named or not |
| TeamsBotSettings.FormatsOfMembers | Source/Microsoft.Teams.Apps.TeamHistoryManagement.TeamsBot/AppSettings.cs:98-104 | Every format read comes from a piece, and every parsable piece contributes its format |
| TeamsBotSettings.FormatsOfConcat | Source/Microsoft.Teams.Apps.TeamHistoryManagement.TeamsBot/AppSettings.cs:98-104 | Pieces are read one by one, in order |
| TeamsBotSettings.ReportFormats | Source/Microsoft.Teams.Apps.TeamHistoryManagement.TeamsBot/AppSettings.cs:91-108 | A missing or blank value gives the one-element default list (`[TXT]` in `ParseConfig`) |
| TeamsBotSettings.ParseReportFormats | Source/Microsoft.Teams.Apps.TeamHistoryManagement.TeamsBot/AppSettings.cs:91-109 | The method returns `ReportFormats`: uppercase, split on `;`, drop empty pieces, trim, keep the parsable ones |
| TeamsBotSettings.ParsePieces | Source/Microsoft.Teams.Apps.TeamHistoryManagement.TeamsBot/AppSettings.cs:97-104 | The `ForEach` adds each parsable piece's format, in order |
| TeamsBotSettings.ReportFormatsRoundTrip | Source/Microsoft.Teams.Apps.TeamHistoryManagement.TeamsBot/AppSettings.cs:93-105 | A `;`-joined list of format names reads back as exactly those formats, order and duplicates kept |
| TeamsBotSettings.ReportFormatsIgnoreCase | Source/Microsoft.Teams.Apps.TeamHistoryManagement.TeamsBot/AppSettings.cs:93 | The list's letters may be written in either case |
| TeamsBotSettings.NormalizeBaseUrlMeaning | Source/Microsoft.Teams.Apps.TeamHistoryManagement.TeamsBot/AppSettings.cs:58 | Null stays null; otherwise the result is the lowercased start of the value, only white space and `/` were cut, and it neither ends in `/` nor holds an upper-case letter |
| ReportFileFormatConverter.GetReportFormat | Source/Microsoft.Teams.Apps.TeamHistoryManagement.TeamsBot/Strings/Converters/ReportFileFormatConverter.cs:11-28 | The four members get a label, any other value null |
| ReportFileFormatConverter.TryParse | Source/Microsoft.Teams.Apps.TeamHistoryManagement.TeamsBot/Strings/Converters/ReportFileFormatConverter.cs:30-58 | True exactly when the (null as "") string is one of the labels, and then it is the label of the result; otherwise TXT |
| ReportFileFormatConverter.LabelRoundTrip | Source/Microsoft.Teams.Apps.TeamHistoryManagement.TeamsBot/Strings/Converters/ReportFileFormatConverter.cs:11-58 | With distinct labels, parsing a format's label gives `(true, format)` |
| ReportFileFormatConverter.ParseRoundTrip | Source/Microsoft.Teams.Apps.TeamHistoryManagement.TeamsBot/Strings/Converters/ReportFileFormatConverter.cs:36-51 | A parsed string is the label of its format |
| ReportFileFormatConverter.FirstLabelWins | Source/Microsoft.Teams.Apps.TeamHistoryManagement.TeamsBot/Strings/Converters/ReportFileFormatConverter.cs:36-51 | Labels are compared in the order HTML, PDF, JSON, TXT |
| ReportFileFormatConverter.NullIsEmpty | Source/Microsoft.Teams.Apps.TeamHistoryManagement.TeamsBot/Strings/Converters/ReportFileFormatConverter.cs:33 | null parses as "" |
| ReportPeriodConverter.GetReportPeriod | Source/Microsoft.Teams.Apps.TeamHistoryManagement.TeamsBot/Strings/Converters/ReportPeriodConverter.cs:11-26 | The three members get a label, any other value null |
| ReportPeriodConverter.TryParse | Source/Microsoft.Teams.Apps.TeamHistoryManagement.TeamsBot/Strings/Converters/ReportPeriodConverter.cs:28-52 | True exactly when the (null as "") string is one of the labels, and then it is the label of the result; otherwise LastDay |
| ReportPeriodConverter.LabelRoundTrip | Source/Microsoft.Teams.Apps.TeamHistoryManagement.TeamsBot/Strings/Converters/ReportPeriodConverter.cs:11-52 | With distinct labels, parsing a period's label gives `(true, period)` |
| ReportPeriodConverter.ParseRoundTrip | Source/Microsoft.Teams.Apps.TeamHistoryManagement.TeamsBot/Strings/Converters/ReportPeriodConverter.cs:34-45 | A parsed string is the label of its period |
| ReportPeriodConverter.FirstLabelWins | Source/Microsoft.Teams.Apps.TeamHistoryManagement.TeamsBot/Strings/Converters/ReportPeriodConverter.cs:34-45 | Labels are compared in the order AllTime, Last7Days, LastDay |
| ReportPeriodConverter.NullIsEmpty | Source/Microsoft.Teams.Apps.TeamHistoryManagement.TeamsBot/Strings/Converters/ReportPeriodConverter.cs:32 | null parses as "" |
| MessageHelper.BuildUserExportedHistoryMessage | Source/Microsoft.Teams.Apps.TeamHistoryManagement.TeamsBot/Helpers/MessageHelper.cs:59 | The sentence is the sender's name and " extracted ", then the period phrase, " from ", the scope phrase, " into ", the format phrase and " to their personal OneDrive.", each at the position right after the one before |
| MessageHelper.PhrasesRoundTrip | Source/Microsoft.Teams.Apps.TeamHistoryManagement.TeamsBot/Helpers/MessageHelper.cs:14-57 | Each member has its own non-empty phrase, which names it back; other values get "" |
| MessageHelper.ScopeByLength | Source/Microsoft.Teams.Apps.TeamHistoryManagement.TeamsBot/Helpers/MessageHelper.cs:28-40 | The three scope phrases have different lengths |
| MessageHelper.PeriodByLength | Source/Microsoft.Teams.Apps.TeamHistoryManagement.TeamsBot/Helpers/MessageHelper.cs:14-26 | The three period phrases have different lengths |
| MessageHelper.SentenceDeterminesReport | Source/Microsoft.Teams.Apps.TeamHistoryManagement.TeamsBot/Helpers/MessageHelper.cs:59 | For one sender, the sentence determines the report's period, scope and format |
| MessageHelper.TailDetermines | Source/Microsoft.Teams.Apps.TeamHistoryManagement.TeamsBot/Helpers/MessageHelper.cs:59 | The sentence after " extracted " determines period, scope and format |
| IntentStrings.AllLayout | Source/Microsoft.Teams.Apps.TeamHistoryManagement.TeamsBot/Common/IntentStrings.cs:35-44 | `All` is the 4 help, then 2 logout, then 3 cancel commands |
| IntentStrings.CategoriesDisjoint | Source/Microsoft.Teams.Apps.TeamHistoryManagement.TeamsBot/Common/IntentStrings.cs:14-33 | No command is in two lists |
| IntentStrings.AllDistinct | Source/Microsoft.Teams.Apps.TeamHistoryManagement.TeamsBot/Common/IntentStrings.cs:14-44 | `All` holds no command twice |
| SimpleRecognizer.RecognizeInternal | Source/Microsoft.Teams.Apps.TeamHistoryManagement.TeamsBot/Dialogs/Recognizers/SimpleRecognizer.cs:60-96 | The method returns `Recognition`: blank text gives the empty result, else the first matching command |
| SimpleRecognizer.FindFirstMatch | Source/Microsoft.Teams.Apps.TeamHistoryManagement.TeamsBot/Dialogs/Recognizers/SimpleRecognizer.cs:76-92 | The loop finds the first command that matches |
| SimpleRecognizer.FirstMatch | Source/Microsoft.Teams.Apps.TeamHistoryManagement.TeamsBot/Dialogs/Recognizers/SimpleRecognizer.cs:76-82 | The index returned matches and none before it does; none means no command matches |
| SimpleRecognizer.RecognitionMeaning | Source/Microsoft.Teams.Apps.TeamHistoryManagement.TeamsBot/Dialogs/Recognizers/SimpleRecognizer.cs:64-94 | The result is the empty result (`None`, 1.0) or the input text with exactly one matching intent scored 1.0 |
| SimpleRecognizer.AllLiteral | Source/Microsoft.Teams.Apps.TeamHistoryManagement.TeamsBot/Common/IntentStrings.cs:14-33 | Every command is a literal pattern; `\?` stands for `?` |
| SimpleRecognizer.AllIs | Source/Microsoft.Teams.Apps.TeamHistoryManagement.TeamsBot/Common/IntentStrings.cs:14-44 | The nine commands in the order the recognizer tries them |
| SimpleRecognizer.FirstMatchIsFirst | Source/Microsoft.Teams.Apps.TeamHistoryManagement.TeamsBot/Dialogs/Recognizers/SimpleRecognizer.cs:76-82 | A command that matches with none before it is the one found |
| SimpleRecognizer.Distinguished | Source/Microsoft.Teams.Apps.TeamHistoryManagement.TeamsBot/Common/IntentStrings.cs:14-33 | Any two commands differ in length by more than one or in their first letter ignoring case |
| SimpleRecognizer.RecognitionOfMatch | Source/Microsoft.Teams.Apps.TeamHistoryManagement.TeamsBot/Dialogs/Recognizers/SimpleRecognizer.cs:80-86 | A non-blank text whose first match is command i gives the text with intent i scored 1.0 |
| SimpleRecognizer.MatchUnique | Source/Microsoft.Teams.Apps.TeamHistoryManagement.TeamsBot/Dialogs/Recognizers/SimpleRecognizer.cs:76-82 | No text matches two commands, so the order of `All` never changes the intent |
| SimpleRecognizer.QuestionMarkIsHelp | Source/Microsoft.Teams.Apps.TeamHistoryManagement.TeamsBot/Common/IntentStrings.cs:19 | `?` is recognised as the help command |
| SimpleRecognizer.FinalNewlineAccepted | Source/Microsoft.Teams.Apps.TeamHistoryManagement.TeamsBot/Dialogs/Recognizers/SimpleRecognizer.cs:78 | `$` accepts one final newline: `HELP\n` is Help |
| SimpleRecognizer.LeadingSpaceNotTrimmed | Source/Microsoft.Teams.Apps.TeamHistoryManagement.TeamsBot/Dialogs/Recognizers/SimpleRecognizer.cs:78 | The text is not trimmed: ` Help` is not recognised |
| IMessageActivityExtensions.ArgumentError | Source/Microsoft.Teams.Apps.TeamHistoryManagement.TeamsBot/Extensions/IMessageActivityExtensions.cs:30-38 | An empty user id is `ArgumentNullException`; otherwise an empty name with an empty mention text is `ArgumentException` |
| IMessageActivityExtensions.TokenRoundTrip | Source/Microsoft.Teams.Apps.TeamHistoryManagement.TeamsBot/Extensions/IMessageActivityExtensions.cs:45 | The token `<at>name</at>` gives the name back |
| IMessageActivityExtensions.TextWithMentionParts | Source/Microsoft.Teams.Apps.TeamHistoryManagement.TeamsBot/Extensions/IMessageActivityExtensions.cs:46-53 | The new text is token, space, text when prepending, else text, space, token |
| IMessageActivityExtensions.MentionedNameAfterChecks | Source/Microsoft.Teams.Apps.TeamHistoryManagement.TeamsBot/Extensions/IMessageActivityExtensions.cs:35-45 | After the checks the token names a non-empty name unless the name is empty and the mention text blank, which gives `<at></at>` |
| IMessageActivityExtensions.AddMentionToText | Source/Microsoft.Teams.Apps.TeamHistoryManagement.TeamsBot/Extensions/IMessageActivityExtensions.cs:27-70 | Failures change nothing; otherwise the user may be renamed, the text gets the token, entities are created if null and exactly one Mention is appended |
| TeamsBotModels.TeamAadId | Source/Microsoft.Teams.Apps.TeamHistoryManagement.TeamsBot/Models/ReportParameters.cs:126-142 | The AAD group id of the team details, or "" when the lookup throws or finds no team |
| TeamsBotModels.MessageIdRoundTrip | Source/Microsoft.Teams.Apps.TeamHistoryManagement.TeamsBot/Models/ReportParameters.cs:115-122 | A thread's conversation id gives back the message id after `;messageid=` |
| TeamsBotModels.MessageIdWithoutToken | Source/Microsoft.Teams.Apps.TeamHistoryManagement.TeamsBot/Models/ReportParameters.cs:120 | Without the marker the first 10 characters are dropped, and a shorter id throws |
| TeamsBotModels.ReportParameters.constructor | Source/Microsoft.Teams.Apps.TeamHistoryManagement.TeamsBot/Models/ReportParameters.cs:19-100 | The implicit constructor leaves every property at its default: not a channel, no ids, no Since, zero Till and zero enums |
| TeamsBotModels.ReportParameters.FillRestDetailsFromActivity | Source/Microsoft.Teams.Apps.TeamHistoryManagement.TeamsBot/Models/ReportParameters.cs:102-124 | Chat: the activity's conversation id, not a channel; otherwise a channel: a null channel data or Team throws NullReferenceException before the team AAD id is set, a null Channel after it; with both, the channel id and, for Conversation, the root message id or the exception of a null or marker-less conversation id; other fields unchanged |
| TxtGenerator.PrepareDocument | Source/Microsoft.Teams.Apps.TeamHistoryManagement.ReportsGenerators/Generators/TxtGenerator.cs:29-40 | The builder's text is `DocumentText`: header line, empty line, one block per `Reconstruct` thread |
| TxtGenerator.DocumentStartsWithHeader | Source/Microsoft.Teams.Apps.TeamHistoryManagement.ReportsGenerators/Generators/TxtGenerator.cs:34-36 | The document starts with the header and an empty line |
| TxtGenerator.DocumentFails | Source/Microsoft.Teams.Apps.TeamHistoryManagement.ReportsGenerators/Generators/TxtGenerator.cs:31-153 | The document is produced exactly when every message of every thread has a body and a sender |
| TxtGenerator.PrepareHeaderPart | Source/Microsoft.Teams.Apps.TeamHistoryManagement.ReportsGenerators/Generators/TxtGenerator.cs:47-77 | The header's text is the lines of `HeaderLines` |
| TxtGenerator.HeaderShape | Source/Microsoft.Teams.Apps.TeamHistoryManagement.ReportsGenerators/Generators/TxtGenerator.cs:50-74 | One line per scope flag set, then the between or till line, then the generated line |
| TxtGenerator.PrepareContentPart | Source/Microsoft.Teams.Apps.TeamHistoryManagement.ReportsGenerators/Generators/TxtGenerator.cs:86-118 | A thread's text is its `ContentPlan` rendered |
| TxtGenerator.ContentPlanRendering | Source/Microsoft.Teams.Apps.TeamHistoryManagement.ReportsGenerators/Generators/TxtGenerator.cs:89-115 | A thread's block renders all its messages, in order |
| TxtGenerator.ContentPlanWarning | Source/Microsoft.Teams.Apps.TeamHistoryManagement.ReportsGenerators/Generators/TxtGenerator.cs:97-112 | A warning comes first, alone, exactly when the thread is partial and Since is set |
| TxtGenerator.ContentPlanRoot | Source/Microsoft.Teams.Apps.TeamHistoryManagement.ReportsGenerators/Generators/TxtGenerator.cs:91-114 | Only the first message of a full thread in the thread view is rendered as root |
| TxtGenerator.MessageDetails | Source/Microsoft.Teams.Apps.TeamHistoryManagement.ReportsGenerators/Generators/TxtGenerator.cs:128-200 | The builder's text is that of `MessageLines`, nothing when a body or sender is missing |
| TxtGenerator.MessageLinesShape | Source/Microsoft.Teams.Apps.TeamHistoryManagement.ReportsGenerators/Generators/TxtGenerator.cs:135-173 | Lines exist exactly when body and sender exist; then a subject line exactly for a root with a subject, the text and posted lines, and the priority line |
| TxtGenerator.ThreadViewContent | Source/Microsoft.Teams.Apps.TeamHistoryManagement.ReportsGenerators/Generators/TxtGenerator.cs:89-106 | The thread-view branch renders `ContentPlan` for the thread view |
| TxtGenerator.ListContent | Source/Microsoft.Teams.Apps.TeamHistoryManagement.ReportsGenerators/Generators/TxtGenerator.cs:107-115 | The list branch renders `ContentPlan` for the plain list |
| TxtGenerator.AppendThreads | Source/Microsoft.Teams.Apps.TeamHistoryManagement.ReportsGenerators/Generators/TxtGenerator.cs:37-38 | Appending each thread's block in order gives `ThreadsText` |
| TxtGenerator.PlanTextFails | Source/Microsoft.Teams.Apps.TeamHistoryManagement.ReportsGenerators/Generators/TxtGenerator.cs:140 | A block fails exactly when one of the messages it renders has no body or no sender |
| TxtGenerator.PrefixWidths | Source/Microsoft.Teams.Apps.TeamHistoryManagement.ReportsGenerators/Generators/TxtGenerator.cs:130-131 | A root has no indentation; a reply is indented 12 spaces in a thread view, 4 otherwise, after `>>` for the text |
| TxtGenerator.ByLinesPresent | Source/Microsoft.Teams.Apps.TeamHistoryManagement.ReportsGenerators/Generators/TxtGenerator.cs:153-171 | One `- by` line per identity set, in the order Application, Conversation, User, Device |
| TxtGenerator.ReactionGroups | Source/Microsoft.Teams.Apps.TeamHistoryManagement.ReportsGenerators/Generators/TxtGenerator.cs:175-179 | One group per distinct reaction type in first-occurrence order with its count; the counts add up |
| TxtGenerator.CollapseMeaning | Source/Microsoft.Teams.Apps.TeamHistoryManagement.ReportsGenerators/Generators/TxtGenerator.cs:188 | Collapsing white space keeps every other character in order and leaves single spaces |
| TxtGenerator.ContentFieldShape | Source/Microsoft.Teams.Apps.TeamHistoryManagement.ReportsGenerators/Generators/TxtGenerator.cs:187-189 | The content field has no two white-space characters in a row and keeps all visible text |
| TxtGenerator.MapLines | Source/Microsoft.Teams.Apps.TeamHistoryManagement.ReportsGenerators/Generators/TxtGenerator.cs:184-196 | The attachment lines are one line per attachment, in order |
| TxtGenerator.ThreadsTextFails | Source/Microsoft.Teams.Apps.TeamHistoryManagement.ReportsGenerators/Generators/TxtGenerator.cs:38 | The threads fail exactly when one of their messages cannot be rendered |
| ReportGeneratorsProvider.FirstOfType | Source/Microsoft.Teams.Apps.TeamHistoryManagement.ReportsGenerators/Services/ReportGeneratorsProvider.cs:44 | The first generator whose `Type` equals the format, found exactly when one exists |
| ReportGeneratorsProvider.GetGenerator | Source/Microsoft.Teams.Apps.TeamHistoryManagement.ReportsGenerators/Services/ReportGeneratorsProvider.cs:42-51 | A registered generator of that type, or the `InvalidOperationException` message when none exists |
| ReportGeneratorsProvider.RegistrationComplete | Source/Microsoft.Teams.Apps.TeamHistoryManagement.ReportsGenerators/Services/ReportGeneratorsProvider.cs:27-33 | Every format has exactly one registered generator; other enum values have none |
| ReportGeneratorsProvider.PrepareDocument | Source/Microsoft.Teams.Apps.TeamHistoryManagement.ReportsGenerators/Services/ReportGeneratorsProvider.cs:37-40 | The document is the selected generator's |
| ReportGeneratorsProvider.ProvidedDocumentMeaning | Source/Microsoft.Teams.Apps.TeamHistoryManagement.ReportsGenerators/Services/ReportGeneratorsProvider.cs:37-48 | TXT is the text generator's document (a NullReferenceException when it cannot render), the other formats their generator's, an undefined format the not-registered exception |

## Left out

- The background job queue, its bounded worker pool and the cancellation token are not modelled. Each job is one sequential call, and concurrency is outside what the model states.
- The dialogs, adaptive cards, sign-in flow and bot framework plumbing around the report job are not modelled. They start the pipeline but are not part of it.
- The HTML, PDF and JSON generators are not modelled. `render` is a parameter of `ReportGeneratorsProvider.PrepareDocument`, and only the text generator is modelled.
- Image download for HTML and PDF reports is not modelled. `HistoryReportService.GenerateReportByteArray` only states when it happens.
- HTTP, the Graph SDK and token acquisition are not modelled. They are represented by oracle sequences of page responses, attempts and chunk results.
- Task.Delay is not executed. Each wait is recorded as a millisecond value in the run's list of delays.
- DateTimeOffset.ToInternational is the parameter `fmt`. Time zones and calendar arithmetic are left out, and "now" is a parameter wherever the code reads the clock.
- The report's UTF-8 encoding is not modelled. The text report is the string before `Encoding.UTF8.GetBytes`.
- The internals of the chunked upload provider (Graph's `ChunkedUploadProvider`) are not modelled. `OneDriveService.ChunkRanges` states the byte ranges it sends. Each chunk's result (an item, an accepted chunk, a recorded error or a thrown exception) comes from the oracle, so which Graph errors the provider records and which it rethrows is not modelled.
- The texts of localised resource strings (converter labels, the General channel title) are parameters. Each round trip assumes the labels are distinct.
- MessageSorter.ProcessMessages mutates `ThreadDetails` objects in place in the C#. The model uses values in sequences, so aliasing between thread objects is not captured.
- TeamsHistoryService.GetMessagesDetailsPaged requires that the page stream eventually contains a stopping page. An endless cursor chain is not modelled.
- TeamsHistoryService.GetDromTeamsApi requires enough reply streams for the roots it reads. The replies of roots beyond the supplied streams are not modelled.
- TeamsBotSettings.EnumTryParse reads a comma-separated list of member names (which .NET ORs together) as unparsable, and accepts only the exact member names or an Int32 numeral. .NET's white space tolerance inside `Enum.TryParse` is also left out: the pieces are trimmed before parsing anyway.
- MSGraphClient.MapResult does not model the NullReferenceException thrown when the drive item has no `File` facet. `mimeType` is optional in the model.
- MSGraphClient.MapResult splits the download URL's text at its first `#` and `?` where the code builds a `System.Uri`. The model does not canonicalise the left part (lower-casing the scheme and host, dropping a default port, resolving `.` and `..` segments, escaping). It also does not raise the UriFormatException that a relative or malformed download URL causes.
- MSGraphClient.UrlParts states the split of the URL's text, not of the canonical form `GetLeftPart(UriPartial.Path)` returns. For the same reason as MapResult, the left part of a URL that .NET rewrites is not a textual prefix in the code.
- MSGraphClient.UrlDecode decodes a `%XX` escape only below 0x80 and a `%uXXXX` escape only outside the surrogate range. Escaped bytes from 0x80 up, which .NET collects and decodes as UTF-8, and escaped surrogates are kept as written.
- MSGraphClient.DownloadUrlReparse holds only for a UniqueId without `&`, `#`, `%` and `+`. The code inserts the decoded value into the new URL without encoding it again, so other values do not read back the same.
- Case mapping (`ToUpperInvariant`, `ToLowerInvariant`, `IgnoreCase` comparisons and the recognizer's `RegexOptions.IgnoreCase`) is modelled for ASCII letters only.
- SimpleRecognizer.RecognizeInternal models only the literal command patterns the bot registers (letters, spaces and `\?`, anchored by `^…$`), not general .NET regular expressions.
- GraphBaseService.RequestLoop models the request's headers and body as opaque strings. Logging is represented by the log line in the outcome.

## Findings

| source | as written | input that shows it | evidently intended | confidence | as-written member | corrected member |
|---|---|---|---|---|---|---|
| Source/Microsoft.Teams.Apps.TeamHistoryManagement.MSGraphProvider/Services/GraphBaseService.cs:46-67 | A `WebException` without a `Response` is not retried, and the log line then reads `ex.Response.Headers`, which throws a NullReferenceException that replaces the original exception | a request failing with `WebException` whose `Response` is null (DNS failure, connection refused), i.e. `WebFailure(None)` | log the missing headers as empty and rethrow the original `WebException` | not executed | GraphBaseService.GiveUpAsWritten (shown by GraphBaseService.NoResponseAsWritten) | GraphBaseService.GiveUp (used by the model; GraphBaseService.NoResponseNotRetried) |
