# discord-to-playlist, modelled in Dafny

`main.py` reads YouTube links from a Discord text channel and adds the videos to a YouTube playlist. This project models the sequential logic under its two REST clients and proves its properties:

- **Http**: the status classification of `RequestAPI._request`, including the reason table `HTTP_STATUS_CODES`, and the attempt loop, which never retries.
- **Authorization**: the `Authorization` header built by `Discord.__init__`.
- **ChatReader**: `Discord.generate_messages`, which covers:
  - the channel-type gate (GUILD_TEXT = 0, GUILD_NEWS = 5);
  - the backward walk through the history with a `before` cursor;
  - the `id >= end` filter and the stop on a short page.
- **Links**: the two `re.search` patterns of `parse_messages`, modelled as searches for the fixed markers `youtube.com/watch?v=` and `youtu.be/`.
- **Dedup** and **LinkParser**: `Discord.parse_messages`, meaning link extraction over all batches followed by `dict.fromkeys`.
- **YouTube**:
  - `_get_playlist_content`, which reads a playlist page by page;
  - `update_playlist`, which skips present IDs, inserts the rest, skips 404s and aborts on any other insert error.

The network is modelled as oracles:
- Discord answers are a `Response` for the channel lookup and a function from `before` cursor to a page of messages.
- `_request` sends through a function from attempt number to response.
- The YouTube playlist is a `PlaylistService` object. Its `items` field is the remote playlist, `Page` answers a list request, and `Insert` applies a fixed per-video answer `verdict`.

A Python generator that is drained with `list(...)` becomes a method. It returns every batch the generator yielded, the cursor of every request it sent, and the error it raised, if any.

Three details of the history walk in `main.py`:
- The next cursor is the ID of the last message of the filtered batch (main.py:101; `ScanChain`). When the listing returns at most 100 messages per request, as `limit=100` (main.py:89) asks, a full batch is the whole page and the next cursor is the ID of the page's last message (`FullBatchContinues`).
- The first request asks for messages before `start + 1` (main.py:80, 88), so no message with an ID above `start` is read (`GeneratedWithinRange`).
- A walk that does not fail ends only on a batch of fewer than 100 messages (`ScanCounts`), so every full batch is followed by one more request, even when it held the last message in range (`FullBatchContinues`). When the number of messages in range is a multiple of 100, that request's batch is empty, and it is still yielded.

## Model

| member | source | states |
|---|---|---|
| Http.Classify | main.py:53-58 | succeeds exactly on status 200 and returns the body; any other status is a `StatusError` carrying that status, with a reason exactly when the code is in the table, and then the table's phrase |
| Http.Request | main.py:50-58 | exactly one request is sent whatever the response, and the result is the classification of that first response: the five-iteration loop never retries |
| Authorization.Capitalize | main.py:62 | same length; first character upper-cased, every later character lower-cased |
| Authorization.Header | main.py:65 | the `Authorization` header; its behaviour is stated by `HeaderShape` and `CapitalizesToUser` |
| Authorization.CapitalizeIdempotent | main.py:62 | capitalising an already capitalised token type changes nothing |
| Authorization.CapitalizesToUser | main.py:62-65 | the token type capitalises to "User" exactly when it spells "user" in any mix of case |
| Authorization.HeaderShape | main.py:61-66 | the header is the bare token exactly when the token type is "user" in any case; otherwise it is the capitalised type, one space, then the token |
| Authorization.CommandLineTokenTypes | main.py:239 | for the three types the command line allows: "user" gives the bare token, "bearer" gives "Bearer <token>", "bot" gives "Bot <token>" |
| Links.RestOfLine | main.py:110-111 | the greedy group `(.+)`: the capture never runs past the text; its content is stated by `RestOfLineSpec` |
| Links.FirstMatch | main.py:110-111 | the leftmost position of a marker followed by a non-newline character; a returned position lies at or after the start and leaves room for the marker and one character; completed by `FirstMatchSpec` |
| Links.Capture | main.py:110-111 | one `re.search` with its group 1; stated by `CaptureIsLeftmostMatch`, `CaptureIsOneLine` and `LeftmostMatchCaptured` |
| Links.Extract | main.py:113-118 | the if/elif over the two searches; stated by `ExtractPriority`, `WatchUrlExtracted` and `ShortUrlExtracted` |
| Links.RestOfLineSpec | main.py:110-111 | the group `(.+)` captures a newline-free stretch of the text starting after the marker, running to the next newline or to the end |
| Links.FirstMatchSpec | main.py:110-111 | the search returns a position where the marker stands followed by a non-newline character, with no such position before it; when it returns none, there is no such position at all |
| Links.CaptureIsLeftmostMatch | main.py:110-111 | a search fails exactly when its marker matches nowhere; otherwise it captures the rest of the line after the leftmost match |
| Links.CaptureIsOneLine | main.py:110-111 | a capture is never empty (`.+`) and contains no newline |
| Links.LeftmostMatchCaptured | main.py:110-111 | given the leftmost match position, the capture is the rest of the line after it |
| Links.ExtractPriority | main.py:113-118 | a `watch?v=` match anywhere wins over a `youtu.be/` match, wherever that one stands; without one the short-link capture is used; a message yields nothing exactly when neither marker matches; a yielded ID is non-empty and newline-free |
| Links.WatchUrlExtracted | main.py:110 | a watch URL with any allowed prefix (none, scheme, "www.", both), followed by a video ID, yields exactly that ID |
| Links.ShortUrlHasNoWatchLink | main.py:110 | the watch search finds nothing in a short link whose ID is made of video-ID characters |
| Links.ShortUrlCaptured | main.py:111 | the short-link search captures exactly the ID of a short link preceded by nothing, a scheme, `www.` or both; the pattern itself allows no `www.`, but its match starts at `youtu.be/` whatever precedes it |
| Links.ShortUrlExtracted | main.py:111 | a short link preceded by nothing, a scheme, `www.` or both, followed by a video ID, yields exactly that ID (the match starts at `youtu.be/`); no watch match is found in it |
| Dedup.FirstIndex | main.py:120 | the index returned holds the element, and the element occurs nowhere before it |
| Dedup.FromKeys | main.py:120 | the result has no duplicates and contains exactly the elements of the input |
| Dedup.FromKeysFirstOccurrenceOrder | main.py:120 | the result lists elements in the order of their first occurrences in the input |
| Dedup.FromKeysOfDistinct | main.py:120 | a list without duplicates is returned unchanged |
| Dedup.FromKeysIdempotent | main.py:120 | deduplicating twice gives the same list as deduplicating once |
| ChatReader.KeepFrom | main.py:94 | the filter keeps no more messages than the page has, and every kept message has an ID of at least `end` |
| ChatReader.KeepFromMembers | main.py:94 | a message is kept exactly when it is on the page and its ID is at least `end` |
| ChatReader.KeepFromAppend | main.py:94 | the filter keeps page order: filtering a concatenation concatenates the filtered parts |
| ChatReader.Scan | main.py:82-101 | the reference definition of the `while True` walk from a cursor; stated by `ScanUnfold`, `ScanCounts`, `ScanChain`, `ScanBatches`, `ScanBounds` and `FullBatchContinues` |
| ChatReader.Generate | main.py:78-103 | the reference definition of the whole generator, the channel gate then `Scan` from `start + 1`; stated by `ChannelGate` and `GeneratedWithinRange` |
| ChatReader.GenerateMessages | main.py:78-103 | the generator produces exactly the batches, request cursors and error of the reference definition `Generate`: the channel gate, then the walk from `start + 1` |
| ChatReader.ReadHistory | main.py:82-101 | the `while True` loop, which reassigns the cursor, produces exactly the batches, request cursors and error of the reference walk `Scan` |
| ChatReader.ScanUnfold | main.py:82-101 | one step of the walk: a failed request ends it with that error; a short filtered page is the last batch; a full one is followed by the walk from its last ID, which lies in `[end, cursor)` |
| ChatReader.ScanCounts | main.py:96-99 | every request except a failed last one yields exactly one batch, even an empty one; the first request uses the starting cursor; a walk that did not fail ends with a batch of fewer than 100 messages; a failure is the classification of the last request |
| ChatReader.ScanBatchAt | main.py:83-96 | batch `i` is the filtered answer to request `i`, which succeeded |
| ChatReader.ScanChainAt | main.py:98-101 | a batch followed by another request has at least 100 messages, and the next cursor is the ID of its last message |
| ChatReader.KeepFromAll | main.py:94 | a filter that keeps as many messages as the page has returns the page itself |
| ChatReader.FullBatchContinues | main.py:89-101 | a full batch is always followed by another request; when the listing returns at most 100 messages per request, the full batch is the whole page and the next cursor is the ID of the page's last message |
| ChatReader.ScanCursorsAt | main.py:88-101 | cursor `i` is strictly below every earlier cursor and at most the first one |
| ChatReader.ScanMessagesAt | main.py:88-96 | the messages of batch `i` have IDs from `end` up to, but excluding, cursor `i` |
| ChatReader.ScanBatches | main.py:83-96 | all batches at once: each is the filtered answer to its successful request |
| ChatReader.ScanChain | main.py:98-101 | all full batches at once: each moves the cursor to the ID of its last message |
| ChatReader.ScanBounds | main.py:88-101 | the cursors strictly decrease, and every yielded message lies between `end` and the cursor of its request |
| ChatReader.ChannelGate | main.py:79-103 | no listing request is sent exactly when the channel lookup fails or its type is not 0 or 5; then nothing is yielded and an error is raised, `InvalidChannelType` for a wrong type; otherwise the first listing asks for messages before `start + 1` |
| ChatReader.GeneratedWithinRange | main.py:80-94 | every message the generator yields has an ID from `end` to `start`, both inclusive |
| LinkParser.LinksOf | main.py:109-118 | each message contributes at most one ID |
| LinkParser.LinkOf | main.py:110-118 | the IDs one message contributes, zero or one; stated through `LinksOf` by `LinksOfMembers` and `LinksAreOneLine` |
| LinkParser.RawLinks | main.py:106-118 | the list `messages` built over all batches before deduplication; stated by `RawLinksBound` and `RawLinksAreCaptures` |
| LinkParser.LinksOfAppend | main.py:109-118 | messages contribute in order: the IDs of a concatenation are the concatenated IDs |
| LinkParser.LinksOfMembers | main.py:109-118 | an ID is in the list exactly when some message's search yields it |
| LinkParser.LinksAreOneLine | main.py:109-118 | every listed ID is non-empty and newline-free |
| LinkParser.RawLinksBound | main.py:108-118 | the raw list is no longer than the number of messages scanned |
| LinkParser.RawLinksAreCaptures | main.py:108-118 | the raw list over the batches, taken in batch order, is the list over all their messages in order |
| LinkParser.ParsedIdsAreExtracted | main.py:105-120 | the deduplicated result holds exactly the IDs that some scanned message yields, each non-empty and newline-free |
| LinkParser.AppendLinks | main.py:109-118 | the inner loop appends exactly the IDs the batch's messages yield, in message order |
| LinkParser.ParseMessages | main.py:105-120 | an error raised by the generator propagates; otherwise the result is the raw list with later duplicates removed (`[::1]` keeps the order), so it has no duplicates and holds exactly the raw IDs |
| YouTube.PlaylistService.Page | main.py:155-168 | a page holds at most 50 items; a page with a next token is full; a page requested by token is not empty |
| YouTube.PlaylistService.Insert | main.py:212-223 | the answer is the API's verdict for that video, which is appended to the playlist exactly when the insert succeeds |
| YouTube.VideoIds | main.py:177-179 | one ID per item, in item order, each the item's video ID |
| YouTube.GetPlaylistContent | main.py:154-181 | following the page tokens until a page has none returns the video ID of every playlist item, in order, with nothing lost or repeated |
| YouTube.Update | main.py:203-234 | the reference definition of `update_playlist` on the playlist's video IDs; stated by `UpdateSplit`, `UpdateOutcome`, `DecisionAt`, `UpdateAppendsAdded`, `UpdateKeepsDistinct`, `RequestedPresent`, `NothingToAdd` and `UpdateIdempotent` |
| YouTube.UpdateSplit | main.py:204-234 | handling a list in two parts equals handling the first part and then, unless it raised, the second part from the playlist the first left |
| YouTube.UpdateOutcome | main.py:224-231 | without an error every ID gets a decision; after an error, the ID where the run stopped was absent from the playlist and its insert failed with a status other than 404; a 403 gives `QuotaExceeded`, any other status an unexpected API error; later IDs are not attempted |
| YouTube.UpdateAppendsAdded | main.py:211-234 | the playlist only grows, by exactly the IDs decided `Added`, appended in input order |
| YouTube.UpdateKeepsDistinct | main.py:207-223 | a playlist without duplicates keeps none; everything in the result was there before, or was requested and accepted by the API |
| YouTube.DecisionAt | main.py:204-234 | the decision for the `i`-th ID is taken against the playlist as the earlier IDs left it, after the earlier IDs raised nothing: skip when present, added when the insert succeeds, not found on 404 |
| YouTube.RequestedPresent | main.py:207-234 | after a run with no error, everything that was in the playlist is still there, and every requested ID is in it unless the API answered 404 for it |
| YouTube.NothingToAdd | main.py:207-227 | IDs that are all present or unknown to the API leave the playlist unchanged, raise nothing and add nothing |
| YouTube.UpdateIdempotent | main.py:203-234 | a second run with the same IDs after a run without errors adds nothing, leaves the playlist unchanged and raises nothing |
| YouTube.UpdatePlaylist | main.py:203-234 | the imperative loop, which re-reads the playlist before every ID, leaves the playlist and reports the decisions and the error of the reference definition `Update` |

## Left out

- HTTP transport (`requests.Session`) and the Google API client calls are replaced by the oracles described above. Their headers, URLs, the query parameters other than `before` (the listing oracle's argument) and `limit` (`MessageLimit`), and JSON decoding are not modelled.
- A failing playlist listing inside `_get_playlist_content` is not modelled. The listing oracle always answers.
- The OAuth flow, the pickled credential cache and token refresh are not modelled: they are file and network I/O on library objects.
- `sleep(1)`, the coloured console output and the percentage string are not modelled: they are timing and terminal output only. The text of error messages is reduced to the `RequestError` constructors and their status and reason.
- The argparse wiring is not modelled. Its one relevant fact, that the token type is lower-cased and is one of user, bearer and bot, is `Authorization.CommandLineTokenTypes`.
- The commented-out `create_playlist` is dead code and is not modelled.
- Authorization.Capitalize: models `str.capitalize` on ASCII letters only. Unicode case mapping is not modelled.
- Links.Extract: models only the two fixed-marker searches, not Python's general regex engine. The optional scheme and `www.` groups before a marker never change the captured group, so the model does not search for them. `WatchUrlExtracted` and `ShortUrlExtracted` prove this for URLs that carry them.
- ChatReader.FullBatchContinues: the bound of at most 100 messages per listing (`WithinLimit`) is a hypothesis of this lemma only. The walk and its other lemmas do not assume it, because main.py does not check it.
- ChatReader.GenerateMessages: requires that the listing endpoint returns only messages older than the `before` cursor. That is Discord's contract, not a check in the program, and without it the loop need not terminate.
- YouTube.PlaylistService.Page: page tokens are modelled as page indices, and the playlist does not change between the page requests of one listing.
- YouTube.PlaylistService.Insert: the API's answer to inserting a video is a fixed function of the video ID. Transient failures that differ between calls are not modelled.
