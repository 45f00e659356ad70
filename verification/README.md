# The protocols and algorithms of Telegram Desktop, modelled and proved in Dafny

Telegram Desktop talks to its server through requests that are answered later, in any order, or cancelled.
Between a request and its answer the client keeps tables of what is pending, and much of its logic is the
upkeep of such tables.  This project models that upkeep, and the two hash computations of the client, and
proves what they are for:

| module | part of the client | main results |
|---|---|---|
| `Sha1` | the SHA-1 of the update packer | refinement of FIPS 180-4, section 6.1.2, with the exact length bound; schedule and rounds are injective |
| `ApiHash` | the 64-bit hash of lists | bijections, single edits always seen |
| `FeaturedHash`, `KeptState` | the hash of featured sets | the one state that hides a set being read |
| `PremiumRequired` | batched "premium required" lookups | no lost wakeup, positional answers, ceil(n / 100) slices |
| `SendProgress` | the throttle of progress notifications | bound on requests in every window of time |
| `BlockedPeers` | overlapping block and unblock requests | callbacks run exactly once, the total covers the list |
| `MessageData` | batched message requests | callbacks conserved, every entry covered |
| `FileReferences` | coalesced file-reference requests | one request per origin, the handler list always there |
| `WebPages` | web page previews with temporary ids | encoding undone exactly, every page held by its own request unless it failed |
| `Forward` | forwarding in batches | unique maximal runs, the callback runs once or never |
| `InviteLinks` | slices of invite links | active permanent link at index 0, exact condition per operation |
| `MessagesSearch` | the first-page cache | token injectivity, cache honesty, when a postponed search is filed wrongly |
| `DialogsLoader` | loading the chats lists | no doubled requests, one notification per load, which loads are stuck |
| `StickerSets` | saving edited sticker sets | what becomes of each set, the reorder barrier over all runs |

`Collections` and `Callbacks` are shared: optional values and the order of iteration; and a ledger that says
of each callback where it is (waiting under a key, about to run, or run).

## How the models are built

* A class has the fields of the program and methods for its functions and handlers.  `Valid()` is the
  invariant, and each module with a protocol ends in a method `Run` (`RunReplies` in `Forward`) that takes an
  arbitrary list of calls and replies.  Its contract is the statement about all runs, and ties what the object
  holds at the end to the events: by a function of them, by the states in between, or by one ticket for each
  callback passed in.
* Sending a request adds a fresh positive id to `inFlight` together with what its handlers captured.  A reply
  is a method call with an id in flight, in any order; a cancelled request leaves `inFlight`, so no reply comes.
* Callbacks may call in again while they run.  Methods that run callbacks take a `tape` of what the callbacks
  do next and return the rest of it, so every finite behaviour is covered.
* A specification function that a method and its contract both use is pinned down by lemmas that say what it does
  in the fields and numbers themselves (most have names ending in `Means`): which element goes where, what stays,
  which constants.  Filtered sequences are compared by positions (`Collections.Picks`).
* Ghost fields (`ledger`, `log`, `given`, `sentBy`) record history for the statements; the program never
  reads them.
* Clocks, random ids and facts that live elsewhere (whether a message is still known, whether more chats are
  wanted) are arguments.  Iteration over a table takes its elements in an arbitrary order.

## Where the code does less than one might expect

* SHA-1 is the standard one below 2^29 bytes.  The length is a 32-bit word shifted left by three, so from there
  on the words hashed are not those of the standard (`Sha1.ProgramWordsAreStandard`); from 2^32 - 64 bytes on,
  the 32-bit `block + 64` wraps and the loop over the full blocks does not end (`Sha1.LoopEnds`), which
  `Sha1.HashSha1` excludes.
* The hash of featured sets writes one or two words per set, so reading a set is not always seen
  (`FeaturedHash.ReadingIsNotSeen`): it is hidden exactly by one state of the hash
  (`FeaturedHash.ReadingAFeaturedSet`, `KeptState.OneKeptState`).
* The paid reaction, the empty reaction and a custom reaction with id zero have the same text in a search
  token, and a newline in a query can imitate a sender (`MessagesSearch.TokensCollide`).
* While a Delete request of the chat is out, the history queue keeps back the send callbacks of searches; they
  read the request when they run, which may have changed by then.  A page is then stored under the wrong token
  (`MessagesSearch.PostponedCallbackMisfiles`).  That happens with the next reply exactly when the last waiting
  token is not cached, the offset is zero, and the token is not that of the request
  (`MessagesSearch.Search.DeleteDone`, `MessagesSearch.WrongTokenMisfiles`), unless the server has given that very
  answer to a request with this token before.
* The next offset of the chats list can combine peer and id of one dialog with the date of another
  (`DialogsLoader.OffsetCanMixDialogs`; `DialogsLoader.OffsetIsOneDialog` says exactly when it does not).
* A reply "not modified" leaves the request id of the chats list set, so the load waits for ever
  (`DialogsLoader.StuckLoad`, `DialogsLoader.StuckForever`); no other reply does that
  (`DialogsLoader.Loader.ListReply`, `DialogsLoader.Loader.StuckIff`).
* Blocking and unblocking a peer does not give the slice back if its total was below its list length, which
  parsing excludes (`BlockedPeers.BlockThenUnblock`).
* Keeping the active permanent link at the front needs no assumption about created links or about the link
  passed to `setMyPermanent`; only first lists, edits and external updates can break it
  (`InviteLinks.ApplyKeepsFrontIff`).
* A web page request has no fail handler, so the pages of a failed request keep its id and are not asked for
  again (`WebPages.PageIsLost`, `WebPages.LostForever`, `WebPages.InFlightUnlessLost`).  The progress request has
  none either, and its table entry stays: an entry is in flight exactly when its request did not fail
  (`SendProgress.Run`).
* A sticker set in both lists of a save is uninstalled on the server and can stay installed here
  (`StickerSets.SetInBothLists`; `StickerSets.AskedSetsEndAsAsked` says exactly when).  The sticker box passes
  disjoint lists, for which this does not happen (`StickerSets.DisjointListsAgree`).

## Model

| member | source | states |
|---|---|---|
| `Sha1.HashSha1` | Telegram/SourceFiles/_other/packer.cpp:96-132 | For every message shorter than 2^29 bytes the 20 bytes written to `dest` are, big-endian, the SHA-1 of FIPS 180-4 section 6.1.2; for every longer message on which the loop ends they are the same iteration over `ProgramWords`; nothing behind byte 20 is written |
| `Sha1.LoopEnds` | Telegram/SourceFiles/_other/packer.cpp:99-109 | The outer loop, with `block` and `end` in 32 bits, ends exactly when the message is shorter than 2^32 - 64 bytes |
| `Sha1.ProgramWordsAreStandard` | Telegram/SourceFiles/_other/packer.cpp:122 | The words hashed are the padded message of section 5.1.1 exactly when the message is shorter than 2^29 bytes, where `len << 3` stops fitting |
| `Sha1.PartHash` | Telegram/SourceFiles/_other/packer.cpp:60-92 | In place over `temp` and `sha`, one block: the new hash value is steps 1 to 4 of section 6.1.2 applied to the old one and the sixteen words |
| `Sha1.ShiftShiftSwap` | Telegram/SourceFiles/_other/packer.cpp:73-76 | Extending `temp` in place at `round` gives the standard message schedule word, and the locals become the standard working variables of the next round |
| `Sha1.ScheduleLaw` | Telegram/SourceFiles/_other/packer.cpp:73-75 | Every schedule word from the sixteenth on, rotated back by one place, is the exclusive or of the words 3, 8, 14 and 16 places before |
| `Sha1.ScheduleIsInjective` | Telegram/SourceFiles/_other/packer.cpp:73-75 | Any sixteen consecutive schedule words determine the block |
| `Sha1.RoundLaw` | Telegram/SourceFiles/_other/packer.cpp:63-71 | One round written out: the five terms of the sum with the function and the constant of its range, and where each other component goes |
| `Sha1.RoundsAreInjective` | Telegram/SourceFiles/_other/packer.cpp:63-82 | The rounds of a block permute the working variables |
| `Sha1.ShiftIsRotl` | Telegram/SourceFiles/_other/packer.cpp:56-58 | The two shifts joined with inclusive or are the rotations by 5 and 30 of section 3.2 |
| `Sha1.ExtendedIsExpand` | Telegram/SourceFiles/_other/packer.cpp:74 | The program's expression for a schedule word is that of section 6.1.2 |
| `Sha1.LateRounds` | Telegram/SourceFiles/_other/packer.cpp:81-82 | Rounds 40 to 79 keep schedule and working variables in agreement with the standard, with the constants and functions of sections 4.1.1 and 4.2.1 |
| `Sha1.ChooseIsCh` | Telegram/SourceFiles/_other/packer.cpp:78-79 | The first round function, joined with inclusive or, is Ch of section 4.1.1 |
| `Sha1.MajorityIsMaj` | Telegram/SourceFiles/_other/packer.cpp:81 | The third round function, joined with inclusive or, is Maj of section 4.1.1 |
| `Sha1.FullBlocks` | Telegram/SourceFiles/_other/packer.cpp:101-109 | After the loop, the hash value is that of all full blocks of the padded message, and `block` is the number of bytes consumed |
| `Sha1.FillTail` | Telegram/SourceFiles/_other/packer.cpp:111-117 | The tail loop and the one bit leave in `temp` exactly the leftover bytes, the byte 0x80 and zeros |
| `Sha1.FinishTail` | Telegram/SourceFiles/_other/packer.cpp:118-123 | One or two further blocks, split at 56 leftover bytes, complete the hash of the whole padded message |
| `Sha1.PutByte` | Telegram/SourceFiles/_other/packer.cpp:114-117 | Joining a byte into its word at the shifted position is the same as writing it into the byte sequence, for all 64 positions |
| `Sha1.FourBytes` | Telegram/SourceFiles/_other/packer.cpp:127-129 | The four bytes taken out by shift and mask make the word again, most significant first |
| `Sha1.ReadWord` | Telegram/SourceFiles/_other/packer.cpp:103-106 | The four shifted bytes of the block loop make the big-endian word |
| `Sha1.WordDigits` | Telegram/SourceFiles/_other/packer.cpp:122 | The word made of a number below 2^32 has its binary digits |
| `Sha1.AbcDigest` | Telegram/SourceFiles/_other/packer.cpp:96-132 | The specification gives the digest that FIPS 180 publishes for the message abc, through padding, schedule and all eighty rounds |
| `ApiHash.UpdateIsBijective` | Telegram/SourceFiles/api/api_hash.h:40-45 | For each value the update is a bijection of the 64-bit state, with an explicit inverse on both sides |
| `ApiHash.ValueIsBijective` | Telegram/SourceFiles/api/api_hash.h:40-45 | For each state the update is a bijection of the value |
| `ApiHash.FoldIsBijective` | Telegram/SourceFiles/api/api_hash.h:64-70 | Hashing any sequence is a bijection of the starting state |
| `ApiHash.OnePositionDecides` | Telegram/SourceFiles/api/api_hash.h:64-70 | With all other positions fixed, every 64-bit result is reached by exactly one value at any given position |
| `ApiHash.OneEditIsSeen` | Telegram/SourceFiles/api/api_hash.h:64-70 | Two sequences of equal length that differ in exactly one position never hash equally |
| `ApiHash.CommonEndsCancel` | Telegram/SourceFiles/api/api_hash.h:64-70 | Sequences of any lengths with a common prefix and a common suffix collide exactly when they collide before the suffix |
| `ApiHash.CountStickersOrderHash` | Telegram/SourceFiles/api/api_hash.cpp:38-61 | The fold over exactly the present, non-default, non-special, non-archived sets in their order; zero exactly when the check is asked for and a default set is present, else that fold |
| `ApiHash.OrderWordsMean` | Telegram/SourceFiles/api/api_hash.cpp:38-61 | One more listed id adds the hash of its set exactly when the set is there, has an id other than zero, and is neither special nor archived |
| `ApiHash.ChangedSetIsSeen` | Telegram/SourceFiles/api/api_hash.cpp:38-61 | When the contents hash of one listed set changes, the hash of the list changes |
| `FeaturedHash.CountFeaturedHash` | Telegram/SourceFiles/api/api_hash.cpp:63-78 | The loop folds the ids of the listed sets, each unread one followed by a one |
| `FeaturedHash.FeaturedWordsMean` | Telegram/SourceFiles/api/api_hash.cpp:63-78 | One more listed id adds the id, and a one exactly when its set is there and unread |
| `FeaturedHash.ReadingAFeaturedSet` | Telegram/SourceFiles/api/api_hash.cpp:63-78 | When a listed set is read the hash of the list stays the same exactly when the state reached with its id is one known constant, STUCK |
| `FeaturedHash.ReadingIsNotSeen` | Telegram/SourceFiles/api/api_hash.cpp:63-78 | A list of one unread set whose hash does not change when the set is read |
| `KeptState.OneKeptState` | Telegram/SourceFiles/api/api_hash.h:40-45 | An update with 1 keeps exactly one of the 2^64 states |
| `PremiumRequired.AnswerInOrder` | Telegram/SourceFiles/api/api_premium.cpp:414-427 | One running index over the answers: the i-th answer goes to the i-th user asked, a missing one means no, nobody else changes |
| `PremiumRequired.Premium.Resolve` | Telegram/SourceFiles/api/api_premium.cpp:383-392 | A user joins the sorted queue; a slice is scheduled exactly when none is in flight |
| `PremiumRequired.Premium.RunQueued` | Telegram/SourceFiles/api/api_premium.cpp:394-413 | Takes the first 1 to 100 waiting users as the one slice in flight, and never finds the queue empty |
| `PremiumRequired.Premium.Finish` | Telegram/SourceFiles/api/api_premium.cpp:414-435 | Every user of the slice gets its own answer, and a nonempty queue leads to the next slice |
| `PremiumRequired.Premium.Drain` | Telegram/SourceFiles/api/api_premium.cpp:383-443 | Without further arrivals n users take exactly ceil(n / 100) slices, whatever is answered, and all become known |
| `PremiumRequired.Run` | Telegram/SourceFiles/api/api_premium.cpp:383-443 | After any run of arrivals, turns and replies the invariant holds (a nonempty queue implies a scheduled or in-flight slice, at most one slice in flight, of 1 to 100 users); when nothing is queued or in flight every user ever asked about is known |
| `SendProgress.Manager.Updated` | Telegram/SourceFiles/api/api_send_progress.cpp:85-109 | The table of times decides as the history says: an update passes when no accepted one came within the interval, a stop when one came within twice the interval |
| `SendProgress.Manager.Update` | Telegram/SourceFiles/api/api_send_progress.cpp:62-83 | Both tables and the history after an update, for every kind of peer: the old request of the key is cancelled and at most one new one takes its entry |
| `SendProgress.UpdateMeans` | Telegram/SourceFiles/api/api_send_progress.cpp:62-109 | What an update adds to the history, in milliseconds and fields: the interval is 3000 for speaking and 5000 otherwise; an update is dropped within it, a stop counts within twice it; own chats and broadcast channels are ignored; bots, and users neither seen recently nor online within the last 30 seconds, get no request |
| `SendProgress.LastMeans` | Telegram/SourceFiles/api/api_send_progress.cpp:85-109 | The time compared with is that of the latest entry of the key, when that entry is an update |
| `SendProgress.Manager.Done` | Telegram/SourceFiles/api/api_send_progress.cpp:173-180 | The answered request leaves the table under its own key and no other entry moves |
| `SendProgress.Manager.TimerFired` | Telegram/SourceFiles/api/api_send_progress.cpp:28-31 | When the timer is armed there is a history to take, and its typing request is cancelled |
| `SendProgress.AcceptedAreApart` | Telegram/SourceFiles/api/api_send_progress.cpp:85-109 | Two accepted updates of one key without an effective stop between them are at least one interval apart |
| `SendProgress.AtMostInWindow` | Telegram/SourceFiles/api/api_send_progress.cpp:62-109 | In any closed window with s effective stops at most s + 1 + floor(length / interval) requests are sent for one key |
| `SendProgress.SendsMean` | Telegram/SourceFiles/api/api_send_progress.cpp:111-152 | The requests counted in a window are the positions of the history in it at which a request of the key was sent |
| `SendProgress.StopsMean` | Telegram/SourceFiles/api/api_send_progress.cpp:62-109 | The stops counted in a window are the positions of the stops of the key in it |
| `SendProgress.Run` | Telegram/SourceFiles/api/api_send_progress.cpp:33-180 | Over any run along a clock that does not go back: the history is the updates and stops that pass the throttle, as many requests were sent as it says, no two requests in flight share a key, a table entry is in flight exactly when its request did not fail, and the window bound holds for every key and window |
| `BlockedPeers.ToSlice` | Telegram/SourceFiles/api/api_blocked_peers.cpp:24-49 | The parsed total is the larger of count and list length, so it never falls below the list |
| `BlockedPeers.Blocked.AlreadySent` | Telegram/SourceFiles/api/api_blocked_peers.cpp:168-187 | Joins the entry of the same kind; for the other kind all its callbacks have run when the call returns, whatever they call themselves |
| `BlockedPeers.Blocked.Block` | Telegram/SourceFiles/api/api_blocked_peers.cpp:75-114 | After a call for a peer not blocked yet there is an entry for it, and an earlier absence means exactly one new request |
| `BlockedPeers.Blocked.Unblock` | Telegram/SourceFiles/api/api_blocked_peers.cpp:116-166 | An accepted call leaves its callback in the entry of its peer, also when running callbacks made that entry meanwhile |
| `BlockedPeers.Blocked.Reply` | Telegram/SourceFiles/api/api_blocked_peers.cpp:87-158 | A reply, also one older than the entry, runs all waiting callbacks of its peer, sets the blocked state and the slice, and leaves other requests alone |
| `BlockedPeers.NewSliceMeans` | Telegram/SourceFiles/api/api_blocked_peers.cpp:90-145 | The slice after a reply, item by item: a blocked peer comes first and counts one more; of an unblocked one exactly the first item goes, every other item stays in its place, and the total falls by one while it exceeds the items left |
| `BlockedPeers.Blocked.QuietMeansAllRan` | Telegram/SourceFiles/api/api_blocked_peers.cpp:75-187 | With nothing in flight the table is empty and every accepted callback has run exactly once |
| `BlockedPeers.UnlistedCount` | Telegram/SourceFiles/api/api_blocked_peers.cpp:90-145 | How the number of counted but unlisted peers moves: unchanged by blocking and by unblocking a listed peer, one less (never below zero) by unblocking an unlisted one |
| `BlockedPeers.BlockThenUnblock` | Telegram/SourceFiles/api/api_blocked_peers.cpp:90-145 | Blocking and then unblocking gives the slice back; the one exception is a total below the list length, which it raises by one |
| `BlockedPeers.Run` | Telegram/SourceFiles/api/api_blocked_peers.cpp:24-187 | Any interleaving of calls, replies and lists, with callbacks that call in again: exactly the accepted callbacks have tickets, in the order of the calls, a reply changes the blocked peers and the slice as the request with its id says, an entry implies a request in flight for its peer, the total covers the list, and when quiet every ticket has run exactly once |
| `MessageData.MessageRequests.RequestMessageData` | Telegram/SourceFiles/apiwrap.cpp:576-589 | The callback is appended to the one entry of its table and message, which keeps its request or starts without one; all other entries stay; a resolve is queued exactly when no request covers that entry yet |
| `MessageData.MessageRequests.ResolveMessageDatas` | Telegram/SourceFiles/apiwrap.cpp:621-675 | Entry by entry: what has a request keeps it, every other entry of a table gets the one new request of this table and keeps its callbacks, the new requests ask for exactly these messages, and nothing else was sent |
| `MessageData.MessageRequests.EraseAnswered` | Telegram/SourceFiles/apiwrap.cpp:684-700 | The erasing loop removes exactly the entries with this id and collects each of their callbacks once |
| `MessageData.MessageRequests.Finalize` | Telegram/SourceFiles/apiwrap.cpp:677-707 | All callbacks of the answered entries have run, every other entry is covered as before, also when callbacks ask again |
| `MessageData.AfterReply` | Telegram/SourceFiles/apiwrap.cpp:677-703 | Taking the answered entries out of one table is taking them out of all tables: no other table holds the id |
| `MessageData.QuietMeansAllRan` | Telegram/SourceFiles/apiwrap.cpp:576-707 | With no resolve queued and nothing in flight nothing is pending and every callback has run exactly once |
| `MessageData.Run` | Telegram/SourceFiles/apiwrap.cpp:576-707 | Any run of requests, main-thread turns and replies with re-entrant callbacks: every callback passed has its own ticket, and when quiet nothing is pending and every ticket has run exactly once |
| `FileReferences.References.Enqueue` | Telegram/SourceFiles/apiwrap.cpp:2357-2407 | The first handler of an origin starts its one request, with the storage writer second where there is one; later ones join the list |
| `FileReferences.References.Refresh` | Telegram/SourceFiles/apiwrap.cpp:2420-2566 | For a message, a user photo or a full user that is not known any more, for a peer photo and without an origin the handler is answered at once; otherwise it waits under its origin, with at most one new request, and no waiting handler is lost |
| `FileReferences.References.Reply` | Telegram/SourceFiles/apiwrap.cpp:2391-2405 | The list the handlers assert is there, and all handlers on it run, also when one asks again for the same origin |
| `FileReferences.Answered` | Telegram/SourceFiles/apiwrap.cpp:2391-2394 | A request in flight has a list of its own origin, and removing both keeps the one-to-one relation |
| `FileReferences.NewListKeepsWriters` | Telegram/SourceFiles/apiwrap.cpp:2426-2442 | A new list has a client handler first and at most one writer, second, exactly for the stored origins |
| `FileReferences.Run` | Telegram/SourceFiles/apiwrap.cpp:2357-2566 | Over any run every request's handler has its own ticket and at most one request per origin is in flight; when all are answered every ticket has run exactly once and no list is left |
| `WebPages.MarkDue` | Telegram/SourceFiles/apiwrap.cpp:2278-2315 | The first pass marks exactly the due pages, gathers each of their messages once under its own channel, and the channel indices are a bijection onto 0..n-1 |
| `WebPages.Replace` | Telegram/SourceFiles/apiwrap.cpp:2338-2350 | The second pass undoes the encoding -index-2 for every mark and leaves the other ids |
| `WebPages.Settles` | Telegram/SourceFiles/apiwrap.cpp:2278-2350 | After both passes no temporary id is left and each due page holds the id of the request of its own channel that asks for its own message |
| `WebPages.OnlyDueAsked` | Telegram/SourceFiles/apiwrap.cpp:2317-2337 | The new requests ask for the messages of the due pages only, one message for each page |
| `WebPages.NoMarks` | Telegram/SourceFiles/apiwrap.cpp:2338 | Skipping the second pass is safe: with no request sent no page was marked |
| `WebPages.WebPageRequests.ResolveWebPages` | Telegram/SourceFiles/apiwrap.cpp:2278-2354 | In the fields themselves: every pending page without a request whose time has come and whose message is known gets a new request, for its own channel and with its own message; every other page keeps what it had; the new requests ask for messages of these pages only; earlier requests are untouched and no lost page is asked for again |
| `WebPages.WebPageRequests.GotWebPages` | Telegram/SourceFiles/apiwrap.cpp:2568-2583 | The pages in the answer are applied, as `processWebpage` does; then exactly the pages waiting for this request leave, and those still waiting are marked failed |
| `WebPages.ChangesKeepIds` | Telegram/SourceFiles/data/data_session.cpp:3685-3710 | The web pages in an answer only drop pages whose wait they end, and only add pages without a request; every other page keeps its id |
| `WebPages.ChangeMeans` | Telegram/SourceFiles/data/data_session.cpp:3685-3710 | What one web page of an answer does to every page: an empty one that was waited for has failed; one that is there now leaves the table; one that first gets a time enters it without a request; no other page moves |
| `WebPages.DelayedMeans` | Telegram/SourceFiles/apiwrap.cpp:2255-2269 | A page enters the table, without a request, exactly when it has not failed, has a time and is not there yet |
| `WebPages.InFlightUnlessLost` | Telegram/SourceFiles/apiwrap.cpp:2318-2337 | The positive id of a pending page is in flight, for the page's own message, exactly when its request has not failed |
| `WebPages.LostForever` | Telegram/SourceFiles/apiwrap.cpp:2278-2354 | A page of a failed request keeps its id over any events, until an answer or the program takes it out of the table |
| `WebPages.PageIsLost` | Telegram/SourceFiles/apiwrap.cpp:2318-2326 | A run after which a page waits for a request that is not in flight |
| `WebPages.Run` | Telegram/SourceFiles/apiwrap.cpp:2255-2354 | Over any run, with web pages received in updates too, the pages move as specified by each event, requests are lost only by failing, and every positive id is in flight with the page's own message exactly when its request did not fail |
| `Forward.Split` | Telegram/SourceFiles/apiwrap.cpp:3322-3413 | The batches are nonempty, change peer from one to the next, and cut the whole draft: the j-th message of a batch has its place in the draft, counted over the batches before, the peer of the batch, and the random id of this place |
| `Forward.RunsAreUnique` | Telegram/SourceFiles/apiwrap.cpp:3373-3412 | Any two ways to cut a draft into such batches agree on every peer and message, so the splitting is determined |
| `Forward.Sharing.Done` | Telegram/SourceFiles/apiwrap.cpp:3344-3349 | The success callback runs with the last successful answer and only if no batch failed |
| `Forward.RunReplies` | Telegram/SourceFiles/apiwrap.cpp:3327-3372 | For any order of answers the callback has run once when every batch succeeded and never otherwise |
| `InviteLinks.BringPermanentToFront` | Telegram/SourceFiles/api/api_invite_links.cpp:28-36 | Find and rotate move the first active permanent link to the front |
| `InviteLinks.FrontedKeepsOthers` | Telegram/SourceFiles/api/api_invite_links.cpp:28-36 | Moving to the front keeps every link and the order of all the others |
| `InviteLinks.FrontedOkIff` | Telegram/SourceFiles/api/api_invite_links.cpp:28-36 | The moved list has its active permanent link only at index 0 exactly when it had at most one |
| `InviteLinks.RemovePermanent` | Telegram/SourceFiles/api/api_invite_links.cpp:38-45 | Removes exactly the active permanent links, in order |
| `InviteLinks.LookupIsComplete` | Telegram/SourceFiles/api/api_invite_links.cpp:129-141 | With the front kept, looking at element 0 alone finds the active permanent link whenever there is one |
| `InviteLinks.ApplyKeepsFrontIff` | Telegram/SourceFiles/api/api_invite_links.cpp:162-205 | Each of the seven operations on a slice keeps the active permanent link at the front exactly when its event is allowed: a first list with at most one such link, no stored link behind the front turned into one |
| `InviteLinks.PrependedMeans` | Telegram/SourceFiles/api/api_invite_links.cpp:162-205 | A created link is in front, or second behind an active permanent one if it is not permanent; a permanent one takes the place of that one; all other links stay in order, and the count says so |
| `InviteLinks.EditedMeans` | Telegram/SourceFiles/api/api_invite_links.cpp:279-302 | The first link with the edited text is replaced, or erased when the edit revokes it; all other links stay in place |
| `InviteLinks.MyPermanentMeans` | Telegram/SourceFiles/api/api_invite_links.cpp:620-676 | What is in front afterwards, what is behind it and the count, for every old front |
| `InviteLinks.NoPermanentMeans` | Telegram/SourceFiles/api/api_invite_links.cpp:678-707 | An active permanent front is taken off, every other link stays |
| `InviteLinks.ExternalMeans` | Telegram/SourceFiles/api/api_invite_links.cpp:522-530 | Link by link: those with the text of the update are the update, the others as before |
| `InviteLinks.FirstListMeans` | Telegram/SourceFiles/api/api_invite_links.cpp:415-456 | Without a known permanent link all received links are taken, the first active permanent one moved to the front |
| `InviteLinks.LaterListMeans` | Telegram/SourceFiles/api/api_invite_links.cpp:415-456 | With a known permanent link it stays in front, and behind it are, in the order received, exactly the received links that are not active permanent and do not have its text |
| `InviteLinks.InactiveMeans` | Telegram/SourceFiles/api/api_invite_links.cpp:38-45 | The links kept are exactly those that are revoked or not permanent, in order |
| `InviteLinks.NoActivationIsAllowed` | Telegram/SourceFiles/api/api_invite_links.cpp:279-302 | A server that never turns an inactive link into an active permanent one only sends allowed edits and updates |
| `InviteLinks.ReachableSlicesAreOk` | Telegram/SourceFiles/api/api_invite_links.cpp:162-707 | In every run of allowed events every first slice has at most one active permanent link, at index 0 |
| `InviteLinks.HarmlessServerKeepsFront` | Telegram/SourceFiles/api/api_invite_links.cpp:162-707 | With a server that lists at most one active permanent link and activates no stored link by edits or updates, every reachable first slice has at most one, at index 0 |
| `InviteLinks.InviteLinks.PrependMyToFirstSlice` | Telegram/SourceFiles/api/api_invite_links.cpp:162-205 | The in-place prepend is the specified operation on all slices, and the link of the chat follows |
| `InviteLinks.InviteLinks.PerformEdit` | Telegram/SourceFiles/api/api_invite_links.cpp:237-279 | One edit request per link; further callers join it; a link being deleted is left alone |
| `InviteLinks.InviteLinks.EditDone` | Telegram/SourceFiles/api/api_invite_links.cpp:279-319 | The callbacks entry that is dereferenced without a check is there, all its callbacks run even when they call in again, the slice is edited as specified, and a link of mine that replaces the old one is prepended |
| `InviteLinks.InviteLinks.MyLinksDone` | Telegram/SourceFiles/api/api_invite_links.cpp:415-456 | The slice becomes the received one with its permanent link in front, or keeps the known permanent link and takes the rest |
| `InviteLinks.InviteLinks.SetMyPermanent` | Telegram/SourceFiles/api/api_invite_links.cpp:620-676 | Sets or replaces the front, or only its usage when the text is the same |
| `InviteLinks.InviteLinks.ClearMyPermanent` | Telegram/SourceFiles/api/api_invite_links.cpp:678-707 | Removes the front exactly when it is an active permanent link |
| `InviteLinks.InviteLinks.ApplyExternalUpdate` | Telegram/SourceFiles/api/api_invite_links.cpp:522-530 | Every link with the text of the update is replaced, no other |
| `InviteLinks.ParseSlice` | Telegram/SourceFiles/api/api_invite_links.cpp:721-741 | The received links that parse, in order, without the permanent link that is already known |
| `InviteLinks.ReadableMeans` | Telegram/SourceFiles/api/api_invite_links.cpp:721-741 | The parsed links are exactly the received ones that parse, in order |
| `InviteLinks.Run` | Telegram/SourceFiles/api/api_invite_links.cpp:72-770 | Over any run of calls and replies on the object, with re-entrant callbacks, the first slices are what the calls make of them one after the other, so with a harmless server each has at most one active permanent link, at index 0; with nothing in flight no callback and no list is waited for |
| `MessagesSearch.RequestToToken` | Telegram/SourceFiles/api/api_messages_search.cpp:47-62 | The loop builds the lines joined by newlines that the injectivity is about |
| `MessagesSearch.TokenMeans` | Telegram/SourceFiles/api/api_messages_search.cpp:47-62 | The token, built up: the query, a line with the id of the sender, and for each reaction a line with custom and its id, or emoji and its text |
| `MessagesSearch.TokenIsInjective` | Telegram/SourceFiles/api/api_messages_search.cpp:47-62 | Without newlines in query and emoji, two requests have the same token exactly when they are equal up to reactions that are serialized alike (paid, empty, custom zero) |
| `MessagesSearch.TokensCollide` | Telegram/SourceFiles/api/api_messages_search.cpp:47-62 | Concrete collisions: a query with a newline against a sender, and the paid against the empty reaction |
| `MessagesSearch.NewlinesAlwaysCollide` | Telegram/SourceFiles/api/api_messages_search.cpp:47-62 | The condition on newlines is needed for every request with a sender or a tag: another request, whose query is the whole token, has the same token |
| `MessagesSearch.JoinInjective` | Telegram/SourceFiles/api/api_messages_search.cpp:47-62 | Lines without newlines can be recovered from their joined string |
| `MessagesSearch.CacheHitAnswersTheRequest` | Telegram/SourceFiles/api/api_messages_search.cpp:88-97 | A page found in the cache was the offset-zero answer to this very request, up to reactions serialized alike |
| `MessagesSearch.Search.SearchMessages` | Telegram/SourceFiles/api/api_messages_search.cpp:75-79 | A new search resets the offset and shows the cached page; or it sends one request and awaits it; or, while a Delete is out, it leaves its token with the history queue. The awaited reply is then to the current search under its own token |
| `MessagesSearch.Search.DeleteSent` | Telegram/SourceFiles/data/data_histories.cpp:918-933 | Sending a Delete cancels the searches in flight and keeps their callbacks, in the order they were sent, behind those already waiting |
| `MessagesSearch.Search.DeleteDone` | Telegram/SourceFiles/data/data_histories.cpp:1139-1149 | With the last Delete all waiting callbacks run, reading the request and the offset of that moment, and the last is awaited; its reply will be filed wrongly exactly when its token is not cached, the offset is zero, and the token is not that of the request |
| `MessagesSearch.WrongTokenMisfiles` | Telegram/SourceFiles/api/api_messages_search.cpp:98-141 | After the last Delete, the next reply leaves an honest cache honest exactly unless the last waiting token was wrong and the server has not given that very answer rightly before |
| `MessagesSearch.Search.Received` | Telegram/SourceFiles/api/api_messages_search.cpp:148-206 | A reply with another id changes nothing; an accepted one is shown (a not-modified one as empty), cached under its token only at offset zero, and moves the offset to its last message, or to zero without messages |
| `MessagesSearch.Search.Reply` | Telegram/SourceFiles/api/api_messages_search.cpp:124-127 | Only the reply to the current request at the current offset is accepted and shown; an honest cache stays honest exactly unless its page is filed under the token of another request and is not such an answer already given |
| `MessagesSearch.Run` | Telegram/SourceFiles/api/api_messages_search.cpp:75-206 | Over any run of searches, replies and Delete requests: the awaited reply is to the current request at the current offset, no callback waits while a search is in flight, every search is cached, waiting or sent, every answer given is a reply to a request that was sent, and the cache is honest when no Delete ended with a wrong token last in the queue; without an ended Delete it always is, and the awaited token is the current one |
| `MessagesSearch.PostponedCallbackMisfiles` | Telegram/SourceFiles/api/api_messages_search.cpp:81-146 | A run in which the callback of a search kept back by a Delete stores a page under the token of another query |
| `DialogsLoader.ScanOffset` | Telegram/SourceFiles/apiwrap.cpp:962-995 | The two reversed loops compute the offset that the two lemmas below characterize |
| `DialogsLoader.LastCompleteMeans` | Telegram/SourceFiles/apiwrap.cpp:969-981 | Peer and message id come from the last dialog that has both, and are missing exactly when none has |
| `DialogsLoader.LastDateMeans` | Telegram/SourceFiles/apiwrap.cpp:982-1006 | The date comes from the last dialog whose top message is present with a nonzero date, and is zero exactly when there is none |
| `DialogsLoader.DateOfMeans` | Telegram/SourceFiles/apiwrap.cpp:983-991 | The date of a dialog is that of the last listed message with its peer and top message, or zero without one |
| `DialogsLoader.ScannedOffset` | Telegram/SourceFiles/apiwrap.cpp:962-1007 | The next offset in the fields of the dialogs and messages: the date of the last dialog whose top message is listed with a date, the peer and message of the last dialog that has both; there is none exactly when no dialog is dated |
| `DialogsLoader.OffsetIsOneDialog` | Telegram/SourceFiles/apiwrap.cpp:962-1007 | There is a next offset and its date is that of the dialog its peer and id come from exactly when the last complete dialog is dated |
| `DialogsLoader.OffsetCanMixDialogs` | Telegram/SourceFiles/apiwrap.cpp:962-1007 | A reply for which the next offset takes its date from another dialog than its peer and id |
| `DialogsLoader.OneOfEachInFlight` | Telegram/SourceFiles/apiwrap.cpp:856-928 | At most one list request and one pinned request of a folder are in flight |
| `DialogsLoader.FinishedLoadHasNoFlights` | Telegram/SourceFiles/apiwrap.cpp:1017-1034 | When a load is finished or absent none of its requests is in flight, so no reply of it can touch a later load |
| `DialogsLoader.Loader.RequestMoreDialogs` | Telegram/SourceFiles/apiwrap.cpp:856-928 | Exactly when the folder is idle a list request is sent, with the pinned request if it was neither answered nor asked |
| `DialogsLoader.Loader.RequestPinnedDialogs` | Telegram/SourceFiles/apiwrap.cpp:1036-1067 | The pinned request is sent once per load |
| `DialogsLoader.Loader.ListReply` | Telegram/SourceFiles/apiwrap.cpp:881-899 | The load state a list reply looks up is there. After a full list, or a part without a dated dialog, the folder leaves the table and one notification is posted if its pinned chats were received, else its list counts as received; after any other part the load takes the next offset and is free for the next request; a not-modified reply changes nothing, and only that leaves the load stuck |
| `DialogsLoader.Loader.ListFailed` | Telegram/SourceFiles/apiwrap.cpp:918-919 | The state that the fail handler dereferences without a check is there and waits for this very request |
| `DialogsLoader.Loader.PinnedReply` | Telegram/SourceFiles/apiwrap.cpp:1042-1048 | The pinned answer is recorded in the load that asked for it; if its list was received the folder leaves the table and one notification is posted, else neither happens |
| `DialogsLoader.Loader.StuckIff` | Telegram/SourceFiles/apiwrap.cpp:881-899 | A live load that waits for its list has its own request in flight exactly when its last reply was not not-modified |
| `DialogsLoader.StuckForever` | Telegram/SourceFiles/apiwrap.cpp:856-862 | A stuck load stays stuck over any later calls and replies, and is never notified of |
| `DialogsLoader.StuckLoad` | Telegram/SourceFiles/apiwrap.cpp:883-886 | A run after which nothing is in flight and the main list still waits |
| `DialogsLoader.Run` | Telegram/SourceFiles/apiwrap.cpp:849-1079 | Over any run requests of one kind and folder never double; every folder asked for was loaded and loads start only by such calls; a folder has posted exactly as many notifications as the smaller of how often its list and how often its pinned chats were completed by answers; every load that was started is alive or has posted exactly one; a waiting load has its request in flight unless that was answered with not-modified |
| `StickerSets.StickersApi.Save` | Telegram/SourceFiles/apiwrap.cpp:1439-1713 | The whole call in place: sets, order and recent pack become the specified ones, exactly the specified install, uninstall and clearing requests are sent, requests of an earlier save are cancelled, and the reorder goes out at once or waits |
| `StickerSets.StickersApi.CancelOld` | Telegram/SourceFiles/apiwrap.cpp:1455-1460 | Exactly the changes and the reorder of the earlier save of this kind and the two clearing requests are cancelled; all other requests stay, and no change of the new save is pending |
| `StickerSets.PassesMakeFinal` | Telegram/SourceFiles/apiwrap.cpp:1531-1674 | The four passes over removed sets, flags, order and leftovers make of each set what one function of its old value says |
| `StickerSets.WhatBecomesOfASet` | Telegram/SourceFiles/apiwrap.cpp:1531-1674 | Every field of every set after the call, and exactly which sets are gone, in terms of the old fields, the two lists and the kind |
| `StickerSets.ArchivedSetsStay` | Telegram/SourceFiles/apiwrap.cpp:1662-1674 | An archived set outside the order stays exactly as it was, removed or not, unless the cloud recent stickers take it with them |
| `StickerSets.NeededSetsStay` | Telegram/SourceFiles/apiwrap.cpp:1578-1592 | A featured, special, emoji or locked set stays, removed or not, and what keeps it does not change |
| `StickerSets.DatesAreKept` | Telegram/SourceFiles/apiwrap.cpp:1655-1659 | An install date once given stays unless the set is uninstalled |
| `StickerSets.UselessSetsGo` | Telegram/SourceFiles/apiwrap.cpp:1662-1674 | A set outside the order that nothing keeps, not archived, and removed or not installed, is gone |
| `StickerSets.OrderIsRestricted` | Telegram/SourceFiles/apiwrap.cpp:1626-1660 | The new order is the given one restricted to surviving sets, in the same sequence |
| `StickerSets.RestrictPicks` | Telegram/SourceFiles/apiwrap.cpp:1626-1660 | It has exactly the given ids that survive, as often as given and in the same order |
| `StickerSets.OrderedSetsAreInstalled` | Telegram/SourceFiles/apiwrap.cpp:1655-1659 | With a nonzero clock every set in the new order is installed with a nonzero date |
| `StickerSets.InstalledIffOrdered` | Telegram/SourceFiles/apiwrap.cpp:1613-1660 | A surviving set of the saved kind that is not archived is installed exactly when it is in the order |
| `StickerSets.SurvivorsHaveReasons` | Telegram/SourceFiles/apiwrap.cpp:1662-1674 | No surviving set lacks a reason to be kept, and stickers and kind never change |
| `StickerSets.OtherSetsUnchanged` | Telegram/SourceFiles/apiwrap.cpp:1531-1674 | A set of another kind in neither list is left as it is, and is dropped exactly when nothing needed it |
| `StickerSets.RemovedLeaveRecent` | Telegram/SourceFiles/apiwrap.cpp:1567-1577 | No sticker of a removed set stays in the recent pack, and nothing new enters it |
| `StickerSets.RecentPicks` | Telegram/SourceFiles/apiwrap.cpp:1540-1577 | The recent pack keeps, in order, exactly the entries whose sticker is in no removed set, and is emptied with the cloud recent stickers |
| `StickerSets.StickersApi.EraseRecent` | Telegram/SourceFiles/apiwrap.cpp:1570-1577 | The iterator loop keeps exactly the entries whose sticker is not in the set, in order |
| `StickerSets.UninstallsAreRemovals` | Telegram/SourceFiles/apiwrap.cpp:1567-1594 | The server is asked to uninstall exactly the removed sets that are present, not archived and not cloud recent ones; the custom set only if no cloud recent set was removed before it |
| `StickerSets.InstallsAreReturns` | Telegram/SourceFiles/apiwrap.cpp:1627-1654 | The server is asked to install exactly the archived sets the order brings back |
| `StickerSets.InstallsOnce` | Telegram/SourceFiles/apiwrap.cpp:1627-1654 | Each of them is asked for once, however often the order names it |
| `StickerSets.AsksMean` | Telegram/SourceFiles/apiwrap.cpp:1567-1654 | Which sets one save asks the server to install and to uninstall, in terms of the sets before the call |
| `StickerSets.AskedSetsEndAsAsked` | Telegram/SourceFiles/apiwrap.cpp:1531-1674 | No set is both installed and uninstalled by one save; a set the server installs ends installed; one it uninstalls ends installed all the same exactly when it is also in the order, something keeps it and it does not go with the cloud recent stickers |
| `StickerSets.DisjointListsAgree` | Telegram/SourceFiles/boxes/stickers_box.cpp:2647-2663 | With disjoint lists, as the sticker box passes them, every set the server uninstalls ends uninstalled |
| `StickerSets.SetInBothLists` | Telegram/SourceFiles/apiwrap.cpp:1567-1660 | A featured set in both lists, uninstalled on the server and installed here |
| `StickerSets.StickersApi.StickerSetDisenabled` | Telegram/SourceFiles/apiwrap.cpp:1498-1508 | An answered change leaves the table of its kind, and the reorder goes out exactly with the last one |
| `StickerSets.StickersApi.Reply` | Telegram/SourceFiles/apiwrap.cpp:1481-1508 | Any answer, with success or failure, extends the history by the answer and at most one reorder with the captured order |
| `StickerSets.ReorderIsOfLatestSave` | Telegram/SourceFiles/apiwrap.cpp:1455-1484 | A reorder carries the order of the latest save of its kind, never of one that was superseded |
| `StickerSets.ReorderAfterAnswers` | Telegram/SourceFiles/apiwrap.cpp:1498-1508 | Every install and uninstall request of its save is answered before the reorder is sent |
| `StickerSets.OneReorderPerSave` | Telegram/SourceFiles/apiwrap.cpp:1708-1712 | Between two reorders of one kind a new save has started |
| `StickerSets.Run` | Telegram/SourceFiles/apiwrap.cpp:1439-1713 | Over any run of saves of all kinds and replies in any order: sets, orders and recent pack are what the saves make of them one after the other, the history holds exactly these saves and only answers that came, its reorders are lawful in the sense of the three lemmas above, and a kind with no change in flight has sent the reorder of its latest save exactly when that order has two or more sets |

## Left out

- MTProto serialization, the network, Qt signals, local storage, logging and the user interface: only send, reply, cancel and a queued main-thread call are modelled.
- LZMA, RSA and file access in the packer, and both updaters: foreign calls and file-system work.
- The contents of answers beyond what the modelled functions read: applying users, chats, messages and documents.
- `ApiHash.HashUpdate`: the overloads for narrower and signed integers convert to 64 bits first and are not written out; `CountDocumentVectorHash` is the same fold over document ids.
- `SendProgress`: request progress values and the choice of the action sent; the throttle does not depend on them.
- `WebPages`: the timer that calls `resolveWebPages` again; which fields of a page in an answer differ from the known ones, so `applyChanges` may apply or ignore it.
- `MessageData`: the table of plain messages and the tables of channels are one map keyed by the owner of the table; an absent table is an empty one.
- `FileReferences.References.Refresh`: what each request asks for and how the references in the answer are applied; an origin only decides whether and with which handlers it is asked.
- `Forward.Split`: flags, local copies of messages and the history queue; the random ids are a function of the position.
- `InviteLinks`: the stream of updates, links joined by other users, other administrators, paging beyond the first slice; the `count` of a slice is computed but no bound on the list is claimed, since `setMyPermanent` inserts without counting.
- `MessagesSearch`: of the history queue only what concerns the searches of one chat: Delete requests starting and ending, and the callbacks they keep back. Destroying the search object, which cancels its last request, is left out.
- `MessagesSearch.RequestToToken`: the sender is the natural number of its id, and text is a sequence of characters without encoding.
- `DialogsLoader.Loader.RequestMoreDialogsIfNeeded`: contacts and shortcuts requested at its end, which keep no state here.
- `StickerSets.StickersApi.Save`: the flags that tell local storage what to write, and the notification at the end; the clock is read once for the whole call.
- `StickerSets.StickersApi.Reply`: the reload of the sets after a failed reorder.
- Request ids are unbounded integers and never wrap.
- The merged search over a migrated chat, saved cloud drafts and the values passed to the callbacks of blocked peers: the code gives them no invariant worth stating.
- Fields that are plain loaders or accessors: they would only add easy members.
