# Arisa: a verified model of the database bridge

Arisa connects KakaoTalk's database to gRPC. This project models the parts of it that do more than plumbing, and proves what they promise:

- **Key derivation and the key cache** (`BigEndian`, `Pkcs12`, `Kdf`, `CacheHistory`, `KeyCache`). `Pkcs12` states RFC 7292, appendix B.2, as the RFC does: truncated copies, iterated hashing, addition of big-endian integers modulo 2^v; and, independently of those steps, says byte by byte what a key is, which those steps alone compute. `Kdf` is the program: cyclic indexing, 16-bit sums with a running carry, an array rewritten in place. The program computes the RFC's key. `KeyCache` puts the shared cache on top; over every sequence of calls it cannot be told from no cache at all.
- **Mapping rows to events** (`Records`, `Feeds`, `Revisions`, `Evaluation`, `Termination`, `Recovery`, `Contents`, `Mapping`). Mapping a row can require mapping the rows it refers to. `Evaluation` describes this with a depth limit, `Termination` says exactly when it ends, `Recovery` and `Contents` say what the result contains, told from the columns of the rows, and `Mapping` is the recursion itself, without a limit, on the rows it ends on.
- **Bulk look-ups** (`Batches`, `Messages`, `Members`). Distinct ids in hash-set order, chunks of 500, a hash map, answers in request order: the same answer as one look-up at a time.
- **The poller** (`Extremes`, `Polling`, `PollingHistory`). A cursor over a table that grows while it is read.
- **Media uploads** (`UploadProtocol`, `UploadGrammar`, `UploadSender`, `UploadStore`, `MediaHistory`, `MediaAcceptance`, `MediaSafety`, `MediaRetention`, `SlowUpload`, `MediaErasure`). The receiving state machine against a declarative grammar, the Python sender, the round trip, rollback, and histories in which any number of uploads, requests that carry their files, dropped calls and clean-ups interleave.

What the program gets from elsewhere is a parameter: the hash (any function to 20 bytes), JSON reading and printing, `str::parse`, decryption, the outcome of each query, hash call and disk operation, fresh file names, and time. An operation that can fail is described by a schedule that says which calls do, so each statement is about every schedule.

## What was found

- Only a direct self-reference is guarded. The recursion ends exactly if it never comes back to a row it is still mapping, and then within one level per row of the database (`Termination.MappingEnds`). A row is mapped to an event exactly if its references have no cycle and lead only to rows that can be assembled and queried (`Termination.MappedIff`); a row on a cycle is at best answered with an error, when a reference before the cycle fails (`Termination.CyclicRowCanFail`). Two deletion feeds that name each other never end (`Termination.MutualDeletionsDiverge`).
- The poller delivers each row it should, exactly once, if and only if no row is added at or below its cursor (`PollingHistory.ExactlyOnceIffTimely`). A row that appears after one with a larger id has been read is lost (`PollingHistory.LateRowIsLost`).
- A chunked upload that fails leaves the directory as it was (`UploadStore.StoreChunks`), in every interleaving (`MediaErasure.RefusedLeavesNoTrace`). A request that carries its files is undone exactly unless the first thing to go wrong is the write of a file that was created (`UploadStore.Store`, `UploadStore.UndoneUnlessCutShort`).
- An accepted upload is complete exactly if no clean-up found one of its files overdue in the meantime (`MediaRetention.IntactIffNotSwept`), which is certain for ten minutes after its metadata (`MediaSafety.AcceptedIsComplete`). A slower upload can be accepted when its first file is gone (`SlowUpload.AcceptedButIncomplete`).
- `get_messages` fetches all rows before it maps any. Its answer is that of single requests made in order, errors included, if every message is there; if one is missing, exactly if every message before the first missing one can be mapped (`Mapping.BulkAgreesWithSingles`, with an input on which they differ in `Mapping.BulkErrorDiffers`).

## Model

| member | source | states |
|---|---|---|
| `BigEndian.KeepsUnique` | src/crypto/crypto.rs:156-163 | two byte strings of one length that differ as integers by a multiple of 256^length are equal, so a sum modulo 2^512 has one representation |
| `BigEndian.KeepsIsModulo` | src/crypto/crypto.rs:156-163 | a byte string that keeps the low-order bytes of v denotes v modulo 256^length |
| `Pkcs12.AddOneUnique` | src/crypto/crypto.rs:153-163 | step 6C has one result for each block, and as an integer it is (block + digest + 1) mod 2^v |
| `Pkcs12.DerivePrefix` | src/crypto/crypto.rs:141-168 | a shorter key is a prefix of a longer one with the same other inputs, for all lengths |
| `Pkcs12.OneKey` | src/crypto/crypto.rs:121-169 | a byte string is the derived key exactly if its bytes are those of a chain of digests: the first of the id bytes, the salt repeated to whole blocks and the password likewise, each hashed the given number of times, and each next input the one before with every 64-byte block raised by the repeated digest plus one, modulo 2^512 |
| `Kdf.PadIsFill` | src/crypto/crypto.rs:131-140 | cyclic indexing produces the RFC's truncated copies, and a whole number of 64-byte blocks |
| `Kdf.RepeatedIsCopies` | src/crypto/crypto.rs:153-155 | the digest repeated over a block is the RFC's string B |
| `Kdf.CarryTurnAt` | src/crypto/crypto.rs:158-162 | one turn of the carry loop keeps the integer equation between the bytes done, the carry, and the two operands |
| `Kdf.CarryLoop` | src/crypto/crypto.rs:157-162 | with 16-bit sums that never overflow and a carry of 0 or 1, the block becomes the RFC's sum and everything around it stays |
| `Kdf.AddBlock` | src/crypto/crypto.rs:156-163 | one block of the input is replaced by its sum with the digest plus one, the other bytes are unchanged |
| `Kdf.AddBlocks` | src/crypto/crypto.rs:156-163 | `chunks_exact_mut` reaches every byte of the padded input: all blocks are updated as in step 6C |
| `Kdf.Digesting` | src/crypto/crypto.rs:145-151 | the chained hash calls give the iterated hash, and succeed exactly if none of them fails |
| `Kdf.DeriveBlocks` | src/crypto/crypto.rs:144-165 | the outer loop produces the RFC's stream A_1...A_c although it updates the input once more than needed |
| `Kdf.Pkcs12Sha1Kdf` | src/crypto/crypto.rs:121-169 | the whole function returns the key of RFC 7292, appendix B.2, also in the byte-by-byte sense of OneKey, for every password, salt, id, iteration count and length, and fails exactly if a hash call fails |
| `Kdf.HashCallsMeaning` | src/crypto/crypto.rs:144-151 | the hash calls that can fail are the number of digests times the number of rounds |
| `CacheHistory.CacheIsTransparent` | src/crypto/crypto.rs:97-112 | over every sequence of look-ups the cache stays faithful, a success is the derived value of the caller's own key, and an error is one the caller would have met without a cache |
| `CacheHistory.DerivedOnce` | src/crypto/crypto.rs:105-110 | nothing is derived twice or although it was cached, and nothing leaves the cache |
| `CacheHistory.DerivesWhatIsWanted` | src/crypto/crypto.rs:97-112 | without failures, exactly the requested salts that were not cached are derived |
| `KeyCache.DeriveKey` | src/crypto/crypto.rs:115-118 | the derived key has 32 bytes, so the conversion cannot panic and the lock cannot be poisoned |
| `KeyCache.KeyOfMeaning` | src/crypto/crypto.rs:115-118 | the key of a salt is the one 32-byte key for the fixed password, id byte 1 and two iterations |
| `KeyCache.PasswordMeaning` | src/crypto/crypto.rs:48-51 | the password bytes are sixteen characters as two bytes each and a terminating zero |
| `KeyCache.SaltMeaning` | src/crypto/crypto.rs:98-102 | the salt is the prefix of the selector and the decimal user id, cut or zero-padded to sixteen bytes |
| `KeyCache.Decryptor.Key` | src/crypto/crypto.rs:97-113 | a call returns and stores what the history of the shared cache says; an invalid `enc` changes nothing |
| `KeyCache.Decryptor.CloneOf` | src/crypto/crypto.rs:56-60 | a clone shares the store |
| `KeyCache.EveryCallGetsItsKey` | src/crypto/crypto.rs:97-118 | from an empty store every successful call gets the one key for the salt of its own arguments, and every error comes from its own selector or its own hash calls |
| `Evaluation.FirstWithId` | src/database/mapping.rs:88-91 | the position found is the first with the id, and the length if there is none |
| `Evaluation.Others` | src/database/mapping.rs:68-72 | exactly the ids other than the row's own |
| `Feeds.DeletionRead` | src/database/feed.rs:77-80 | a deletion names the message under `logId`, an integer or a string holding one, and is refused without it |
| `Feeds.ChangeRead` | src/database/feed.rs:81-85 | a change also has its revision, and reports the first of the two that is missing |
| `Feeds.HiddenRead` | src/database/feed.rs:86-97 | a rewrite hides its own message; the other kind hides those listed, and is refused without a list |
| `Feeds.LogIdsConcat` | src/database/feed.rs:90-94 | the listed ids are read entry by entry, in order |
| `Feeds.LogIdOfOne` | src/database/feed.rs:90-94 | an entry gives its `logId`, or nothing if that is no id |
| `Feeds.JoinRead` | src/database/feed.rs:63-68 | a join carries the users listed, and is refused without a list |
| `Feeds.UserOfOne` | src/database/feed.rs:149-154 | an entry is a user exactly if it has an id and a nickname |
| `Feeds.MemberRead` | src/database/feed.rs:70-76 | feeds about one member say which and what, and a kick by whom |
| `Feeds.HostRead` | src/database/feed.rs:98-101 | a change of host tells the one before from the one after |
| `Feeds.SpeakerRead` | src/database/feed.rs:107-114 | the speaker mode is on at 1 and off at 2, and anything else is refused |
| `Feeds.OthersRead` | src/database/feed.rs:116-118 | every other type is passed on as it came |
| `Feeds.NotJson` | src/database/feed.rs:53-54 | exactly what is no JSON is refused as such |
| `Termination.FollowsOthersOnly` | src/database/mapping.rs:26-38 | only feeds refer to other messages, and the guards drop self-references |
| `Termination.SnapshotsDecide` | src/database/mapping.rs:41-115 | mapping a row ends, succeeds and fails as the snapshots of the ids it refers to do; a sound row fails only with one of them |
| `Termination.EnoughFuel` | src/database/mapping.rs:22-138 | a depth equal to the longest chain of calls is enough, where a reference is no call if one before it fails |
| `Termination.SuccessBoundsWalks` | src/database/mapping.rs:22-138 | from a row mapped to an event no chain of references is longer than the depth used, and none leads to a row that cannot be assembled or queried |
| `Termination.AcyclicBound` | src/database/mapping.rs:22-138 | without a repetition, a chain has at most one row more than the database |
| `Termination.CycleNeverEnds` | src/database/mapping.rs:22-138 | a row whose mapping calls for itself would have to end at ever smaller depths, so it does not end |
| `Termination.MappingEnds` | src/database/mapping.rs:22-138 | the recursion ends exactly if it never comes back to a row it is still mapping, and exactly if it ends within one level per row |
| `Termination.EndsIffAcyclic` | src/database/mapping.rs:22-138 | it ends on every row whose references have no cycle, and where no row referred to is broken on no other |
| `Termination.MappedIff` | src/database/mapping.rs:22-138 | some depth produces an event exactly if the references have no cycle and lead only to rows that can be assembled and queried, and then one level per row is enough |
| `Termination.FuelIsIrrelevant` | src/database/mapping.rs:22-138 | once the recursion ends, the result does not depend on the depth allowed |
| `Termination.RingDiverges` | src/database/mapping.rs:52-78 | a row whose mapping comes back to a row still being mapped exceeds every depth, through whichever references |
| `Termination.MutualDeletionsDiverge` | src/database/mapping.rs:53-59 | an input: two deletion feeds that name each other exceed every depth |
| `Termination.CyclicRowCanFail` | src/database/mapping.rs:67-78 | an input: a feed on a cycle of references is answered with the error of an earlier reference |
| `Termination.NeverMessageNotFound` | src/database/mapping.rs:117-138 | mapping never reports a missing message, at any depth |
| `Termination.MissingIsTheRequested` | src/database/messages.rs:36-48 | `get_message` reports a missing message exactly if the requested row itself is missing |
| `Recovery.SnapshotHasId` | src/database/mapping.rs:117-138 | a snapshot has the id it was asked for, on both of its branches |
| `Recovery.SnapshotsResolve` | src/database/mapping.rs:68-77 | the snapshots collected are those of the ids that resolve, position by position |
| `Recovery.PreviousMessages` | src/database/mapping.rs:67-110 | the previous messages are the snapshots of the other ids that resolve, in order, with at most one text replaced or one entry appended, and every id is one of `message_ids` |
| `Recovery.HiddenTextRecovered` | src/database/mapping.rs:79-106 | a usable hidden text stands under the row itself if listed, else under the first listed id; a listed row has exactly one entry |
| `Recovery.RewriteSnapshot` | src/database/mapping.rs:126-134 | a rewritten open-chat row (feedType 13) with usable metadata is found as a snapshot with its recovered text |
| `Recovery.RewriteSeenByOthers` | src/database/mapping.rs:53-66 | deletion and change feeds about a rewritten row carry the recovered text |
| `Recovery.RewriteSeenWhenHidden` | src/database/mapping.rs:67-106 | the first entry that a hidden-message feed has for a rewritten row it lists holds the recovered text, unless the feed has a hidden text of its own aimed at that row, which then stands there instead |
| `Contents.MessageShowsRow` | src/database/mapping.rs:209-268 | an ordinary message is mapped to its row: text and attachment decrypted with the selector in its metadata cut to 32 bits, the attachment re-rendered or empty, and id, thread, scope, type, channel, author and revisions of the row |
| `Revisions.OneLog` | src/database/mapping.rs:191-206 | the modification log is the one order of the entries read in which revisions ascend and those of one revision stay as they came |
| `Revisions.EntriesMeaning` | src/database/mapping.rs:174-189 | the entries are a list in the metadata, or a string there that reads as one, and otherwise none |
| `Revisions.RevisionsConcat` | src/database/mapping.rs:191-204 | they are read one by one, in order |
| `Revisions.RevisionOfOne` | src/database/mapping.rs:195-203 | an entry is a revision exactly if it has a 64-bit number, a text and a 32-bit selector, with which the text is decrypted |
| `Contents.UnreadableFails` | src/database/mapping.rs:242-244 | a feed whose decrypted text cannot be read fails with the reason |
| `Contents.PlainFeedShown` | src/database/mapping.rs:111-114 | a feed that refers to no message is shown as read |
| `Contents.ReferenceShown` | src/database/mapping.rs:53-66 | a deletion or change feed keeps its id and revision and shows the snapshot of that message, and none of itself |
| `Contents.HiddenShown` | src/database/mapping.rs:67-110 | a hidden-message feed keeps its ids, channel and author |
| `Contents.ReferenceShowsMessage` | src/database/mapping.rs:53-66 | a deletion or change feed about an ordinary message shows that message as its row says |
| `Contents.HiddenShowsMessage` | src/database/mapping.rs:67-77 | so does a hidden-message feed that lists it, unless it has a text of its own for it |
| `Contents.HiddenTextMeaning` | src/database/mapping.rs:145-167 | the hidden text is `previous_message` decrypted with `previous_enc`, a 32-bit number or a string holding one |
| `Contents.TextPlaced` | src/database/mapping.rs:79-106 | it goes into the first entry of its message, or into one made up from the row |
| `Mapping.MapMessage` | src/database/mapping.rs:22-39 | the recursion itself ends and gives what the depth-limited description gives, on every row that some depth is enough for, with an event or an error |
| `Mapping.EnrichFeed` | src/database/mapping.rs:41-115 | enrichment agrees with its description, including which error wins |
| `Mapping.CollectSnapshots` | src/database/mapping.rs:68-77 | the filtered iteration stops at the first error and otherwise keeps the snapshots that exist, in order |
| `Mapping.PlaceHiddenText` | src/database/mapping.rs:79-106 | searching, replacing and pushing place the hidden text as described |
| `Contents.SnapshotOfMessage` | src/database/mapping.rs:122-125 | the snapshot of an ordinary message is the message |
| `Contents.SnapshotOfFeed` | src/database/mapping.rs:126-134 | the snapshot of a feed is the first entry about its message in a hidden-message feed; other feeds have none |
| `Contents.SnapshotOfNothing` | src/database/mapping.rs:135-136 | a missing message has no snapshot, and every other error is passed on |
| `Mapping.GetMessageSnapshot` | src/database/mapping.rs:117-138 | a missing message becomes no snapshot, every other error is passed on |
| `Mapping.GetMessage` | src/database/messages.rs:36-41 | the one-element bulk request gives the row, so the fallback error is never used |
| `Mapping.GetMessages` | src/database/messages.rs:43-48 | rows are fetched first and then mapped in order up to the first failure; only the rows reached need to end |
| `Mapping.BulkAgreesWithSingles` | src/database/messages.rs:36-48 | if every message is there, a bulk request answers what single requests in order would, errors included; otherwise it names the first missing message, and the answers agree exactly if every message before it can be mapped |
| `Mapping.SinglesMeaning` | src/database/messages.rs:36-41 | single requests in order succeed exactly if each does, with the events of the ids position by position |
| `Mapping.BulkErrorDiffers` | src/database/messages.rs:43-48 | an input: a feed that cannot be parsed before a missing message gives different errors |
| `Batches.OneByOneMeaning` | src/database/messages.rs:82-90 | a request succeeds exactly if every id has a record, in request order with duplicates, and otherwise names the first id without one |
| `Batches.ChunksMeaning` | src/database/messages.rs:60 | ids are asked for by the 500 |
| `Batches.FirstFaultMeaning` | src/database/messages.rs:73-77 | the fault reported is that of the first query that fails |
| `Batches.Listing` | src/database/messages.rs:56-57 | a hash set yields every element once, in an arbitrary order |
| `Batches.Load` | src/database/messages.rs:60-80 | whatever the order and chunking, the map ends with the records of exactly the given ids, unless a chunk's query fails, and then with the first such error |
| `Batches.Expand` | src/database/messages.rs:82-90 | reading the map out in request order is the one-by-one look-up in it |
| `Messages.GetMessageRows` | src/database/messages.rs:50-91 | fetching in bulk answers what fetching one by one would, or the first failing query |
| `Messages.QueryCountMeaning` | src/database/messages.rs:55-74 | a bulk request makes one connection and one query for every 500 distinct ids |
| `Messages.SingleLookUp` | src/database/messages.rs:36-41 | a one-element request gives its row or names the id |
| `Members.LoadRegularUsers` | src/database/members.rs:87-134 | each id gets its user row, or else its friend row; a friend never overrides a user; query faults surface in order |
| `Members.LoadOpenChannelUsers` | src/database/members.rs:136-169 | each id gets its row in the channel's open link |
| `Members.LoadCurrentUser` | src/database/members.rs:36-39 | the bot's own entry is made exactly if it is asked for, and in an open channel needs a profile row |
| `Members.GetUsersWithConnection` | src/database/members.rs:26-58 | after the connection, the bulk look-up answers what looking up one by one would, or the first failing query |
| `Members.GetUsers` | src/database/members.rs:17-24 | the same, with the connection, and an empty request needs none |
| `Members.GetUser` | src/database/members.rs:10-15 | a single look-up finds the member or names the id; its fallback error is never used |
| `Members.LookUpMeaning` | src/database/members.rs:49-57 | members come in request order with duplicates; a failure names the first id not found |
| `Members.RegularMember` | src/database/members.rs:87-134 | in a regular channel the bot is itself, a user is taken before a friend, and a friend has name and picture decrypted |
| `Members.OpenMember` | src/database/members.rs:60-169 | in an open channel the bot is the profile in the channel's link, and others are their rows there |
| `Members.OpenChannelMeaning` | src/database/members.rs:34 | open channels are those with bit 54 set |
| `Members.QueryCountMeaning` | src/database/members.rs:87-134 | the queries of a request: connection, profile, and one for every 500 ids still sought |
| `Members.ProfileFaultMeaning` | src/database/members.rs:76-84 | they fail as the database does, and the profile query also when there is no row |
| `Members.FoundHasId` | src/database/members.rs:60-85 | members carry the requested id, except the bot's profile in an open channel |
| `Polling.NextIdsMeaning` | src/database/messages.rs:20-34 | a batch is exactly the ids above the cursor up to its own last, ascending; it is short only if nothing is left |
| `Polling.MessagesAfterMeaning` | src/database/messages.rs:20-34 | the same for rows: each once, in order, none skipped |
| `Polling.Poller.constructor` | src/database/poller.rs:11 | the poller starts after every row there is, or at 0 |
| `Polling.HandledGives` | src/database/poller.rs:26-44 | a row gives the event it is mapped to, unless its origin is one of the two kinds of synchronisation or the mapping fails |
| `Polling.PublishedOne` | src/database/poller.rs:39-41 | a row that gives an event is published with it |
| `Polling.Poller.HandleRow` | src/database/poller.rs:23-45 | a row moves the cursor forward; its event is sent if it is mapped and not synchronised, and otherwise nothing is |
| `Polling.Poller.HandleRows` | src/database/poller.rs:23-45 | the row loop moves the cursor to the last row and sends what the rows give, in order |
| `Polling.Poller.Poll` | src/database/poller.rs:13-46 | a failed query changes nothing; otherwise the next batch is handled |
| `PollingHistory.PollKeepsAccount` | src/database/poller.rs:13-46 | a poll keeps the account of handled and late rows and never moves the cursor back |
| `PollingHistory.HistoryIsAccounted` | src/database/poller.rs:11-46 | in every interleaving of additions, polls and failed polls, the rows that the cursor has passed are the handled ones, each once and ascending, and the late ones; what was sent is what the handled ones gave |
| `PollingHistory.EventsAreMapped` | src/database/poller.rs:23-45 | in every history each handled row is recorded with what its own poll made of it |
| `PollingHistory.ExactlyOnceIffTimely` | src/database/poller.rs:11-46 | every row above the start or added since is handled once the cursor has passed it, if and only if no row was added at or below the cursor |
| `PollingHistory.LateIsLost` | src/database/poller.rs:15-24 | a row added at or below the cursor is never handled |
| `PollingHistory.LateRowIsLost` | src/database/poller.rs:15-24 | an input: a row that appears after one with a larger id has been read is lost |
| `PollingHistory.PollTakesBatch` | src/database/poller.rs:15-24 | a poll takes a hundred rows off the backlog, or all of it |
| `PollingHistory.DrainedAfter` | src/database/poller.rs:13-24 | without additions and failures, a backlog of n is read in exactly ceil(n/100) polls |
| `UploadProtocol.ChunkTestIsExact` | src/media.rs:110-120 | the checked 64-bit addition and the size test together are the test received + chunk <= declared |
| `UploadProtocol.TakeRefuses` | src/media.rs:70-130 | when each refusal of a message is given |
| `UploadProtocol.EndsRefuse` | src/media.rs:48-66 | when each refusal of the first message and of the end is given |
| `UploadProtocol.RefusedAt` | src/media.rs:70-131 | a stream is refused by its first message that is refused |
| `UploadProtocol.DescribeMeaning` | src/media.rs:91-99 | what is recorded of a file: path, type or the default for a blank one, and name if not empty |
| `UploadGrammar.GroupsAccepted` | src/media.rs:70-131 | announced groups that fit the count are taken, with their bytes, if no disk operation fails |
| `UploadGrammar.AcceptedExplained` | src/media.rs:70-131 | whatever is taken is chunks that complete the open file, and then whole groups |
| `UploadGrammar.AcceptedIffWellFormed` | src/media.rs:43-149 | a stream is accepted exactly if it is one metadata with a count of at least 1 and a known mode and then that many groups, each a positive size and chunks that add up to it with none after, and no disk operation fails; what is stored is the groups' bytes |
| `UploadGrammar.AcceptedIffNoFault` | src/media.rs:43-149 | a well-formed upload is accepted exactly if none of its disk operations fails, one for each message after the metadata |
| `UploadGrammar.SplittingIsIrrelevant` | src/media.rs:106-128 | two accepted uploads of the same files leave the same files on the server, however their bytes are split and on whatever disks |
| `UploadSender.Requests` | python/src/airi/client.py:204-224 | the generator's nested loops yield the metadata and, for each file, its announcement and its slices |
| `UploadSender.SplitJoins` | python/src/airi/client.py:221-224 | the slices of a file are not empty, not above 1 MiB, and join to the file |
| `UploadSender.SentMeaning` | python/src/airi/client.py:204-224 | the stream is an upload of the files whose chunks are their consecutive stretches of 1 MiB |
| `UploadSender.RoundTrip` | python/src/airi/client.py:204-226 | what the client sends is accepted exactly if there is a file, none is empty and no disk operation fails, and then the server holds the files byte for byte and in order |
| `UploadSender.ReplyMedia` | python/src/airi/client.py:184-226 | from the client to the directory: the files all arrive as they are, recorded with their names, types and mode, exactly if there is one, none is empty and no disk operation fails; otherwise the directory stays as it was |
| `UploadStore.TakeFileMetadata` | src/media.rs:75-105 | the case for a file announcement keeps the directory and the protocol state in step, or refuses as the protocol does |
| `UploadStore.TakeChunkData` | src/media.rs:106-128 | the case for a chunk does the same |
| `UploadStore.ReceiveFiles` | src/media.rs:70-131 | the receiving loop does what the protocol says, and adds only its own files |
| `UploadStore.StoreChunksInner` | src/media.rs:43-149 | the result is the protocol's, and `stored` lists exactly the files added |
| `UploadStore.StoreChunks` | src/media.rs:31-41 | an error leaves the directory as it was; success adds exactly the upload's files, with the bytes received |
| `UploadStore.RemoveStored` | src/media.rs:216-220 | exactly the listed files are removed |
| `UploadStore.Store` | src/media.rs:151-187 | the request succeeds exactly if it has files, none is empty and every creation and write works; otherwise the directory is as it was, exactly unless the first thing to go wrong is the write of a file that was created, which then stays |
| `UploadStore.WriteInline` | src/media.rs:169-176 | one file is written and added, or the files before it are removed and only a file whose own write failed is left |
| `UploadStore.DescribeInlineMeaning` | src/media.rs:176-184 | what is recorded of such a file |
| `UploadStore.UndoneUnlessCutShort` | src/media.rs:162-176 | wherever a request stops, what it leaves equals the directory before exactly if no file of it was created and then failed to be written |
| `MediaSafety.StepKeepsSound` | src/media.rs:31-220 | every step keeps uploads apart from each other and their files exact |
| `MediaSafety.HistoryIsSound` | src/media.rs:31-187 | in every history an upload's files that are there hold exactly its bytes, and all are there for ten minutes after its metadata or first file |
| `MediaSafety.AcceptedIsComplete` | src/media.rs:133-148 | an upload accepted within ten minutes of its metadata has all its files there, with the bytes received; what those are, MediaAcceptance says |
| `MediaAcceptance.AcceptedByProtocol` | src/media.rs:31-149 | in every history, an accepted upload is one whose messages the protocol accepts, with the same outcome: no file open and as many as announced |
| `MediaAcceptance.EndDecides` | src/media.rs:133-148 | the end of a stream accepts exactly what the protocol accepts, and otherwise removes the files |
| `MediaAcceptance.DeliverDecides` | src/media.rs:70-131 | a message refuses its upload exactly if the protocol refuses the messages up to it, and removes the files |
| `MediaAcceptance.InlineAccepted` | src/media.rs:161-187 | a request that carries its files ends with at least one and holds those given to it |
| `MediaAcceptance.TakenIsWritten` | src/media.rs:87-127 | what a message taken does to the directory, and when |
| `MediaAcceptance.PutIsWritten` | src/media.rs:162-176 | what a file of a request does to the directory, written, not created, or cut short |
| `MediaAcceptance.OtherStepsOnFiles` | src/media.rs:189-214 | a caller that goes away leaves its files; a clean-up takes exactly those last written more than 600 seconds ago |
| `MediaRetention.GoneInTime` | src/media.rs:189-214 | from the first clean-up on, no file is there more than twenty minutes after its last write |
| `MediaRetention.KeptInTime` | src/media.rs:189-214 | a file is there until ten minutes after its last write unless its own upload is refused |
| `MediaRetention.StepRemoves` | src/media.rs:162-220 | a file goes only with its refused upload, streaming or not, or in a clean-up more than ten minutes after its last write |
| `MediaRetention.MissingIffSwept` | src/media.rs:189-214 | a file of an upload that is not refused is missing exactly if some clean-up found it last written more than ten minutes before |
| `MediaRetention.IntactIffNotSwept` | src/media.rs:133-148 | such an upload, in particular an accepted one, is complete and exact if and only if that happened to none of its files |
| `SlowUpload.AcceptedButIncomplete` | src/media.rs:43-149 | an input: two files with two clean-ups in between are accepted when the first is gone |
| `MediaErasure.ErasedThroughout` | src/media.rs:31-41 | a history without an upload runs alongside the one with it, equal but for that upload's files and what its failed whole-file write left |
| `MediaErasure.RefusedLeavesNoTrace` | src/media.rs:31-41 | after a refused upload the directory, the other uploads and the clock are what they would be without it, but for the file that a failed whole-file write left |
| `MediaErasure.ChunkedLeavesNothing` | src/media.rs:31-41 | an upload received in chunks leaves no such file |

## Left out

- SHA-1, AES-CBC, base64, PBKDF2 and SQLCipher: the hash is any function to 20 bytes, decryption any function of its arguments; `src/crypto/crypto_user.rs` and `src/credential.rs` are thin wrappers.
- SQL execution, connection pooling and row decoding: tables are finite maps with unique ids, queries return the matching rows in any order, and each query may fail. During one mapping request the database does not change, and asking for the same message fails or works the same way each time.
- JSON syntax: reading and printing JSON are arbitrary functions; the values they give are modelled, except the value of a fractional number.
- `get_channel`: a function that gives a channel or one of the errors it can give, which do not include a missing message.
- The poisoned-lock error of the key cache: nothing panics while the lock is held, since the conversion of the derived key cannot fail.
- Stack exhaustion: recursion without end is stated as exceeding every depth.
- Mapping.MapMessage: requires a depth that is enough, since on other rows the program does not come to an end; Termination.MappingEnds states for all rows whether there is one.
- Mapping.GetMessages: requires the same of the rows that the request comes to map.
- UploadSender.Requests: requires counts and sizes that fit the 32-bit and 64-bit protocol fields, as encoding the messages does; a source that fails to be read is a broken stream to the server.
- UploadStore.StoreChunks: one upload on its own directory; MediaHistory interleaves any number of them on values, with the same protocol functions, and takes the writing of one file of a request that carries its files as one step.
- Tokio's buffering and flushing of files, missed ticks, clock steps, and clean-ups that take time: writes reach the disk, ticks are on time, and a clean-up is one step.
- Removals that fail, in `remove_stored` and in the clean-up: removals work.
- The broadcast channel's lag, gRPC transport, the Android bridge (`src/android`), `src/service.rs`, `src/config.rs`, `src/main.rs`, raw queries, and the control scripts.
- The Python client's connection handling, middleware, routing and mime guessing.
