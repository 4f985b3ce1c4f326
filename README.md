# TinyIM medium server, modelled in Dafny

TinyIM's client core runs a *medium server* (`CMediumServer`). It sits
between the desktop GUI and the backend chat server:

- Each GUI connects to it over TCP through a server session (`CServerSess`).
- For every GUI session it opens a client session (`CClientSess`) to the
  backend.
- It keeps one UDP session per logged-in user, for peer-to-peer file
  transfer with friends.

This project models two parts of the medium server and proves properties
about them.

**The GUI session's frame reader (`CServerSess::do_read`).**
`FrameCodec.ServerSess` is a class over the receive buffer (an `array` of
bytes). Its read-completion handler cuts complete length-prefixed frames
off the buffer's front, dispatches them in stream order, and moves the
unconsumed tail back to the start. The frame layout is specified once, by
the function `FrameCodec.Extract` on the byte stream. The model proves:

- the frames and the leftover rebuild the stream;
- well-formed frames round-trip;
- the result does not depend on where the reads split the stream;
- the handler dispatches exactly `Extract`'s frames and keeps exactly its
  leftover.

The loop exactly as written (header read once, no guard against a size of
0) is modelled beside it; see "Findings".

**The relay (`CMediumServer`).** `Relay.MediumServer` is a class whose
fields are the relay's tables:

- sessions and users, paired GUI and backend sessions, and login state
  (module `Sessions`);
- messages held until their images are uploaded or downloaded
  (`HeldMessages`);
- the retry queue of UDP-address queries (`RetryQueue`);
- each user's store of received files (`FileStore`);
- the file helper's open files;
- the timer counters.

Every handler is a method that updates these fields. It appends what it
does to the outside world (a message sent on a session, a connection
started or stopped, a file written or copied, a null session dereferenced)
to `effects`, in the order the handler does it. Each handler's `ensures`
states its new state through pure functions of the old one. Each
dispatcher's `ensures` says which packets reach a handler and, for every
message class, that the new state is the one that class's handler
promises. The properties the relay relies on are lemmas about those
functions:

- the pairing tables stay inverse;
- a login binds every lookup to the new session;
- a held message is sent exactly once, when its image is confirmed;
- a chunked transfer sends chunks 1..n, then one verification;
- the housekeeping timer stops an idle relay at tick 240;
- in a probe round, every listed friend of a user with a UDP session gets a start request at its known address, or is asked for on the user's backend session; nothing else is probed.

The three dispatchers (`HandleSendBack`, `HandleSendForward`,
`DispatchUdpMsg`) are modelled in `Dispatch`. Each switches on the type
tag, acts only on a message that parses as the tag's class, and falls back
to its default branch otherwise.

Several behaviours are kept as written. Where there is a fault, the model
records it instead of repairing it:

- A failed download acknowledges the waiting group message but erases the
  id from the friend table (line 2774), so the group message stays held
  and is acknowledged again by each later failure. The relay runs this
  behaviour (`HeldMessages.DownloadFailedAsWritten`); the corrected
  `HeldMessages.DownloadFailed` is modelled beside it (see "Findings").

- A verification handler that has no GUI session dereferences a null
  session. This is the effect `NullDeref` at lines 1160, 1172, 1223 and
  1235.
- A hash mismatch is answered with the `LoginFailed` code (line 1130).
- `std::map::insert` keeps the first value stored under a key
  (`Common.InsertIfAbsent`).
- A message with several images is held under the hash of its last image.
- With no download recorded, the related-id lookup falls through to the
  empty id.
- A logout and a GUI close clear different subsets of the tables.
- The 10-tick test inside `CheckWaitMsgVec` never filters anything.
- `SendBack` finds the GUI by user id, and otherwise by user name.
- An empty file is announced with 0 chunks but sent as chunk 1, which is
  never acknowledged.
- A read of no more than `sizeof(TransBaseMsg_t)` bytes (line 16) is
  dropped. This is a different constant from the header's size, which
  the loop condition uses.

Source paths below are relative to the repository root.

## Model

| member | source | states |
|---|---|---|
| FrameCodec.ExtractPartition | Code/Server/ChatServer/MediumServer/CServerSess.cpp:19-27 | the frames dispatched and the leftover kept rebuild the received bytes exactly, in order; the leftover holds no complete frame |
| FrameCodec.ExtractFramesSized | Code/Server/ChatServer/MediumServer/CServerSess.cpp:21-24 | no partial frame is dispatched: every frame is non-empty and, once it holds a length field, declares exactly its own length |
| FrameCodec.ExtractConcat | Code/Server/ChatServer/MediumServer/CServerSess.cpp:21-25 | round trip: well-formed frames followed by any tail are cut back into exactly those frames, then what the tail yields |
| FrameCodec.ExtractFramesExactly | Code/Server/ChatServer/MediumServer/CServerSess.cpp:21-25 | a stream made only of whole frames gives those frames back with nothing left over |
| FrameCodec.ExtractAppend | Code/Server/ChatServer/MediumServer/CServerSess.cpp:13-27 | where a read boundary falls does not change the frames or the leftover |
| FrameCodec.PumpIsExtract | Code/Server/ChatServer/MediumServer/CServerSess.cpp:10-38 | over any split of the stream into reads, the frames dispatched and the leftover are those of the whole stream |
| FrameCodec.ConsumeAsWritten | Code/Server/ChatServer/MediumServer/CServerSess.cpp:19-26 | the loop as written: the pieces it consumes and the leftover rebuild the bytes, and every piece has the size of the first header |
| FrameCodec.HeaderReadOnceSplitsSecondFrame | Code/Server/ChatServer/MediumServer/CServerSess.cpp:19-25 | an 8-byte frame then a 12-byte frame in one read: as written the second round consumes only 8 bytes and leaves the other 4 of the second frame as leftover; re-reading each header gives both frames and no leftover |
| FrameCodec.ZeroSizeNeverExits | Code/Server/ChatServer/MediumServer/CServerSess.cpp:21-26 | as written, a header declaring size 0 consumes nothing per round, so the loop condition holds forever |
| FrameCodec.ServerSess.ReadWindow | Code/Server/ChatServer/MediumServer/CServerSess.cpp:13-14 | a read targets recvpos with room max_length - recvpos, so it ends exactly at the buffer's end |
| FrameCodec.ServerSess.HandleMessage | Code/Server/ChatServer/MediumServer/CServerSess.cpp:45-51 | the frame is handed to the owning server, in order, exactly when there is one |
| FrameCodec.ServerSess.CloseSocket | Code/Server/ChatServer/MediumServer/CServerSess.cpp:70-77 | the session is marked disconnected and the owning server, if any, gets one close notice |
| FrameCodec.ServerSess.Receive | Code/Server/ChatServer/MediumServer/CServerSess.cpp:13-15 | the bytes read land right after the pending bytes, which stay as they were |
| FrameCodec.ServerSess.Compact | Code/Server/ChatServer/MediumServer/CServerSess.cpp:25 | memmove: the unconsumed bytes are moved to the buffer's front, in order |
| FrameCodec.ServerSess.DrainFrames | Code/Server/ChatServer/MediumServer/CServerSess.cpp:19-27 | dispatches exactly the frames Extract finds, in stream order, and keeps exactly its leftover at the buffer's front |
| FrameCodec.ServerSess.OnReadComplete | Code/Server/ChatServer/MediumServer/CServerSess.cpp:15-36 | a read of at most sizeof(TransBaseMsg_t) bytes changes nothing and is not re-armed; otherwise Extract's frames are dispatched, the leftover is kept, and reading is re-armed only when recvpos < max_length and there was no error, the socket being closed otherwise |
| Common.InsertIfAbsent | Code/Client/ClientCore_TinyIM/ClientCore/CMediumServer.cpp:1951-1956 | std::map::insert: an existing key keeps its value, a new key gets the given one, no other key changes |
| Common.Lookup | Code/Client/ClientCore_TinyIM/ClientCore/CMediumServer.cpp:895-905 | a present key gives its value, an absent one None (nullptr) |
| Common.TruncDiv | Code/Client/ClientCore_TinyIM/ClientCore/CMediumServer.cpp:184 | C++ division truncates toward zero; on non-negative operands it agrees with Dafny's |
| Sessions.GetUserId | Code/Client/ClientCore_TinyIM/ClientCore/CMediumServer.cpp:877-893 | the id logged in under a name, "" for an unknown name |
| Sessions.GetClientSess | Code/Client/ClientCore_TinyIM/ClientCore/CMediumServer.cpp:895-905 | the user's backend session exactly when the table has one |
| Sessions.GetGuiSess | Code/Client/ClientCore_TinyIM/ClientCore/CMediumServer.cpp:2205-2215 | the user's GUI session exactly when the table has one |
| Sessions.GetUdpSess | Code/Client/ClientCore_TinyIM/ClientCore/CMediumServer.cpp:3554-3563 | the user's UDP session exactly when the table has one |
| Sessions.GetUserNameById | Code/Client/ClientCore_TinyIM/ClientCore/CMediumServer.cpp:3358-3369 | the name of an id, "" for an unknown id |
| Sessions.WithUserName | Code/Client/ClientCore_TinyIM/ClientCore/CMediumServer.cpp:3346-3350 | the id's name is replaced and every other id keeps its name |
| Sessions.AcceptedPaired | Code/Client/ClientCore_TinyIM/ClientCore/CMediumServer.cpp:830-869 | pairing a fresh GUI session with a fresh backend session keeps the two tables inverse and holds the new pair |
| Sessions.LoginBindsUser | Code/Client/ClientCore_TinyIM/ClientCore/CMediumServer.cpp:2851-2934 | after a login every lookup answers with it: backend session, name both ways, state LoginFinished, the paired GUI session; the old UDP session is kept; the session is unpaired and no longer reconnecting |
| Sessions.LoginKeepsPaired | Code/Client/ClientCore_TinyIM/ClientCore/CMediumServer.cpp:2860-2880 | a login unpairs only its own GUI session and keeps the tables inverse |
| Sessions.LoginLastWriterWins | Code/Client/ClientCore_TinyIM/ClientCore/CMediumServer.cpp:2851-2934 | two logins of one user: the second session and name win, the first UDP session stays |
| Sessions.LogoutDropsUser | Code/Client/ClientCore_TinyIM/ClientCore/CMediumServer.cpp:2979-3006 | a logout drops the user's backend and UDP sessions and login request and sets Logout, but keeps names, UDP address and keep-alive time |
| Sessions.LogoutKeepsPaired | Code/Client/ClientCore_TinyIM/ClientCore/CMediumServer.cpp:2989-2998 | a logout keeps the pairing tables inverse |
| Sessions.CloseClearsUser | Code/Client/ClientCore_TinyIM/ClientCore/CMediumServer.cpp:3014-3040 | a GUI close drops the user's names, UDP address and session, backend session and keep-alive time, but keeps state, login request and GUI entry |
| Sessions.CloseKeepsPaired | Code/Client/ClientCore_TinyIM/ClientCore/CMediumServer.cpp:3018-3028 | a GUI close keeps the pairing tables inverse |
| Sessions.NetFailedMoves | Code/Client/ClientCore_TinyIM/ClientCore/CMediumServer.cpp:3047-3071 | LoginFinished goes to LoginSend with the session reconnecting (earliest time kept); Logout stops reconnecting; other states change nothing |
| Sessions.NetFailedTwice | Code/Client/ClientCore_TinyIM/ClientCore/CMediumServer.cpp:3047-3071 | a second failure of the same session changes neither state nor reconnect table |
| Sessions.RecoverThenLogin | Code/Client/ClientCore_TinyIM/ClientCore/CMediumServer.cpp:3047-3071 | a login after a failure takes the session out of the reconnect table and sets LoginFinished |
| Sessions.KeptAlive | Code/Client/ClientCore_TinyIM/ClientCore/CMediumServer.cpp:80-97 | the first P2P start answer records its time; later ones change nothing |
| Sessions.WithFriends | Code/Client/ClientCore_TinyIM/ClientCore/CMediumServer.cpp:779-787 | the user's friend list is replaced and every other list kept |
| Sessions.WithUdpAddr | Code/Client/ClientCore_TinyIM/ClientCore/CMediumServer.cpp:3100-3101 | the friend's UDP address is replaced and every other address kept |
| Sessions.WithLoginReq | Code/Client/ClientCore_TinyIM/ClientCore/CMediumServer.cpp:2061-2066 | the login request is stored under its user name, replacing an earlier one, others kept |
| UserPaths.MainFolder | Code/Client/ClientCore_TinyIM/ClientCore/CMediumServer.cpp:3377-3388 | empty exactly for an unknown (empty) name; otherwise ends with a separator |
| UserPaths.ImageDir | Code/Client/ClientCore_TinyIM/ClientCore/CMediumServer.cpp:3396-3407 | empty exactly for an unknown name |
| UserPaths.FileDir | Code/Client/ClientCore_TinyIM/ClientCore/CMediumServer.cpp:3409-3421 | empty exactly for an unknown name |
| UserPaths.DataBaseFileName | Code/Client/ClientCore_TinyIM/ClientCore/CMediumServer.cpp:3429-3440 | empty exactly for an unknown name |
| UserPaths.UserPathsNested | Code/Client/ClientCore_TinyIM/ClientCore/CMediumServer.cpp:3377-3440 | the image, file and database paths lie in the main folder and are pairwise different |
| UserPaths.BaseNameShape | Code/Client/ClientCore_TinyIM/ClientCore/CMediumServer.cpp:2588 | the base name is the path's tail after its last separator and contains no separator |
| UserPaths.BaseNameIdempotent | Code/Client/ClientCore_TinyIM/ClientCore/CMediumServer.cpp:1884-1899 | a base name is its own base name |
| UserPaths.BaseNameOfJoin | Code/Client/ClientCore_TinyIM/ClientCore/CMediumServer.cpp:1888-1891 | a folder followed by a separator-free name gives back that name |
| UserPaths.Extension | Code/Client/ClientCore_TinyIM/ClientCore/CMediumServer.cpp:1888 | the extension is a tail of the name starting with '.', or empty |
| UserPaths.ExtensionShape | Code/Client/ClientCore_TinyIM/ClientCore/CMediumServer.cpp:1888 | the extension runs from the last '.' of the last path component, with no separator and no further '.' after it, and is empty exactly when the base name has no '.' |
| UserPaths.ExtensionTail | Code/Client/ClientCore_TinyIM/ClientCore/CMediumServer.cpp:1888 | after its leading '.', an extension holds neither a separator nor another '.' |
| UserPaths.ExtensionEmpty | Code/Client/ClientCore_TinyIM/ClientCore/CMediumServer.cpp:1888 | the extension is empty exactly when the base name contains no '.' |
| ChatContent.MapImagesAt | Code/Client/ClientCore_TinyIM/ClientCore/CMediumServer.cpp:2636-2647 | each image element gets the renamed name, every other element is kept in place |
| ChatContent.ReplaceImagesAt | Code/Client/ClientCore_TinyIM/ClientCore/CMediumServer.cpp:1916-1948 | the k-th image element gets the k-th new name, every other element is kept in place |
| ChatContent.ReplaceImagesSnoc | Code/Client/ClientCore_TinyIM/ClientCore/CMediumServer.cpp:1916-1948 | one more element extends the rewritten list by the renamed image or the element itself |
| ChatContent.PrefixImageNames | Code/Client/ClientCore_TinyIM/ClientCore/CMediumServer.cpp:2402-2418 | the loop rebuilds every image with its name prefixed and keeps other elements |
| ChatContent.MapImagesKeepsShape | Code/Client/ClientCore_TinyIM/ClientCore/CMediumServer.cpp:2692-2703 | a rewrite keeps the number of images and whether there are any |
| ChatContent.RenameImagesIdempotent | Code/Client/ClientCore_TinyIM/ClientCore/CMediumServer.cpp:2636-2647 | renaming all images to one name twice is renaming once |
| ChatContent.PrefixImagesInDir | Code/Client/ClientCore_TinyIM/ClientCore/CMediumServer.cpp:2402-2418 | after prefixing every image names a file in the folder |
| ChatContent.ImageCountAppend | Code/Client/ClientCore_TinyIM/ClientCore/CMediumServer.cpp:1916-1948 | image counts add up over concatenation |
| HeldMessages.HoldFriend | Code/Client/ClientCore_TinyIM/ClientCore/CMediumServer.cpp:1951-1956 | the message is held under the hash unless one already is; other entries unchanged |
| HeldMessages.HoldGroup | Code/Client/ClientCore_TinyIM/ClientCore/CMediumServer.cpp:2025-2030 | the group message is held under the hash unless one already is; other entries unchanged |
| HeldMessages.ReleaseSent | Code/Client/ClientCore_TinyIM/ClientCore/CMediumServer.cpp:2780-2808 | the friend then the group message held under the hash are each sent once on the session and dropped; nothing else changes |
| HeldMessages.ReleaseSentOnce | Code/Client/ClientCore_TinyIM/ClientCore/CMediumServer.cpp:2780-2808 | a second confirmation of the same hash sends nothing |
| HeldMessages.HeldFriendIsSent | Code/Client/ClientCore_TinyIM/ClientCore/CMediumServer.cpp:1951-1956 | a friend message held under a fresh hash is exactly what its confirmation sends |
| HeldMessages.HeldGroupIsSent | Code/Client/ClientCore_TinyIM/ClientCore/CMediumServer.cpp:2025-2030 | a group message held under a fresh hash is exactly what its confirmation sends |
| HeldMessages.WaitFriend | Code/Client/ClientCore_TinyIM/ClientCore/CMediumServer.cpp:2282-2285 | a received message waits under its chat message id, first writer wins |
| HeldMessages.WaitGroup | Code/Client/ClientCore_TinyIM/ClientCore/CMediumServer.cpp:2494-2497 | a received group message waits under its message id, first writer wins |
| HeldMessages.RelatedMsgId | Code/Client/ClientCore_TinyIM/ClientCore/CMediumServer.cpp:2615-2631 | with an empty table every hash gives ""; a known hash gives its id; otherwise None |
| HeldMessages.ReleaseFriendImage | Code/Client/ClientCore_TinyIM/ClientCore/CMediumServer.cpp:2613-2669 | no waiting message for the hash means no change; no backend session means the tables stay |
| HeldMessages.ReleaseGroupImage | Code/Client/ClientCore_TinyIM/ClientCore/CMediumServer.cpp:2671-2728 | the same for the group message |
| HeldMessages.ReleaseImage | Code/Client/ClientCore_TinyIM/ClientCore/CMediumServer.cpp:2604-2605 | both releases leave the send-side tables and the transfer records unchanged |
| HeldMessages.ArrivalReleasesFriend | Code/Client/ClientCore_TinyIM/ClientCore/CMediumServer.cpp:2613-2669 | the waiting message is shown to the GUI with images renamed, acknowledged on the backend and dropped |
| HeldMessages.ArrivalReleasesOnce | Code/Client/ClientCore_TinyIM/ClientCore/CMediumServer.cpp:2613-2669 | a second arrival of the same image releases nothing |
| HeldMessages.ArrivalReleasesGroup | Code/Client/ClientCore_TinyIM/ClientCore/CMediumServer.cpp:2686-2724 | the waiting group message is shown to the user's GUI, when there is one, with images renamed, then acknowledged on the backend and dropped; no other table changes |
| HeldMessages.ArrivalReleasesGroupOnce | Code/Client/ClientCore_TinyIM/ClientCore/CMediumServer.cpp:2671-2728 | a second arrival of the same image releases no further group message |
| HeldMessages.ShownGroupElements | Code/Client/ClientCore_TinyIM/ClientCore/CMediumServer.cpp:2692-2703 | the shown group message keeps its ids and every non-image element and names the arrived file in every image |
| HeldMessages.EmptyTableFallsThrough | Code/Client/ClientCore_TinyIM/ClientCore/CMediumServer.cpp:2615-2631 | with no download recorded, any arrival releases the message waiting under "" |
| HeldMessages.ShownFriendElements | Code/Client/ClientCore_TinyIM/ClientCore/CMediumServer.cpp:2636-2647 | the shown message keeps every non-image element and names the arrived file in every image |
| HeldMessages.DownloadFailedAsWritten | Code/Client/ClientCore_TinyIM/ClientCore/CMediumServer.cpp:2747-2776 | as written: the friend then the group message related to the id are acknowledged once each; the friend one is dropped, and the group table is left unchanged |
| HeldMessages.DownloadFailedAsWrittenKeepsGroup | Code/Client/ClientCore_TinyIM/ClientCore/CMediumServer.cpp:2762-2775 | as written, a failed group download is acknowledged but never dropped, so each failure acknowledges it again |
| HeldMessages.DownloadFailed | Code/Client/ClientCore_TinyIM/ClientCore/CMediumServer.cpp:2747-2776 | corrected: both related messages are acknowledged once and dropped; nothing else changes |
| HeldMessages.DownloadFailedOnce | Code/Client/ClientCore_TinyIM/ClientCore/CMediumServer.cpp:2747-2776 | as intended, a second failure sends nothing |
| HeldMessages.RemoveFirst | Code/Client/ClientCore_TinyIM/ClientCore/CMediumServer.cpp:1103-1107 | find-then-erase removes exactly one occurrence, or nothing when absent |
| HeldMessages.BeginThenVerify | Code/Client/ClientCore_TinyIM/ClientCore/CMediumServer.cpp:2579 | a hash recorded at begin and removed at verify leaves the others as they were |
| FileStore.FileByHash | Code/Client/ClientCore_TinyIM/ClientCore/CMediumServer.cpp:2562-2570 | the stored file for the hash, "" without a store or an entry |
| FileStore.SavedHash | Code/Client/ClientCore_TinyIM/ClientCore/CMediumServer.cpp:1114-1122 | the user's store records the file under the hash; other users' stores unchanged |
| FileStore.SavedThenFound | Code/Client/ClientCore_TinyIM/ClientCore/CMediumServer.cpp:2562-2570 | a saved file is found again by its hash; other hashes unaffected |
| FileStore.BeginRspOf | Code/Client/ClientCore_TinyIM/ClientCore/CMediumServer.cpp:2576-2583 | the answer echoes the request's fields under the given code |
| FileStore.VerifyRspOf | Code/Client/ClientCore_TinyIM/ClientCore/CMediumServer.cpp:1101-1135 | success with the hash exactly when the hashes match; otherwise LoginFailed with an empty hash |
| FileStore.ResultNotice | Code/Client/ClientCore_TinyIM/ClientCore/CMediumServer.cpp:1141-1176 | only content recorded as an ordinary file gets a notice; it goes to the GUI, or is a null dereference without one |
| FileStore.FailedVerifyNoticeKeyedByEmpty | Code/Client/ClientCore_TinyIM/ClientCore/CMediumServer.cpp:1130-1160 | a failed verification looks up the empty hash, so its notice is normally not sent |
| FileTransfer.ChunkCount | Code/Client/ClientCore_TinyIM/ClientCore/CMediumServer.cpp:1263 | the least number of 1024-byte chunks covering the file |
| FileTransfer.ChunkCountUnique | Code/Client/ClientCore_TinyIM/ClientCore/CMediumServer.cpp:1303 | no other count covers the file with no chunk to spare |
| FileTransfer.ChunkCountZero | Code/Client/ClientCore_TinyIM/ClientCore/CMediumServer.cpp:2831 | zero chunks exactly for an empty file |
| FileTransfer.Percent | Code/Client/ClientCore_TinyIM/ClientCore/CMediumServer.cpp:182-185 | set exactly when the total is not zero |
| FileTransfer.PercentBounds | Code/Client/ClientCore_TinyIM/ClientCore/CMediumServer.cpp:1407-1410 | within a transfer the percent is 0..100 and 100 at the last chunk |
| FileTransfer.PercentMonotone | Code/Client/ClientCore_TinyIM/ClientCore/CMediumServer.cpp:1407-1410 | the percent never decreases as the index grows |
| FileTransfer.AfterAck | Code/Client/ClientCore_TinyIM/ClientCore/CMediumServer.cpp:231-264 | while chunks remain the next request carries index+1 and the same file, user, friend and total; after the last chunk a verification request with the file's hash and size |
| FileTransfer.AckIds | Code/Client/ClientCore_TinyIM/ClientCore/CMediumServer.cpp:231-264 | one id is drawn except when a chunk remains and the read fails |
| FileTransfer.ReadOrEmpty | Code/Client/ClientCore_TinyIM/ClientCore/CMediumServer.cpp:244-250 | a request's data is the chunk read, or empty when the read fails |
| FileTransfer.AckedChunkAdvances | Code/Client/ClientCore_TinyIM/ClientCore/CMediumServer.cpp:153-194 | the sender answers the receiver's ack of chunk i with chunk i+1, or with the verification exactly when the receiver closed its file |
| FileTransfer.TraceShape | Code/Client/ClientCore_TinyIM/ClientCore/CMediumServer.cpp:231-264 | from chunk i, chunks i..total go out in order once each, then one verification |
| FileTransfer.TransferCompletes | Code/Client/ClientCore_TinyIM/ClientCore/CMediumServer.cpp:1341-1363 | a whole transfer is chunks 1..total then verification, and the write file closes only at the last chunk |
| FileTransfer.EmptyFileStalls | Code/Client/ClientCore_TinyIM/ClientCore/CMediumServer.cpp:1263-1267 | an empty file is announced with 0 chunks but its first request carries index 1, which is never acknowledged |
| RetryQueue.Enqueue | Code/Client/ClientCore_TinyIM/ClientCore/CMediumServer.cpp:3108-3119 | one message is appended to the user's list, created when absent; other lists unchanged |
| RetryQueue.Kept | Code/Client/ClientCore_TinyIM/ClientCore/CMediumServer.cpp:940-946 | a flush keeps exactly the lists of users without a session, unchanged |
| RetryQueue.SendAll | Code/Client/ClientCore_TinyIM/ClientCore/CMediumServer.cpp:936-940 | one send per queued message, in order, on the session |
| RetryQueue.SendQueued | Code/Client/ClientCore_TinyIM/ClientCore/CMediumServer.cpp:936-940 | the inner loop sends exactly SendAll |
| RetryQueue.Flush | Code/Client/ClientCore_TinyIM/ClientCore/CMediumServer.cpp:927-950 | the flush sends exactly FlushSends and keeps exactly Kept |
| RetryQueue.FlushSendsEveryOnline | Code/Client/ClientCore_TinyIM/ClientCore/CMediumServer.cpp:931-948 | every queued message of a visited user with a session is sent |
| RetryQueue.FlushSendsOnlyQueued | Code/Client/ClientCore_TinyIM/ClientCore/CMediumServer.cpp:931-948 | every send is a queued message of a visited user, on that user's session |
| RetryQueue.FlushAgainSendsNothing | Code/Client/ClientCore_TinyIM/ClientCore/CMediumServer.cpp:927-950 | flushing what a flush kept sends nothing while the same users stay online |
| RetryQueue.EnqueuedKeptWhileOffline | Code/Client/ClientCore_TinyIM/ClientCore/CMediumServer.cpp:3108-3119 | a query queued for an offline user survives the flush at the end of its list |
| Housekeeping.FlushOnEveryIdlePeriod | Code/Client/ClientCore_TinyIM/ClientCore/CMediumServer.cpp:972-978 | the 10-tick test inside the flush never filters: it is reached only on multiples of 60 |
| Housekeeping.SessionKeepsAlive | Code/Client/ClientCore_TinyIM/ClientCore/CMediumServer.cpp:972-976 | with a session the relay never stops and the idle counter resets at period ends |
| Housekeeping.IdleNoSessCounts | Code/Client/ClientCore_TinyIM/ClientCore/CMediumServer.cpp:978-982 | without sessions the idle counter counts completed 60-tick periods |
| Housekeeping.IdleShutdown | Code/Client/ClientCore_TinyIM/ClientCore/CMediumServer.cpp:978-984 | a relay that never has a session calls stop() exactly on the multiples of 60 from tick 240 on |
| Rendezvous.AnswerP2pStart | Code/Client/ClientCore_TinyIM/ClientCore/CMediumServer.cpp:106-118 | the answer keeps the message id and swaps the two ids: its user is the request's friend and its friend the request's user |
| Rendezvous.AnswerSwapsBack | Code/Client/ClientCore_TinyIM/ClientCore/CMediumServer.cpp:106-118 | answering the answer gives back the original ids |
| Rendezvous.SelfProbeAnswer | Code/Client/ClientCore_TinyIM/ClientCore/CMediumServer.cpp:126-145 | a probe naming the client on both sides is answered naming it on both sides |
| Rendezvous.FlattenSnoc | Code/Client/ClientCore_TinyIM/ClientCore/CMediumServer.cpp:779-787 | flattening one more team appends its members |
| Rendezvous.FlattenMembers | Code/Client/ClientCore_TinyIM/ClientCore/CMediumServer.cpp:779-787 | a user is in the flattened list exactly when some team lists it |
| Rendezvous.FlattenFriends | Code/Client/ClientCore_TinyIM/ClientCore/CMediumServer.cpp:779-787 | the loop builds exactly the flattened list |
| Rendezvous.ProbeFriend | Code/Client/ClientCore_TinyIM/ClientCore/CMediumServer.cpp:739-763 | a known address gets a start request there; otherwise the address is queried on the backend session, or nothing |
| Rendezvous.ProbeFriends | Code/Client/ClientCore_TinyIM/ClientCore/CMediumServer.cpp:739-763 | one id is drawn per message sent, and at most one message per friend |
| Rendezvous.ProbesSound | Code/Client/ClientCore_TinyIM/ClientCore/CMediumServer.cpp:739-763 | start requests go only to known addresses of listed friends; queries only for listed friends with unknown addresses |
| Rendezvous.KnownFriendProbed | Code/Client/ClientCore_TinyIM/ClientCore/CMediumServer.cpp:739-763 | every listed friend with a known address gets its start request |
| Rendezvous.UnknownFriendQueried | Code/Client/ClientCore_TinyIM/ClientCore/CMediumServer.cpp:747-758 | every listed friend with an unknown address is asked for on the user's backend session, when the user has one |
| RelayPlans.SendFileNewName | Code/Client/ClientCore_TinyIM/ClientCore/CMediumServer.cpp:1874-1903 | without a store the base name; a stored file is reused; otherwise one copy into the image folder under a fresh id; the name has no separator |
| RelayPlans.OfferImage | Code/Client/ClientCore_TinyIM/ClientCore/CMediumServer.cpp:1919-1946 | the offer carries the image's hash and new name and uses one id plus one per copy |
| RelayPlans.OfferNext | Code/Client/ClientCore_TinyIM/ClientCore/CMediumServer.cpp:1916-1948 | a non-image element leaves the plan as it was; an image adds one new name and makes its hash the plan's hash |
| RelayPlans.OfferPlanCounts | Code/Client/ClientCore_TinyIM/ClientCore/CMediumServer.cpp:1916-1948 | one new name per image and at least one id per image |
| RelayPlans.OfferPlanNoImages | Code/Client/ClientCore_TinyIM/ClientCore/CMediumServer.cpp:1916-1948 | a message without images offers nothing |
| RelayPlans.OfferedSnoc | Code/Client/ClientCore_TinyIM/ClientCore/CMediumServer.cpp:1916-1948 | one more element: an image is offered and renamed, anything else copied |
| RelayPlans.OfferImages | Code/Client/ClientCore_TinyIM/ClientCore/CMediumServer.cpp:1989-2021 | the loop yields exactly OfferPlan, replaces the k-th image by the k-th new name, and says whether there was an image |
| RelayPlans.OfferPlanKeyedByLastImage | Code/Client/ClientCore_TinyIM/ClientCore/CMediumServer.cpp:1928 | the hash a message is held under is its last image's hash |
| RelayPlans.FetchElem | Code/Client/ClientCore_TinyIM/ClientCore/CMediumServer.cpp:2249-2279 | an image is downloaded, a file offered to the GUI when there is one, anything else asks nothing |
| RelayPlans.FetchElements | Code/Client/ClientCore_TinyIM/ClientCore/CMediumServer.cpp:2457-2491 | the loop yields exactly FetchPlan and whether an image or a file was seen |
| RelayPlans.FetchPlanDownloadsEveryImage | Code/Client/ClientCore_TinyIM/ClientCore/CMediumServer.cpp:2249-2279 | every image element is downloaded, under the id of its position |
| RelayPlans.FetchPlanOnlyElements | Code/Client/ClientCore_TinyIM/ClientCore/CMediumServer.cpp:2249-2279 | every request is a download of an image element or an offer of a file element |
| RelayPlans.ConnectAllComplete | Code/Client/ClientCore_TinyIM/ClientCore/CMediumServer.cpp:805-809 | every visited user with a backend session has that session restarted and then kept alive, the two effects side by side |
| RelayPlans.ConnectAllSound | Code/Client/ClientCore_TinyIM/ClientCore/CMediumServer.cpp:805-809 | every effect of the round is a restart or a keep-alive of a visited user's backend session |
| RelayPlans.UdpKeepAlivesComplete | Code/Client/ClientCore_TinyIM/ClientCore/CMediumServer.cpp:811-816 | every visited user with a UDP session sends the server a keep-alive naming that user |
| RelayPlans.UdpKeepAlivesSound | Code/Client/ClientCore_TinyIM/ClientCore/CMediumServer.cpp:811-816 | every effect of the round is a keep-alive naming a visited user, sent on that user's UDP session |
| RelayPlans.Reconnects | Code/Client/ClientCore_TinyIM/ClientCore/CMediumServer.cpp:819-822 | one restart per reconnecting session, in order |
| RelayPlans.ProbeNext | Code/Client/ClientCore_TinyIM/ClientCore/CMediumServer.cpp:724-767 | a user without UDP session or friend list adds nothing; one id per probe |
| RelayPlans.ProbeAllSound | Code/Client/ClientCore_TinyIM/ClientCore/CMediumServer.cpp:720-766 | every probe of a round goes from a visited user's own session to a listed friend, as ProbesSound says |
| RelayPlans.ProbeAllPrefix | Code/Client/ClientCore_TinyIM/ClientCore/CMediumServer.cpp:730-765 | the outer loop only appends: the probes made for the first users visited are a prefix of the round's probes |
| RelayPlans.ProbeAllVisits | Code/Client/ClientCore_TinyIM/ClientCore/CMediumServer.cpp:730-765 | each probe made during one visited user's turn is among the round's probes |
| RelayPlans.KnownFriendProbedInRound | Code/Client/ClientCore_TinyIM/ClientCore/CMediumServer.cpp:730-746 | for each visited user with a UDP session, every listed friend with a known address gets a start request on that session to that address |
| RelayPlans.UnknownFriendQueriedInRound | Code/Client/ClientCore_TinyIM/ClientCore/CMediumServer.cpp:730-758 | for each visited user with a UDP session and a backend session, every listed friend with an unknown address is queried on that backend session |
| ConnectionRounds.ConnectRound | Code/Client/ClientCore_TinyIM/ClientCore/CMediumServer.cpp:805-809 | the loop yields exactly ConnectAll |
| ConnectionRounds.KeepAliveRound | Code/Client/ClientCore_TinyIM/ClientCore/CMediumServer.cpp:811-816 | the loop yields exactly UdpKeepAlives |
| ConnectionRounds.ReconnectRound | Code/Client/ClientCore_TinyIM/ClientCore/CMediumServer.cpp:819-822 | the loop yields exactly Reconnects |
| ConnectionRounds.ProbeUser | Code/Client/ClientCore_TinyIM/ClientCore/CMediumServer.cpp:739-763 | the inner loop yields exactly ProbeFriends |
| ConnectionRounds.ProbeRound | Code/Client/ClientCore_TinyIM/ClientCore/CMediumServer.cpp:724-767 | the outer loop yields exactly ProbeAll |
| ConnectionRounds.ConnectionCheck | Code/Client/ClientCore_TinyIM/ClientCore/CMediumServer.cpp:802-824 | off a connection tick only the reconnects; they always come last |
| ConnectionRounds.CheckConnections | Code/Client/ClientCore_TinyIM/ClientCore/CMediumServer.cpp:802-824 | the loops in the source's order yield exactly ConnectionCheck |
| Dispatch.Parsed | Code/Client/ClientCore_TinyIM/ClientCore/CMediumServer.cpp:3163-3183 | the case's handler runs exactly when the text parses as the tag's class |
| Dispatch.RouteBack | Code/Client/ClientCore_TinyIM/ClientCore/CMediumServer.cpp:3131-3338 | no case exactly for tags outside the switch; the network reports are events; a handler only ever gets a parsed message of the tag's class |
| Dispatch.RouteForward | Code/Client/ClientCore_TinyIM/ClientCore/CMediumServer.cpp:2077-2169 | the same for the GUI's switch, whose only event is the network failure report |
| Dispatch.RouteUdp | Code/Client/ClientCore_TinyIM/ClientCore/CMediumServer.cpp:345-400 | the same for the UDP switch, which has no events |
| Relay.CredentialsOf | Code/Client/ClientCore_TinyIM/ClientCore/CMediumServer.cpp:2061-2066 | the stored fields give the login request back |
| Relay.UserFolders | Code/Client/ClientCore_TinyIM/ClientCore/CMediumServer.cpp:2905-2925 | only missing main, image and file folders are created, and each missing one is |
| Relay.OpenedStore | Code/Client/ClientCore_TinyIM/ClientCore/CMediumServer.cpp:2927-2937 | an open store stays; a closed one is opened when opening works; other users unchanged |
| Relay.FirstChunk | Code/Client/ClientCore_TinyIM/ClientCore/CMediumServer.cpp:1259-1273 | the first data request carries index 1 and the file's chunk count |
| Relay.BackendSend | Code/Client/ClientCore_TinyIM/ClientCore/CMediumServer.cpp:1961-1965 | a message goes on the user's backend session exactly when there is one |
| Relay.GuiSend | Code/Client/ClientCore_TinyIM/ClientCore/CMediumServer.cpp:788-795 | a message goes to the user's GUI session exactly when there is one |
| Relay.RawForward | Code/Client/ClientCore_TinyIM/ClientCore/CMediumServer.cpp:2146-2166 | a packet without a case goes as it came to the paired backend session, else the GUI user's, else nowhere |
| Relay.BackGui | Code/Client/ClientCore_TinyIM/ClientCore/CMediumServer.cpp:1068-1072 | the GUI of the backend session's user id, else the one registered under its user name |
| Relay.GuiBeginReq | Code/Client/ClientCore_TinyIM/ClientCore/CMediumServer.cpp:1823-1864 | the request carries the content hash and the stored name, or the base name for new content |
| Relay.BeginAnswer | Code/Client/ClientCore_TinyIM/ClientCore/CMediumServer.cpp:2558-2612 | new content: recorded in transfer, receive file opened, Succeed; stored content: FileTransing, then the waiting messages released |
| Relay.IdleTick | Code/Client/ClientCore_TinyIM/ClientCore/CMediumServer.cpp:976-992 | the idle counter follows NextNoSess; the queue is flushed on retry ticks; stop() past the limit; otherwise nothing |
| Relay.IdleRound | Code/Client/ClientCore_TinyIM/ClientCore/CMediumServer.cpp:927-950 | the idle statements with the flush inlined compute exactly IdleTick |
| Relay.VerifyDownload | Code/Client/ClientCore_TinyIM/ClientCore/CMediumServer.cpp:1095-1178 | a match releases the image's messages and records the file; a mismatch removes it; the answer and file notice follow |
| Relay.DownloadAnswered | Code/Client/ClientCore_TinyIM/ClientCore/CMediumServer.cpp:2735-2778 | success ties the hash to the message and releases it when the image is present; failure is DownloadFailedAsWritten: both waiting messages are acknowledged, only the friend one is dropped |
| Relay.MediumServer.GetFileName | Code/Client/ClientCore_TinyIM/ClientCore/CMediumServer.cpp:179 | "" for a file id that is not open |
| Relay.MediumServer.UserMainFolder | Code/Client/ClientCore_TinyIM/ClientCore/CMediumServer.cpp:3377-3388 | empty exactly when the user's name is unknown |
| Relay.MediumServer.UserImageDir | Code/Client/ClientCore_TinyIM/ClientCore/CMediumServer.cpp:3396-3407 | empty exactly when the user's name is unknown |
| Relay.MediumServer.UserFileDir | Code/Client/ClientCore_TinyIM/ClientCore/CMediumServer.cpp:3409-3421 | empty exactly when the user's name is unknown |
| Relay.MediumServer.UserDataBaseFileName | Code/Client/ClientCore_TinyIM/ClientCore/CMediumServer.cpp:3429-3440 | empty exactly when the user's name is unknown |
| Relay.MediumServer.SetUserIdUserName | Code/Client/ClientCore_TinyIM/ClientCore/CMediumServer.cpp:3346-3350 | the registry becomes WithUserName |
| Relay.MediumServer.CreateClientSess | Code/Client/ClientCore_TinyIM/ClientCore/CMediumServer.cpp:912-921 | returns the old spare, which is never the new spare, and starts the new one |
| Relay.MediumServer.Accept | Code/Client/ClientCore_TinyIM/ClientCore/CMediumServer.cpp:830-869 | with a backend configured, a new GUI session and a new backend session are made, the backend session is started, and the two are paired; without one, no session is made and nothing changes |
| Relay.MediumServer.OnLoginRsp | Code/Client/ClientCore_TinyIM/ClientCore/CMediumServer.cpp:2851-2971 | a failed login changes nothing; a successful one makes the registry LoggedIn and sends the login traffic |
| Relay.MediumServer.RegisterLogin | Code/Client/ClientCore_TinyIM/ClientCore/CMediumServer.cpp:2854-2937 | the registry becomes LoggedIn, a UDP session is made only if none exists, the store is opened |
| Relay.MediumServer.AnnounceLogin | Code/Client/ClientCore_TinyIM/ClientCore/CMediumServer.cpp:2890-2957 | one id drawn; the login traffic is sent |
| Relay.MediumServer.OnLogoutRsp | Code/Client/ClientCore_TinyIM/ClientCore/CMediumServer.cpp:2979-3006 | a failed logout changes nothing; a successful one makes the registry LoggedOut and stops the paired GUI and the backend session |
| Relay.MediumServer.ServerSessClose | Code/Client/ClientCore_TinyIM/ClientCore/CMediumServer.cpp:3014-3040 | the registry becomes SessClosed |
| Relay.MediumServer.OnNetFailed | Code/Client/ClientCore_TinyIM/ClientCore/CMediumServer.cpp:3047-3071 | the registry becomes NetFailed; a logged-out user's session is stopped |
| Relay.MediumServer.OnNetRecover | Code/Client/ClientCore_TinyIM/ClientCore/CMediumServer.cpp:3216-3227 | an interrupted login (LoginSend) is sent again from its stored request |
| Relay.MediumServer.OnGuiLoginReq | Code/Client/ClientCore_TinyIM/ClientCore/CMediumServer.cpp:2042-2068 | the request is stored and goes to the spare session when connected, else that session is started |
| Relay.MediumServer.OnGuiNetFailed | Code/Client/ClientCore_TinyIM/ClientCore/CMediumServer.cpp:2172-2198 | with a stored login, a logout with its credentials goes to the backend under a fresh id; otherwise nothing |
| Relay.MediumServer.OnUdpP2pStartRsp | Code/Client/ClientCore_TinyIM/ClientCore/CMediumServer.cpp:80-97 | the registry becomes KeptAlive |
| Relay.MediumServer.OnUdpP2pStartReq | Code/Client/ClientCore_TinyIM/ClientCore/CMediumServer.cpp:106-118 | the id-swapped answer goes back to the asking address |
| Relay.MediumServer.OnUdpKeepAliveRsp | Code/Client/ClientCore_TinyIM/ClientCore/CMediumServer.cpp:126-145 | a self-probe under a fresh id goes to the answering address |
| Relay.MediumServer.OnUdpDataSendReq | Code/Client/ClientCore_TinyIM/ClientCore/CMediumServer.cpp:153-194 | a chunk within the total is written, acknowledged and reported; one past the total changes nothing |
| Relay.MediumServer.OnTcpDataRecvReq | Code/Client/ClientCore_TinyIM/ClientCore/CMediumServer.cpp:1341-1363 | a chunk within the total is written and acknowledged; the last one closes the file |
| Relay.MediumServer.OnUdpDataRecvReq | Code/Client/ClientCore_TinyIM/ClientCore/CMediumServer.cpp:1370-1418 | as over TCP, acknowledged over UDP, with progress always reported |
| Relay.MediumServer.AnswerAck | Code/Client/ClientCore_TinyIM/ClientCore/CMediumServer.cpp:231-264 | the answer is AfterAck's; the read file closes after the last chunk; ids drawn per AckIds |
| Relay.MediumServer.OnTcpDataSendRsp | Code/Client/ClientCore_TinyIM/ClientCore/CMediumServer.cpp:202-206 | the answer goes back on the session the ack came on |
| Relay.MediumServer.SendAnswerUdp | Code/Client/ClientCore_TinyIM/ClientCore/CMediumServer.cpp:283-337 | the next chunk goes over UDP with progress, or the verification goes to the backend |
| Relay.MediumServer.OnFileBeginReq | Code/Client/ClientCore_TinyIM/ClientCore/CMediumServer.cpp:2558-2612 | the tables and traffic are exactly BeginAnswer's for the stored name and the receive path |
| Relay.MediumServer.OnFileBeginRsp | Code/Client/ClientCore_TinyIM/ClientCore/CMediumServer.cpp:2816-2849 | acceptance opens the image and sends chunk 1; refusal sends the messages held for the hash |
| Relay.MediumServer.OnFriendNotifyFile | Code/Client/ClientCore_TinyIM/ClientCore/CMediumServer.cpp:1247-1333 | a refusal changes nothing; agreement opens the file and sends chunk 1 by the mode's route |
| Relay.MediumServer.OnFileVerifyReq | Code/Client/ClientCore_TinyIM/ClientCore/CMediumServer.cpp:1095-1178 | the receive file closes; tables and traffic are exactly VerifyDownload's |
| Relay.MediumServer.OnFileVerifyRsp | Code/Client/ClientCore_TinyIM/ClientCore/CMediumServer.cpp:1186-1240 | success sends and drops the held messages; failure releases nothing; the file notice follows |
| Relay.MediumServer.OnFileDownLoadRsp | Code/Client/ClientCore_TinyIM/ClientCore/CMediumServer.cpp:2735-2778 | the tables and traffic are exactly DownloadAnswered's, so a failure keeps the group message held, as written |
| Relay.MediumServer.OnFriendChatSendTxtReq | Code/Client/ClientCore_TinyIM/ClientCore/CMediumServer.cpp:1910-1968 | a message with images is offered and held under the last hash, renamed; one without goes straight to the backend |
| Relay.MediumServer.OnSendGroupTextReq | Code/Client/ClientCore_TinyIM/ClientCore/CMediumServer.cpp:1985-2040 | the same for a group message, under a fresh message id |
| Relay.MediumServer.OnFriendChatRecvTxtReq | Code/Client/ClientCore_TinyIM/ClientCore/CMediumServer.cpp:2242-2324 | images are downloaded and the message waits; a message with neither images nor files is shown and acknowledged |
| Relay.MediumServer.OnRecvGroupTextReq | Code/Client/ClientCore_TinyIM/ClientCore/CMediumServer.cpp:2452-2550 | the same for a group message, with the group acknowledgement |
| Relay.MediumServer.OnFriendChatSendTxtRsp | Code/Client/ClientCore_TinyIM/ClientCore/CMediumServer.cpp:2397-2450 | the answer goes to the GUI with image names prefixed by the image folder |
| Relay.MediumServer.OnNotifyGroupMsg | Code/Client/ClientCore_TinyIM/ClientCore/CMediumServer.cpp:2326-2333 | the notice is answered on its session with its own ids |
| Relay.MediumServer.OnGetFriendListRsp | Code/Client/ClientCore_TinyIM/ClientCore/CMediumServer.cpp:776-797 | the friend list becomes the flattened teams and the answer goes to the GUI |
| Relay.MediumServer.OnQueryUdpAddrRsp | Code/Client/ClientCore_TinyIM/ClientCore/CMediumServer.cpp:3092-3121 | success records the address; failure queues a fresh query for the asking user |
| Relay.MediumServer.CheckAllConnect | Code/Client/ClientCore_TinyIM/ClientCore/CMediumServer.cpp:802-824 | the traffic and ids are exactly ConnectionCheck's |
| Relay.MediumServer.OnTimer | Code/Client/ClientCore_TinyIM/ClientCore/CMediumServer.cpp:964-993 | the tick counter moves on; connections are checked; the idle check is IdleTick |
| Relay.MediumServer.SetTimer | Code/Client/ClientCore_TinyIM/ClientCore/CMediumServer.cpp:1004-1036 | re-armed exactly while the idle counter is below 30; otherwise the reactor stops |
| Relay.MediumServer.OnFriendChatHistory | Code/Client/ClientCore_TinyIM/ClientCore/CMediumServer.cpp:1765-1783 | the GUI gets the history, empty without an open store |
| Relay.MediumServer.OnGroupChatHistory | Code/Client/ClientCore_TinyIM/ClientCore/CMediumServer.cpp:1794-1814 | the same for a group's history |
| Relay.MediumServer.OnGuiFileBeginReq | Code/Client/ClientCore_TinyIM/ClientCore/CMediumServer.cpp:1823-1864 | new content is copied to the file folder; the request goes to the backend as GuiBeginReq |
| Relay.MediumServer.OnFriendSendFile | Code/Client/ClientCore_TinyIM/ClientCore/CMediumServer.cpp:2130-2145 | with a backend session the hash is recorded as a file and the request goes on; otherwise nothing |
| Relay.MediumServer.OnTcpKeepAlive | Code/Client/ClientCore_TinyIM/ClientCore/CMediumServer.cpp:3228-3259 | the user sends a keep-alive to the server over its UDP session |
| Relay.MediumServer.OnUnReadNotify | Code/Client/ClientCore_TinyIM/ClientCore/CMediumServer.cpp:3267-3281 | the answer goes to the backend session of the user the notice names |
| Relay.BackGroupOf | Code/Client/ClientCore_TinyIM/ClientCore/CMediumServer.cpp:3131-3325 | each message class with a case in the backend switch falls into exactly one group of handlers: chat, session or file |
| Relay.MediumServer.OnUdpDataSendRsp | Code/Client/ClientCore_TinyIM/ClientCore/CMediumServer.cpp:272-337 | the answer to a chunk acknowledgement is AckStep's, computed as over TCP; the next chunk goes over UDP with progress under the next id, or the verification goes to the backend; the read file closes after the last chunk |
| Relay.MediumServer.HandleBackChatCall | Code/Client/ClientCore_TinyIM/ClientCore/CMediumServer.cpp:3135-3162 | for each chat message class the new state is what its handler promises; the empty handlers and every other class change nothing |
| Relay.MediumServer.HandleBackSessionCall | Code/Client/ClientCore_TinyIM/ClientCore/CMediumServer.cpp:3184-3197 | for each session message class (login, logout, keep-alive, UDP address, friend list) the new state is what its handler promises; every other class changes nothing |
| Relay.MediumServer.HandleBackFileCall | Code/Client/ClientCore_TinyIM/ClientCore/CMediumServer.cpp:3163-3183 | for each file-transfer class the new state is what its handler promises (a TCP chunk acknowledgement is answered on its session); every other class changes nothing |
| Relay.MediumServer.HandleBackCall | Code/Client/ClientCore_TinyIM/ClientCore/CMediumServer.cpp:3131-3325 | the message goes to the handler group BackGroupOf names, and the new state is what that message's handler promises; a class in no group changes nothing |
| Relay.MediumServer.HandleSendBack | Code/Client/ClientCore_TinyIM/ClientCore/CMediumServer.cpp:3131-3338 | handled exactly when the tag has a case; a parsed message leaves the state its handler promises, a network failure or recovery report the state OnNetFailed or OnNetRecover promises; unparsed or caseless packets change nothing |
| Relay.MediumServer.SendBack | Code/Client/ClientCore_TinyIM/ClientCore/CMediumServer.cpp:1063-1087 | without a GUI the packet goes to the HTTP server; with one, the outcome is HandleSendBack's, per message class; a caseless one goes to the GUI as it came |
| Relay.MediumServer.HandleForwardCall | Code/Client/ClientCore_TinyIM/ClientCore/CMediumServer.cpp:2081-2145 | for each forward class the new state is what its handler promises; a message of no forward class changes nothing |
| Relay.MediumServer.HandleSendForward | Code/Client/ClientCore_TinyIM/ClientCore/CMediumServer.cpp:2077-2169 | handled exactly when the tag has a case or the packet can be passed on; a parsed message leaves the state its handler promises, a GUI close report OnGuiNetFailed's; caseless packets go as RawForward |
| Relay.MediumServer.DispatchUdpMsg | Code/Client/ClientCore_TinyIM/ClientCore/CMediumServer.cpp:345-400 | a parsed datagram leaves the state its handler promises (a chunk acknowledgement: OnUdpDataSendRsp's); a datagram without a case or that does not parse changes nothing |

## Left out

- The database writes of chat messages and file records (`Save_*` calls other than the file-hash store) are not modelled. The chat-history handlers take the store's records as a parameter (`history`).
- HTTP: `HandleHttpMsg` and `OnHttpRsp` (1426 on) are not modelled. A packet the relay hands to the HTTP server is the effect `HttpRsp`.
- `Handle_RecvFileOnlineRsp` (1751), `DoSearchChatHistoryReq`, `start`, `loadConfig`, `GetLocalAllIp` and `CreateUdpSess` are not modelled: they are configuration, socket set-up and forwarding with no state of their own. A UDP session is a fresh handle.
- Logging is not modelled.
- CMediumServer.h, which declares the fields and their initial values, is not part of this model. The constructor of `Relay.MediumServer` starts every table empty and every counter at 0.
- The message classes' JSON encoding (Proto.cpp) is not part of this model. `FromString` is the parameter `parse`, and the conversion of message element vectors is taken as the identity.
- `TransBaseMsg_t`, its header layout and `max_length` are not part of this model. The header size, the buffer size and `sizeof(TransBaseMsg_t)` are constructor parameters of `FrameCodec.ServerSess`. The declared size is taken to be the little-endian 32-bit number in the header's first four bytes.
- The iteration order of `std::map`/`std::unordered_map` is a parameter. It is a sequence that lists each key once (`Enumerates`).
- The following are parameters:
  - `time()` is `now`;
  - `rand()` file ids are `fileIds`;
  - `GenerateMsgId` is `genId` applied to a counter.
- The file helper is a snapshot of the disk (`Disk`), with these assumptions:
  - opening a file for reading, copying and hashing a file succeed exactly
    when the file exists;
  - a file's hash is an opaque function of its path;
  - open files are names under a file id, and their contents are not tracked.
- Relay.BeginAnswer: the write-open of the receive file for new content (2589, reached through `OnFileBeginReq`) is taken to succeed, so the file is always recorded under the id plus 1. The source only logs a failed open (2593-2596) and still answers Succeed; the model does not cover that failure.
- Relay.MediumServer.OnUdpDataSendReq: as written, the UDP receive path never closes its write file. The model keeps this, so no "closed" state is claimed for it.
- Relay.MediumServer.AnswerAck: the UDP handler for a chunk acknowledgement (272-337), `OnUdpDataSendRsp`, is modelled in two steps, `AnswerAck` then `SendAnswerUdp`. Together they compute the same messages as the TCP handler's single step.
- Relay.MediumServer.OnFriendNotifyFile: the P2P route uses the address recorded for the notifying user, as the code at 1311-1322 does.
- Relay.MediumServer.OnLogoutRsp: the source reads the paired GUI session after erasing its map entry (2994-2996), which is a use after erase. The model reads it before the erase.
- Relay.MediumServer.SetTimer: `m_timer` is taken to be non-null.
- FileTransfer.Percent: `100 * index` is computed in unbounded integers. A 32-bit overflow for totals above 21474836 chunks is not modelled.
- Relay.MediumServer.HandleBackCall: the empty handlers for the group-send answer (2335), the file-receive notice (3073) and the register answer change nothing, and the contract says only that.
- Relay.MediumServer.HandleSendBack: states, per message class, what that class's handler promises about the fields it may change. It does not restate that the fields outside that handler's frame keep their values; only the `modifies` clauses bound those.
- Relay.MediumServer.SendBack: states, per message class, what that class's handler promises about the fields it may change. It does not restate that the fields outside that handler's frame keep their values; only the `modifies` clauses bound those.
- Relay.MediumServer.HandleBackCall: states, per message class, what that class's handler promises about the fields it may change. It does not restate that the fields outside that handler's frame keep their values; only the `modifies` clauses bound those.
- Relay.MediumServer.HandleBackChatCall: states, per message class, what that class's handler promises about the fields it may change. It does not restate that the fields outside that handler's frame keep their values; only the `modifies` clauses bound those.
- Relay.MediumServer.HandleBackSessionCall: states, per message class, what that class's handler promises about the fields it may change. It does not restate that the fields outside that handler's frame keep their values; only the `modifies` clauses bound those.
- Relay.MediumServer.HandleBackFileCall: states, per message class, what that class's handler promises about the fields it may change. It does not restate that the fields outside that handler's frame keep their values; only the `modifies` clauses bound those.
- Relay.MediumServer.HandleForwardCall: states, per message class, what that class's handler promises about the fields it may change. It does not restate that the fields outside that handler's frame keep their values; only the `modifies` clauses bound those.
- Relay.MediumServer.HandleSendForward: states, per message class, what that class's handler promises about the fields it may change. It does not restate that the fields outside that handler's frame keep their values; only the `modifies` clauses bound those.
- Relay.MediumServer.DispatchUdpMsg: states, per message class, what that class's handler promises about the fields it may change. It does not restate that the fields outside that handler's frame keep their values; only the `modifies` clauses bound those.
- UserPaths.BaseName: CFileUtil is not part of this model. `GetFileNameFromPath` is taken to return what follows the path's last '\\' or '/'.
- UserPaths.Extension: CFileUtil is not part of this model. `GetFileNameExtension` is taken to return the last path component's tail from its last '.', the '.' included, or an empty string when that component has no '.'.
- The HTTP server's own timer and its message-id generator are not part of this model.

## Findings

| source | as written | input that shows it | evidently intended | confidence | as-written member | corrected member |
|---|---|---|---|---|---|---|
| Code/Server/ChatServer/MediumServer/CServerSess.cpp:19-26 | the size is taken from the message object built once, before the loop, so every round consumes the first frame's size (lines 24-25). What the object dispatched on later rounds holds depends on `TransBaseMsg_t`, which is not part of this model; the model takes it to keep the first frame's size and states only the consumption | one read holding an 8-byte frame then a 12-byte frame: the second round consumes 8 bytes and 4 bytes of the second frame are kept as leftover | read each frame's own header at the buffer's current front | high (not executed) | FrameCodec.HeaderReadOnceSplitsSecondFrame | FrameCodec.ServerSess.DrainFrames |
| Code/Server/ChatServer/MediumServer/CServerSess.cpp:21-26 | a header that declares size 0 consumes nothing, and the loop condition stays true | a read whose first four bytes are zero, with at least a header's worth of bytes | stop when the declared size is 0 (or close the session) | high (not executed) | FrameCodec.ZeroSizeNeverExits | FrameCodec.ServerSess.DrainFrames |
| Code/Client/ClientCore_TinyIM/ClientCore/CMediumServer.cpp:2762-2775 | after a failed download the group message is acknowledged, but the erase is made on the friend table `m_waitImageMsgMap` | two failed download answers for a waiting group message: each one acknowledges it again | erase the entry from `m_groupWaitImageMsgMap` | high (not executed) | HeldMessages.DownloadFailedAsWrittenKeepsGroup | HeldMessages.DownloadFailedOnce |
