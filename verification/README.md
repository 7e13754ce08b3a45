# Verification of the peer-to-peer file sharing system

This project models the system's two state machines, and the code under them, in Dafny
and proves what they are for.

* **Trackers.** Two trackers hold users, groups, memberships, file metadata and seeders.
  Each logs the operations its clients succeed with and replays the other's. `Tracker.dfy`
  gives every operation as a function; `TrackerState.dfy` is the mutable class, proved against
  it; `Snapshot.dfy` is the byte format of a whole database; `Wire.dfy`, `Sync.dfy`,
  `SyncManager.dfy` and `Session.dfy` are payloads, log, replication class and client session.
  On top stand the results: `History.dfy` (whole runs of one tracker), `Answers.dfy` (every status it
  gives, from its history alone), `Identity.dfy` (whose session it is), `Service.dfy` (a client's
  bytes, end to end), `Replay.dfy` (two replicas, confluence), `Protocol.dfy` (runs with link drops), `Overtake.dfy` and `Swapped.dfy` (exactly what
  its scheduling assumptions are worth), `Duplex.dfy` (clients at work on both trackers over one
  link), `Reunion.dfy` (the same across drops) and `Bootstrap.dfy` (a tracker that starts empty).
* **Downloads.** Workers share a queue of piece indices and fetch from unreliable peers into one
  verified file. `Pieces.dfy` is the piece store with its bitmap, partial writes and resume scan;
  `Download.dfy` is the round of concurrent workers and the job of five rounds; `Crew.dfy` says over
  whole schedules when a worker leaves and when a round completes; `Parallel.dfy` is the pool of
  threads that read and hash pieces.
* **Support.** `Codec.dfy` (payload encoding and read cursor), `Net.dfy` (framing over partial
  sends and receives), `Sha1.dfy` (streaming SHA-1 against RFC 3174, with the standard's first test
  in `KnownAnswer.dfy`), `Bytes.dfy` (bytes and the
  key order of `std::map`).

`dafny verify dfyconfig.toml` checks all of it.

## How the model is built

A class of the source is a class here. Its methods update fields in place, and their contracts
tie the new state to a function of the old one; the theorems are about those functions. Threads
are state machines whose steps are the code's critical sections, single fetches, single partial
reads and single partial writes; schedules are arbitrary. Sockets, disks and the scheduler are
nondeterministic: a call may move any number of bytes, be interrupted, or fail.

Values a caller of a query sees in `std::map` or `std::set` order come in the order of
`Bytes.Less`, which compares unsigned bytes. Payload integers are little-endian, as on the hosts
the code is built for.

## Assumptions by name

* **Atomic sends.** In `Protocol.dfy` and `Duplex.dfy` a client request is handled, logged and sent
  in one step. The code releases one mutex and takes another in between (tracker/sync.cpp:103-119).
  `Swapped.CrossedLoses` and `Swapped.CrossedAgrees` say what happens when two sends change places:
  a drop in between loses the earlier operation for good; without one, independent operations leave
  the same system.
* **HELLO first.** A new link starts behind HELLO and the dialer's request for what is missing. The
  code publishes the dialer's socket before it sends them (tracker/sync.cpp:54-66), and a client
  operation of the dialer that is sent in between makes the acceptor serve the connection as a
  client's (tracker/main.cpp:92-103). `Session.PeerStreamIgnored` says what becomes of the link then:
  no message of the dialer on it has any effect.
* **Quiet catch-up.** No client operation is issued at the origin while the catch-up request of a
  link waits to be served. The code publishes the socket before it reads that request
  (tracker/sync.cpp:130-159). `Overtake.HarmlessIff` is the exact condition under which a single
  operation may break it. The log theorems `Sync.LogNoGaps` and `Sync.CatchupSendsMissing` need
  neither assumption.
* **Readable tails.** No client sends bytes behind its last field that hide the user, address and
  port the session appends to the log entry (`Session.Readable`, the guard of `Wire.FaithfulIff`).
  The client operations of `Protocol.dfy` and `Duplex.dfy` carry the raw request and the session, so
  this is a hypothesis of `Protocol.ReplicaRefinesPrefix` and not part of what a step does.
* **One direction.** The theorems of `Protocol.dfy` are about operations that start at
  tracker 1, which accepts, and are replayed at tracker 0, which dials: only the dialer asks for a
  catch-up (tracker/sync.cpp:60-81, 138-145). The replica makes no metadata changes of its own
  there, and both trackers start from the same non-empty database. `Reunion.BothRefine` admits clients
  of the dialer as well, with commands independent of the acceptor's, and says what each side then
  holds after any drops; `Duplex.ActiveActiveAgrees` is about the lifetime of one link, and
  `Duplex.DialerOpsLost` about what a drop takes from the dialer.
* **Equality of replicas** is equality up to online flags, addresses and seeders: logins and
  logouts are never replicated, and a logout evicts seeders locally (tracker/tracker_state.cpp:44-57).

## Where the code and its documentation differ

The model follows the code.

* `file_hash` is the SHA-1 of the concatenated hexadecimal piece hashes (common/sha1.cpp:126-133),
  not of the file's bytes.
* A job has up to 5 rounds (client/download_manager.cpp:15-20), not 3, and several connections per
  peer when there are few peers.
* There is no final pass over the file before it is shared (client/download_manager.cpp:118-120).
  `Download.RehashIff` says for which metadata the pass could not have failed.
* An operation is acknowledged even when replaying it fails (tracker/sync.cpp:186-190), so the log
  can lose an operation the replica refused.

## Properties that fail, and exactly when

* **Healing.** A quiet, readable run can be continued to agreement if and only if 22 plus the payload of every
  unapplied operation is within `MAX_PAYLOAD` (`Protocol.HealsIff`). An operation that is too large
  for its frame is never received in any run at all (`Protocol.OversizedNeverHeard`), and in quiet,
  readable runs it also holds back everything behind it (`Protocol.OversizedPins`);
  `Protocol.LargestRequestPins` gives a request the tracker accepts and that does this. Without the
  quiet catch-up a later operation can be applied past it (`Overtake.OversizedOvertaken`), exactly
  when the replica tolerates it (`Overtake.LateJumps`).
* **Catch-up.** Issuing an operation while a catch-up waits is harmless if and only if nothing is
  unapplied or its own frame is too large to arrive (`Overtake.HarmlessIff`). In every other
  state of a quiet, readable run operations can be lost (`Overtake.LossFollows`), for good
  (`Overtake.LossIsFinal`); `Overtake.OvertakenOpIsLost` is one such run with its data, after which
  the metadata differ.
* **The skipped re-hash.** It would succeed if and only if the pieces are whole or SHA-1 collides
  (`Download.RehashIff`). Whole means that the published count is ceil(size / PIECE_SIZE)
  (`Pieces.WholeMeansTiles`), except where the 32-bit piece length wraps (`Pieces.WrapIsWhole`).
  The tracker and the downloader do not compare size and count; `Download.OnePieceTooFew` is a
  download that completes and would fail the re-hash.
* **Replay of a logged request** is faithful if and only if the appended fields can be read behind
  the client's payload (`Wire.FaithfulIff`, `Session.LogReplaysRequest`); it always is for a payload
  without surplus bytes. `Wire.TrailingBytesLoseStopShare` and `Wire.SurplusOwnerDiverges` are
  failing families; in the second one the metadata differ.
* **The overlap of a bootstrap** counts as applied if and only if the operation did not dissolve its
  group (`Bootstrap.OverlapCountsIff`); the peer then sends it again at the next catch-up, harmlessly.
* Pieces tile the published size if and only if the count is ceil(size / PIECE_SIZE)
  (`Pieces.TilesIff`).
* The bitmap has room for every piece if and only if the count is below 2^32 - 7
  (`Pieces.BitmapFitsIff`).
* **The dialer's operations** can be lost in a drop (`Duplex.DialerOpsLost`). The trackers agree again
  if and only if what was lost makes no difference (`Reunion.CaughtUpAgreesIff`).
* A frame is received as sent if and only if its payload is within the limit (`Net.FrameExact`); so a
  larger snapshot is never received (`Bootstrap.SnapshotArrivesIff`).

## Model

| member | source | states |
|---|---|---|
| `Codec.U16Exact` | common/buffer.hpp:13-25 | two bytes parse to a port `v` with `r` left over if and only if they are the little-endian encoding of `v` followed by `r` |
| `Codec.U32Exact` | common/buffer.hpp:13-25 | the same for 32-bit counts: reading inverts writing, and nothing else reads as `v` |
| `Codec.U64Exact` | common/buffer.hpp:13-25 | the same for 64-bit sizes and sequence numbers |
| `Codec.LEDigit` | common/buffer.hpp:13-25 | byte i of a payload integer is its i-th digit to the base 256, least significant first |
| `Codec.BEDigit` | common/net.cpp:38-48 | byte i of a frame header field, counted from its end, is the same digit, so header fields are big-endian |
| `Codec.StrExact` | common/buffer.cpp:13-20 | `get_str` returns `s` and leaves `r` if and only if the unread bytes are `put_str(s)` followed by `r` |
| `Codec.StrRoundTripIff` | common/buffer.hpp:17-24 | a string survives `put_str` and `get_str` exactly when its length fits the 32-bit cast |
| `Codec.CountedInverts` | tracker/tracker_state.cpp:258-306 | a 32-bit count and that many records read back as the same list whenever each record does, whatever bytes follow |
| `Codec.CountedMonotone` | common/buffer.cpp:6-20 | a counted list that parses keeps its value when more bytes arrive behind it |
| `Codec.ParseListFails` | tracker/tracker_state.cpp:308-378 | once one record of a list is unreadable, no longer list is readable, so the loops may return at once |
| `Codec.FromListOfValues` | tracker/tracker_state.cpp:308-378 | inserting a map's values under their own keys rebuilds the map, so key and stored id carry the same information |
| `Codec.Buffer.PutU8` | common/buffer.hpp:13 | appends one byte and nothing else |
| `Codec.Buffer.PutU16` | common/buffer.hpp:14 | appends the two bytes that `U16Exact` reads back |
| `Codec.Buffer.PutU32` | common/buffer.hpp:15 | appends the four bytes that `U32Exact` reads back |
| `Codec.Buffer.PutU64` | common/buffer.hpp:16 | appends the eight bytes that `U64Exact` reads back |
| `Codec.Buffer.PutStr` | common/buffer.hpp:17 | appends the length, cut to 32 bits, and all the bytes |
| `Codec.Buffer.GetRaw` | common/buffer.cpp:6-11 | succeeds exactly when enough bytes remain; then the bytes taken and the bytes left make up what was unread; a failure does not move the cursor |
| `Codec.Buffer.GetU8` | common/buffer.hpp:20 | refines the one-byte parser and leaves the cursor alone on failure |
| `Codec.Buffer.GetU16` | common/buffer.hpp:21 | refines the parser of `U16Exact`; the cursor stays on failure |
| `Codec.Buffer.GetU32` | common/buffer.hpp:22 | refines the parser of `U32Exact`; the cursor stays on failure |
| `Codec.Buffer.GetU64` | common/buffer.hpp:23 | refines the parser of `U64Exact`; the cursor stays on failure |
| `Codec.Buffer.GetStr` | common/buffer.cpp:13-20 | refines the parser of `StrExact`; when the promised bytes are missing the cursor has already passed the length field, and only that |
| `Sha1.PadShape` | common/sha1.cpp:62-70 | the padded message has whole 64-byte blocks and is the shortest such; it is the message, the byte 0x80, zeros, and eight bytes of bit length (section 4 of RFC 3174) |
| `Sha1.PadInjective` | common/sha1.cpp:62-70 | below 2^64 bits no two messages pad alike, so only the block function can make digests collide |
| `Sha1.HexInjective` | common/sha1.cpp:71-78 | two digests print alike only when all five chaining words agree |
| `Sha1.FoldAppend` | common/sha1.cpp:48-60 | digesting a concatenation at a block boundary is digesting one part after the other |
| `Sha1.SHA1.constructor` | common/sha1.cpp:17-22 | a reset object has digested the empty message |
| `Sha1.SHA1.Schedule` | common/sha1.cpp:24-30 | the filled array is the recurrence W(0..79) of section 6.1 of RFC 3174 |
| `Sha1.SHA1.Transform` | common/sha1.cpp:24-46 | the 80 in-place rounds end in the chaining value that the recurrence of section 6.1 of RFC 3174, with the functions and constants of section 5, assigns to the block |
| `Sha1.SHA1.Update` | common/sha1.cpp:48-60 | whatever the carry buffer held, the object has afterwards digested exactly the bytes fed before followed by the new ones |
| `Sha1.SHA1.FinalHex` | common/sha1.cpp:62-78 | prints the digest of the padded concatenation of everything fed |
| `Sha1.HashBuffer` | common/sha1.cpp:80-84 | the streaming object computes the one-shot definition |
| `Sha1.HashStream` | common/sha1.cpp:48-78 | for every way of cutting a message into `update` calls, the result is the one-shot digest of the whole |
| `KnownAnswer.DigestOfAbc` | common/sha1.cpp:17-84 | the digest of "abc" is a9993e36 4706816a ba3e2571 7850c26c 9cd0d89d, the first test of section 7.3 of RFC 3174, so constants, rotations and byte orders are the standard's |
| `Bytes.LessIff` | tracker/tracker_state.cpp:103-120 | the order of names: at the first differing byte the smaller one decides, and a proper prefix comes first |
| `Net.FrameExact` | common/net.cpp:38-63 | a frame is received as it was sent if and only if its payload is within `MAX_PAYLOAD` |
| `Net.DeliveredIsFrame` | common/net.cpp:50-63 | the converse: whatever is received was framed just so, magic number included, and the bytes behind the frame are what is left |
| `Net.OversizedRejected` | common/net.cpp:50-63 | a payload over the limit whose length fits the header ends the session with an error |
| `Net.AllDelivered` | common/net.cpp:38-63 | any list of messages within the limit is received as exactly that list, then a clean close |
| `Net.DeliveredUpToOversized` | common/net.cpp:38-63 | messages before an oversized one all arrive, and nothing behind it does |
| `Net.CutDeliversPrefix` | common/net.cpp:50-63 | a stream cut at any byte delivers precisely the messages whose frames are whole, and reads as a clean close |
| `Net.SendAll` | common/net.cpp:14-24 | over any sequence of partial, interrupted and dead writes: success puts the whole buffer on the wire, failure a strict prefix, and only a dead socket fails |
| `Net.RecvAll` | common/net.cpp:26-36 | success takes exactly the next n bytes; an early close means fewer were ever sent; only a dead socket is an error |
| `Net.SendMsg` | common/net.cpp:38-48 | success puts one whole frame on the wire, failure a strict prefix of it |
| `Net.RecvMsg` | common/net.cpp:50-63 | on a healthy socket the three result codes separate a message, a close and a protocol error exactly as the byte stream does, and a message consumes its own frame only |
| `Net.RecvUntilEnd` | common/net.cpp:50-63 | repeated receiving hands over every message of the stream, in order, and stops with the code the stream ends in |
| `Net.TakeWithin` | common/net.cpp:50-63 | a receiver that stands anywhere inside a frame and gets any next part of it goes on, or hands over exactly that frame's message and stands at the next one |
| `Net.WantedFits` | common/net.cpp:50-63 | the receiver never asks for bytes behind the frame it is in |
| `Net.ReadKeeps` | common/net.cpp:50-63 | at any moment what was handed over, the bytes taken, the bytes on the wire and the bytes unsent are the stream of all messages; only the end of all of it ends the reading |
| `Net.TakeSplit` | common/net.cpp:26-36 | taking bytes of one field in two parts is taking them at once, so the cuts of a stream never matter |
| `Net.TakesReceive` | common/net.cpp:50-63 | the reader of single reads refines `recv_msg`: after a whole header and a whole payload it waits, rejects or has handed over exactly what `Receive` makes of those bytes |
| `Net.Converse` | common/net.cpp:14-63 | sender and receiver at the same time, system call by system call, in any interleaving and over any fragmentation on both sides: the list received is the list sent, and the end is a clean close |
| `Tracker.FailureChangesNothing` | tracker/tracker_state.cpp:21-256 | an operation that returns an error leaves the database as it was |
| `Tracker.ExecValid` | tracker/tracker_state.cpp:21-256 | every operation keeps the invariant: keys equal stored ids, the owner is a member, members and pending are disjoint, members, pending users and seeders exist; and no operation deletes a user |
| `Tracker.LoginValid` | tracker/tracker_state.cpp:32-42 | a login keeps that invariant and the set of users |
| `Tracker.LogoutValid` | tracker/tracker_state.cpp:44-57 | a logout keeps that invariant and the set of users although it rewrites every file's seeders |
| `TrackerState.TrackerState.CreateUser` | tracker/tracker_state.cpp:21-30 | status and whole new state are those of the functional model, on all branches; by `Answers.VerdictIs` and `History.LoginIff` a new name is accepted and its account opens to passwords of the same SHA-1 digest only |
| `TrackerState.TrackerState.Login` | tracker/tracker_state.cpp:32-42 | the same for a login, whose status in every case is settled by `History.LoginIff` |
| `TrackerState.TrackerState.Logout` | tracker/tracker_state.cpp:44-57 | the nested loops remove the user from the seeders of every file of every group and change nothing else but the online flag |
| `TrackerState.TrackerState.EvictAll` | tracker/tracker_state.cpp:49-55 | the loop over groups, in key order, reaches each group once |
| `TrackerState.TrackerState.EvictFiles` | tracker/tracker_state.cpp:49-55 | the loop over files erases one user everywhere and no other entry |
| `TrackerState.TrackerState.Empty` | tracker/tracker_state.cpp:65-68 | true exactly when there is neither user nor group |
| `TrackerState.TrackerState.CreateGroup` | tracker/tracker_state.cpp:78-89 | in-place update against the functional model, all error branches in the code's order |
| `TrackerState.TrackerState.JoinGroup` | tracker/tracker_state.cpp:91-101 | in-place update against the functional model, all error branches in the code's order |
| `TrackerState.TrackerState.LeaveGroup` | tracker/tracker_state.cpp:107-120 | the erase-then-promote code reaches the state `LeavesDetermined` speaks about: dissolved, or handed to the least remaining id |
| `TrackerState.TrackerState.AcceptRequest` | tracker/tracker_state.cpp:122-135 | moves one pending user to the members, for the owner only, and touches no other group; by `Answers.VerdictIs` it succeeds whenever the caller owns the group and the request is pending |
| `TrackerState.TrackerState.AddFile` | tracker/tracker_state.cpp:149-180 | a new file gets the uploader as its only seeder; a known one must have the published hash and gains a seeder |
| `TrackerState.TrackerState.StopShare` | tracker/tracker_state.cpp:218-233 | removes one seeder entry and keeps the file |
| `TrackerState.TrackerState.UpdateBitfield` | tracker/tracker_state.cpp:235-256 | creates or overwrites the caller's seeder entry field by field and touches no other |
| `TrackerState.TrackerState.ListRequests` | tracker/tracker_state.cpp:137-147 | the owner gets the pending users in key order; everyone else gets a status and nothing |
| `TrackerState.TrackerState.ListFiles` | tracker/tracker_state.cpp:182-193 | a member gets the file names in key order |
| `TrackerState.TrackerState.GetFile` | tracker/tracker_state.cpp:195-216 | a member gets the record with every recorded seeder, online or not |
| `TrackerState.TrackerState.Snapshot` | tracker/tracker_state.cpp:258-306 | the nested loops write exactly the format that `RoundTrip`, `SnapshotInjective` and `TruncationRejected` are about |
| `TrackerState.TrackerState.Restore` | tracker/tracker_state.cpp:308-378 | succeeds exactly on parsable dumps; then the state is the parsed one, otherwise users and groups are unchanged |
| `Snapshot.RoundTrip` | tracker/tracker_state.cpp:258-378 | for every valid database with 32-bit sizes, restoring its snapshot succeeds, consumes every byte and yields exactly that database through all nested levels |
| `Snapshot.RestoredFromSnapshot` | tracker/tracker_state.cpp:374-378 | whatever the receiving tracker held before, it holds the snapshot's database afterwards |
| `Snapshot.SnapshotInjective` | tracker/tracker_state.cpp:258-306 | different valid databases never have the same snapshot |
| `Snapshot.ParseDbMonotone` | tracker/tracker_state.cpp:308-378 | bytes behind a readable dump cannot change how it reads |
| `Snapshot.TruncationRejected` | tracker/tracker_state.cpp:308-378 | every strict prefix of a snapshot is rejected and leaves the state untouched |
| `Replay.AdmittedReplays` | tracker/sync.cpp:220-296 | the bisimulation step: what one replica's metadata admits, a replica equal up to online, ip, port and seeders applies, and they stay equal |
| `Replay.SuccessIsAdmitted` | tracker/sync.cpp:220-296 | an operation that returned `ST_OK` at the origin is admitted |
| `Replay.LoginKeepsMeta` | tracker/tracker_state.cpp:32-42 | a login changes session data only |
| `Replay.LogoutKeepsMeta` | tracker/tracker_state.cpp:44-57 | a logout changes session data and seeders only |
| `Replay.SeedersStep` | tracker/sync.cpp:220-296 | replaying a successful operation keeps every seeder entry of the origin on the replica, with the same address and bitfield |
| `Replay.LogoutShrinksSeeders` | tracker/tracker_state.cpp:44-57 | a logout at the origin can only make its seeders fewer |
| `Replay.Idempotent` | tracker/sync.cpp:220-296 | in every database, applying any of the eight operations twice in a row leaves what applying it once leaves |
| `Replay.GroupFrame` | tracker/tracker_state.cpp:78-256 | an operation on a group reads only that group and the users it looks up, and writes only that group |
| `Replay.Commute` | tracker/tracker_state.cpp:21-256 | two operations on different groups, creating different users, or creating a user the other does not look up, reach the same database in either order with the same statuses |
| `Replay.MovesAcross` | tracker/tracker_state.cpp:21-256 | an operation independent of a whole sequence can be moved from its end to its front without anyone noticing |
| `Replay.Confluence` | tracker/sync.cpp:103-119 | every interleaving of two mutually independent streams ends where running one after the other ends, and each stream sees the statuses it would have seen alone |
| `Replay.ActiveActiveConverges` | tracker/sync.cpp:174-192 | two trackers that saw the same independent streams in any two orders hold the same database and gave the same statuses |
| `History.ReachableValid` | tracker/tracker_state.cpp:21-256 | the tracker invariant holds after every sequence of operations, logins and logouts |
| `History.Bisimulation` | tracker/sync.cpp:220-296 | over whole runs with logins and logouts free on both sides: every operation that succeeded at the origin counts as applied on the replica, the metadata stay equal, and without logouts on the replica no seeder of the origin is missing there |
| `History.GroupIff` | tracker/tracker_state.cpp:78-120 | after any run, a group exists if and only if somebody created it and its last member has not left since |
| `History.MembershipStep` | tracker/tracker_state.cpp:78-135 | one event changes one user's membership only by creating, being accepted, or leaving |
| `History.MemberIff` | tracker/tracker_state.cpp:78-135 | after any run, a user is a member if and only if at some point it created the group or its then-owner accepted it, and it has not left since |
| `History.SinceIff` | tracker/tracker_state.cpp:21-256 | over any run of a fresh tracker, a fact that events start and end holds now if and only if some event started it and none since has ended it |
| `History.PendingIff` | tracker/tracker_state.cpp:91-135 | after any run, a request is pending if and only if it was made and has not been accepted since, and the last member of the group has not left since |
| `History.SeederStep` | tracker/tracker_state.cpp:44-57 | one event changes one user's seeder entry only by an upload or bitfield of that user, which sets it, or by stop_share, logout or dissolution, which remove it; leaving the group does not |
| `History.SeederIff` | tracker/tracker_state.cpp:149-256 | after any run, the peer list holds a given entry for a user if and only if that is what the user last announced, with nothing withdrawn since |
| `History.PublishedIff` | tracker/tracker_state.cpp:149-180 | after any run, a file has a given name, size and hashes if and only if its first upload published them and the group has lasted since |
| `History.UserIff` | tracker/tracker_state.cpp:21-30 | after any run, a user is known if and only if it was once created |
| `History.LoginIff` | tracker/tracker_state.cpp:21-42 | after any run, a login succeeds if and only if the user was once created with a password of the same SHA-1 digest; the status is "not found" if and only if it was never created, and "bad credentials" if and only if it was, with another digest |
| `History.LoginCollides` | tracker/tracker_state.cpp:16-37 | whoever logs in to an account created with another password shows a collision of SHA-1, and every such collision does log in |
| `History.RequestsListed` | tracker/tracker_state.cpp:137-147 | exactly the owner is shown the requests, and exactly those made and not yet accepted |
| `History.FilesListed` | tracker/tracker_state.cpp:182-193 | exactly the members are shown the files, and exactly those that were published in their group |
| `History.SeedersTold` | tracker/tracker_state.cpp:195-216 | a member is told exactly the entries the seeders announced last and have not withdrawn |
| `History.EmptyIff` | tracker/tracker_state.cpp:65-68 | a tracker counts as empty, and asks its peer for everything, exactly until its first user is created |
| `History.FileImmutable` | tracker/tracker_state.cpp:149-180 | over any run, a published file stays and keeps its name, size and hashes for as long as its group lasts |
| `History.LeavesDetermined` | tracker/tracker_state.cpp:103-120 | when any distinct members leave, every leave succeeds and the result depends on their set alone: dissolved if none remain, the old owner if still present, else the least remaining id |
| `History.HandoffOrderIndependent` | tracker/tracker_state.cpp:103-120 | any permutation of the same departures gives the same database and the same statuses |
| `Answers.OwnerIff` | tracker/tracker_state.cpp:78-120 | after any run, a user owns a group if and only if it created it, or came first among the remaining members as the owner left, and has not left since |
| `Answers.FileIff` | tracker/tracker_state.cpp:149-180 | after any run, a group has a file of a name, and of a file hash, if and only if an upload of it succeeded and the last member has not left since |
| `Answers.SharedIff` | tracker/tracker_state.cpp:149-256 | after any run, a user is among the seeders of a file if and only if it announced pieces and has not withdrawn since |
| `Answers.VerdictIs` | tracker/tracker_state.cpp:21-256 | the status of each of the eight operations after any run, every refusal included, from the history alone: which users were created, groups founded and not dissolved, members, requests, owners, published names and hashes, and seeders |
| `Answers.RequestsAnswer` | tracker/tracker_state.cpp:137-147 | the status of a request list, every refusal included, and that it names exactly those who asked and wait |
| `Answers.FilesAnswer` | tracker/tracker_state.cpp:182-193 | the status of a file list, every refusal included, and that it names exactly the published files |
| `Answers.FileAnswer` | tracker/tracker_state.cpp:195-216 | the status of a metadata request, every refusal included; a granted one has the record first published, and exactly the entries announced last and not withdrawn |
| `Answers.PresentIff` | tracker/tracker_state.cpp:32-48 | after any run, a user is online from an address if and only if its last login came from there and it has not logged out since |
| `Answers.LogoutAnswer` | tracker/tracker_state.cpp:44-57 | a logout is refused exactly for a user that was never created |
| `Answers.CountsIff` | tracker/sync.cpp:220-296 | a replay counts as applied, and so moves the number the next catch-up asks from, exactly under the stated condition on the replica's history, for each of the eight operations |
| `Wire.FaithfulIff` | tracker/session.cpp:33-219 | for every client payload: the other tracker decodes exactly the operation the session ran if and only if, for the three kinds with appended fields, those fields can still be read behind whatever the client sent after its last field |
| `Wire.ReadableReplays` | tracker/session.cpp:33-219 | for all eight kinds, a request whose appended fields are readable replays on a copy of the database with the same result, and counts as applied when it succeeded |
| `Wire.UploadInverts` | client/main.cpp:174-187 | the upload request a client builds reads back as the group and the metadata it published |
| `Wire.TrailingBytesLoseStopShare` | tracker/session.cpp:190-201 | a concrete family where the guard of `FaithfulIff` fails: four zero bytes behind a stop_share request are logged as an empty user name, and no replica in any state applies it |
| `Wire.SurplusOwnerRead` | tracker/session.cpp:129-152 | an upload with another user's name, address and port behind it is run as the session user's and logged as the other user's |
| `Wire.SurplusOwnerDiverges` | tracker/session.cpp:129-152 | if that user is no member, the origin publishes the file, every replica with equal metadata refuses the entry, and the metadata differ from then on |
| `Sync.TrimSuffix` | tracker/sync.cpp:193-200 | popping acknowledged operations leaves exactly the unacknowledged end of the log |
| `Sync.OpsAfterSuffix` | tracker/sync.cpp:298-309 | the catch-up scan of a gap-free log selects exactly its end after the requested number |
| `Sync.LogNoGaps` | tracker/sync.cpp:103-119 | for every interleaving of records and acknowledgements the log is a gap-free run of sequence numbers ending at `__next_seq` - 1, and every operation missing from it is at most the highest acknowledgement |
| `Sync.CatchupSendsMissing` | tracker/sync.cpp:298-309 | a catch-up from any point at or above the highest acknowledgement sends exactly the operations after it, in order |
| `Sync.MsgRoundTrip` | tracker/sync.cpp:121-128 | every message either tracker sends is decoded on the other side as what was sent |
| `SyncManager.DecodeOp` | tracker/sync.cpp:220-296 | the field reads of `apply_remote` decode as the parser that `FaithfulIff` compares with the session's |
| `SyncManager.SyncManager.constructor` | tracker/sync.hpp:70-80 | numbering starts at 1, nothing is applied, the log is empty |
| `SyncManager.SyncManager.Publish` | tracker/sync.cpp:54-57 | the dialer's socket is usable from here on, before it has said who it is; nothing but the link changes |
| `SyncManager.SyncManager.Greet` | tracker/sync.cpp:60-81 | a dialer says HELLO and then asks for a snapshot exactly when it is empty, otherwise for what follows the last operation it applied; nothing changes |
| `SyncManager.SyncManager.Accept` | tracker/sync.cpp:130-145 | an acceptor replaces an older link and asks for a snapshot exactly when it is empty, never for a catch-up |
| `SyncManager.SyncManager.Close` | tracker/sync.cpp:92-97 | a dropped link leaves log, numbers and database as they are |
| `SyncManager.SyncManager.RecordAndReplicate` | tracker/sync.cpp:103-119 | the operation takes the next number, joins the log whether or not a link is up, and goes out once if one is |
| `SyncManager.SyncManager.ApplyRemote` | tracker/sync.cpp:220-296 | decodes and runs on the shared state; the verdict is that of the functional model |
| `SyncManager.SyncManager.SendCatchupFrom` | tracker/sync.cpp:298-309 | the loop over the log sends what `OpsAfterSuffix` describes and changes nothing |
| `SyncManager.SyncManager.TrimLog` | tracker/sync.cpp:193-200 | the popping loop leaves what `TrimSuffix` describes |
| `SyncManager.SyncManager.ProcessPeerMessage` | tracker/sync.cpp:161-218 | on every message, malformed ones included, the new state and the replies are those of the protocol's node, so the protocol theorems and the conversations of Bootstrap.dfy are about this method |
| `Session.LoggedIff` | tracker/session.cpp:29-225 | a request reaches the log if and only if it is one of the eight metadata operations and succeeded |
| `Session.LogReplaysRequest` | tracker/session.cpp:33-219 | for every request, surplus bytes included: its log entry decodes to the operation the session ran if and only if it is readable, and then replaying it from an equal database gives the database the session left and counts as applied |
| `Session.ExactRequestReadable` | tracker/session.cpp:33-219 | a request that is exactly its fields is always readable |
| `Session.PeerStreamIgnored` | tracker/session.cpp:220-223 | on a connection served as a client's, every message of the other tracker is answered `ST_NOT_IMPLEMENTED`; view, database, log and applied number stay as they are and no catch-up is served |
| `Session.FileReplyReadsBack` | tracker/session.cpp:166-189 | what a downloader decodes from the metadata response is the published size and hashes and every seeder's entry, in key order |
| `Session.Session.ReadRequest` | tracker/session.cpp:33-219 | the field reads of all eight branches refine the request parser, with user, address and port taken from the session |
| `Session.Session.BuildLogPayload` | tracker/session.cpp:33-219 | the bytes assembled for the log are those `FaithfulIff` is about |
| `Session.Session.Ask` | tracker/session.cpp:153-189 | the four queries answer with the status and the very bytes of the encoded names or file record |
| `Session.Session.Dispatch` | tracker/session.cpp:29-225 | login state, database, response with its body, log and sent message after any request are those of the functional session; nothing is logged on failure or for session and query requests |
| `Session.Session.HandleOne` | tracker/session.hpp:18 | one request of a session: the state it leaves, its response and what it sends on are one step of the functional session |
| `Session.Session.Run` | tracker/session.cpp:17-27 | over any fragmentation, a session handles exactly the requests of the stream, in order, and logs out a client that is still logged in when the stream ends |
| `Identity.SessionIsIff` | tracker/session.cpp:41-56 | over any requests of one client, with the tracker changed in any way between them: the session is a user's, with a port, if and only if a login of that user with that port succeeded and no logout and no other successful login has followed |
| `Identity.LoggedInName` | tracker/session.cpp:66-219 | whatever such a session logs, creating an account aside, is in the name of a user with a login in force, and publishes the session's address and the port of that login |
| `Identity.StrangersTurnedAway` | tracker/session.cpp:50-219 | without a user, everything but create_user and login is answered "not logged in" and changes nothing |
| `Identity.ServedUserIff` | tracker/session.cpp:17-27 | the same if and only if for the requests of `Session.Run` |
| `Service.RequestRead` | client/main.cpp:94-190 | the payload the client program builds for each of the eight commands is read back by the session as that command, whatever bytes follow |
| `Service.RequestAnswered` | tracker/session.cpp:29-225 | end to end: a client's command after any run is answered with the status its history settles, leaves the database of the run with that command, and is logged exactly on success |
| `Service.LoginAnswered` | tracker/session.cpp:41-49 | a login is answered by the history of the account, and binds the session exactly on success |
| `Service.LogoutAnswered` | tracker/session.cpp:50-56 | a logout frees the session and is a logout event of its user |
| `Service.OtherKindsRefused` | tracker/session.cpp:221-223 | every other kind of request is refused as not implemented and changes nothing |
| `Service.HangUpIsLogout` | tracker/session.cpp:24-26 | the end of a connection is a logout of its user, after which it seeds nothing |
| `Service.RequestIsStep` | tracker/session.cpp:29-225 | every request of every session is a step of the replication protocol or changes nothing there; what it logs goes out on the link |
| `Service.GroupsTold` | tracker/session.cpp:57-65 | a logged-in client decodes from the answer exactly the groups founded and not dissolved, in ascending order |
| `Service.RequestsTold` | tracker/session.cpp:103-115 | the owner decodes exactly the waiting requests, in ascending order; everybody else gets the status that says why not, and nothing more |
| `Service.FilesTold` | tracker/session.cpp:153-165 | a member decodes exactly the published names, in ascending order; everybody else gets the status that says why not |
| `Service.FileTold` | tracker/session.cpp:166-189 | a member decodes the size and hashes first published and the entries announced last and not withdrawn; everybody else gets the status that says why not |
| `Service.UploaderHasAll` | tracker/tracker_state.cpp:160-165 | the bitfield an upload announces has the length of the downloader's bitmap for that many pieces and holds every piece |
| `Protocol.OpSize` | tracker/sync.cpp:121-128 | a logged payload travels with 22 more bytes |
| `Protocol.CarriedIff` | common/net.cpp:50-63 | on the byte stream, a message between trackers arrives and reads as what was sent if its payload is within `MAX_PAYLOAD`, and otherwise ends the session |
| `Protocol.LogEntryBounded` | tracker/session.cpp:29-225 | the log entry of any request that came in a frame is short enough for the 32-bit length fields |
| `Protocol.ClientOpMeans` | tracker/session.cpp:33-219 | a client step with a readable tail runs, at the origin, the command its log entry decodes to, and numbers and logs it |
| `Protocol.StepKeeps` | tracker/sync.cpp:161-218 | every step of either tracker that respects the quiet catch-up and the readable tails, every drop, every frame that ends a link and every reconnection keeps the protocol invariant |
| `Protocol.RunKeeps` | tracker/sync.cpp:41-101 | so does every run with quiet catch-ups and readable tails |
| `Protocol.ReplicaRefinesPrefix` | tracker/sync.cpp:161-218 | in every state of every such run with any number of drops: the replica's metadata are the fold of exactly the first `__applied_peer_seq` operations, the origin's the fold of all, every later one is still in the log, a catch-up would send exactly those, and nothing is lost |
| `Protocol.DrainedAgrees` | tracker/sync.cpp:161-218 | whenever nothing is in flight to the replica, every operation is applied and the metadata agree; without logouts on the replica no seeder is missing |
| `Protocol.DrainedRunAgrees` | tracker/sync.cpp:161-218 | the same for every quiet, readable run from equal non-empty trackers |
| `Protocol.Drain` | tracker/sync.cpp:174-192 | a link that carries the missing operations can be drained when each of them fits a frame |
| `Protocol.ReconnectionHeals` | tracker/sync.cpp:41-101 | one reconnection and the deliveries it causes bring the trackers to agreement when each unapplied operation fits a frame |
| `Protocol.HealsIff` | tracker/sync.cpp:41-101 | for every quiet, readable run, after any drops and losses: it can be continued until every operation is applied, with nothing new issued, if and only if 22 plus the payload of each unapplied operation is within `MAX_PAYLOAD`; and whenever all are applied the metadata agree |
| `Protocol.OversizedNeverHeard` | common/net.cpp:50-63 | for all runs from any database, with or without the quiet catch-up and the readable tails: an operation whose 22 plus payload exceed `MAX_PAYLOAD` is never handed to the replica |
| `Protocol.OversizedPins` | common/net.cpp:50-63 | for all quiet, readable runs: such an operation also holds back every operation behind it |
| `Protocol.LargestRequestPins` | tracker/session.cpp:33-40 | a create_user request of exactly `MAX_PAYLOAD` bytes is accepted, and in no quiet, readable run that begins with it does the replica ever apply anything |
| `Overtake.LossFollows` | tracker/sync.cpp:103-119 | for every state of a quiet, readable run with a pending catch-up and something unapplied, and every client operation whose frame arrives, four more steps leave the log empty and the link down, with nothing of what was unapplied ever received |
| `Overtake.LossIsFinal` | tracker/sync.cpp:193-200 | what was lost in that way is never received in any continuation, new operations and reconnections included |
| `Overtake.HarmlessIff` | tracker/sync.cpp:130-159 | the exact condition of the quiet catch-up: in every state of every quiet, readable run, issuing a client operation keeps all continuations refining if and only if no catch-up is pending, or nothing is unapplied, or the operation is too large to arrive |
| `Overtake.AgainKeepsMeta` | tracker/sync.cpp:174-192 | an operation that is live and then brought again by a catch-up, with session events in between, changes no metadata the second time |
| `Overtake.OvertakenOpIsLost` | tracker/sync.cpp:103-119 | one such run with its data: afterwards both trackers hold users, their metadata differ, the log is empty and nothing is in flight |
| `Overtake.LostForGood` | tracker/sync.cpp:193-200 | from that state no run without new operations, whatever links drop and come up, changes either side's metadata |
| `Overtake.LateJumps` | tracker/sync.cpp:174-192 | in every such state with a catch-up pending, an operation issued now and delivered moves the applied number to its own, past everything unapplied, if and only if the replica tolerates it |
| `Overtake.OversizedOvertaken` | tracker/sync.cpp:103-119 | without the quiet catch-up: from every non-empty database, the largest create_user and then a small one while the catch-up waits leave the replica at operation 2 without operation 1 |
| `Swapped.CrossedLoses` | tracker/sync.cpp:103-119 | what the atomic sends are worth: from every state of a quiet, readable run with nothing in flight, two operations sent in the opposite order and a drop between them leave the log empty and the earlier one received in no continuation |
| `Swapped.CrossedAgrees` | tracker/sync.cpp:103-119 | the same two operations, if both arrive and their commands are independent, leave the whole system as if they had been sent in order |
| `Duplex.Swap` | tracker/sync.cpp:220-296 | two independent streams replayed one after the other may change places |
| `Duplex.AdmitsAcross` | tracker/sync.cpp:220-296 | an independent stream neither admits nor forbids an operation |
| `Duplex.StepKeeps` | tracker/sync.cpp:161-218 | with clients at work on both trackers, every step within a link's lifetime keeps each side equal to its own operations and the first of the other's, and the rest of them in flight in order |
| `Duplex.ActiveActiveAgrees` | tracker/sync.cpp:161-218 | active/active over the two channels of one link: if the operations of the two sides are independent, once the link has drained each side has applied all of the other's, in order, and both hold the same metadata |
| `Duplex.ConnectSettles` | tracker/sync.cpp:54-81 | connecting two equal trackers and serving the catch-up gives the state such a lifetime starts from |
| `Duplex.DialerOpsLost` | tracker/sync.cpp:138-145 | the dialer's operations do not survive a drop: from any state without a link, in any run, what the acceptor has not received of them it never will |
| `Reunion.ExecKeepsSame` | tracker/sync.cpp:220-296 | replaying any operation, refused ones included, takes equal metadata to equal metadata |
| `Reunion.StepKeeps` | tracker/sync.cpp:41-101 | with clients at work on both trackers, every step, drop and reconnection keeps each side equal to its own commands and those it was handed, and the log and channels in order |
| `Reunion.BothRefine` | tracker/sync.cpp:161-218 | in every state of every quiet, readable run with independent sides and any number of drops: the dialer holds its own commands and the first applied ones of the acceptor's, the acceptor its own and exactly those of the dialer's it was handed, and a catch-up would send exactly what the dialer lacks |
| `Reunion.CaughtUpAgreesIff` | tracker/sync.cpp:161-218 | once the dialer has caught up it has every command of the acceptor, and the trackers agree if and only if the dialer's commands that were lost make no difference to the metadata; they agree whenever none was lost |
| `Bootstrap.SnapshotArrivesIff` | tracker/sync.cpp:201-214 | a snapshot reaches the tracker that asked for it if and only if it is within `MAX_PAYLOAD`; a larger one ends the link |
| `Bootstrap.OverlapIsHarmless` | tracker/sync.cpp:201-214 | a snapshot that already contains the operation still in flight, then that operation, then all later ones: whatever the empty side held before, it ends in step with its peer |
| `Bootstrap.EmptyLoadsPeer` | tracker/sync.cpp:60-81 | the whole conversation, every message decoded from its bytes: an empty tracker, dialer or acceptor, ends with exactly its peer's database, whatever that is, and the peer is as it was |
| `Bootstrap.FullAsksForRest` | tracker/sync.cpp:60-81 | a dialer that holds state is sent exactly the later operations of the peer's log; an acceptor that holds state asks for nothing |
| `Bootstrap.StrayIgnored` | tracker/sync.cpp:161-218 | a message of another kind, or too short for its fields, changes nothing and is not answered |
| `Bootstrap.OverlapCountsIff` | tracker/sync.cpp:174-192 | the operation replayed on a snapshot that contains it moves the applied number if and only if it did not dissolve its group |
| `Parallel.ParallelScan` | common/sha1.cpp:101-117 | for every number of threads, every order in which they claim indices from the shared counter and every way their reads are cut, every slot holds the result for the bytes of its own index, or the scan fails after a failed read |
| `Parallel.ThreadStep` | common/sha1.cpp:103-116 | one thread claims an index, or reads some more bytes of its piece, or hands in all of them, or fails |
| `Pieces.TilesIff` | client/piece_store.cpp:87-91 | for any published size and piece count, the lengths `piece_len` computes are positive, at most `PIECE_SIZE` and add up to the file, if and only if the count is ceil(size / PIECE_SIZE) |
| `Pieces.WholeIff` | client/piece_store.cpp:87-91 | for any published size and count: the finished file is cut by `hash_file` into as many pieces as were published if and only if the pieces reach the published end and the last is a non-empty piece of at most `PIECE_SIZE` |
| `Pieces.WholeMeansTiles` | client/piece_store.cpp:87-91 | that is the case for the count ceil(size / PIECE_SIZE), and for no other unless the 32-bit piece length wraps |
| `Pieces.WrapIsWhole` | client/piece_store.cpp:87-91 | the wrap is real: an empty file published with 8192 pieces has 8192 full ones |
| `Pieces.PiecesDisjoint` | client/piece_store.cpp:87-91 | no byte belongs to two pieces, for any published size and count |
| `Pieces.PiecesDetermine` | common/sha1.cpp:103-116 | files that agree on every piece are equal |
| `Pieces.BitmapFitsIff` | client/piece_store.cpp:16-18 | the 32-bit arithmetic of `bitmap_bytes` leaves a bit for every piece except for the seven largest counts, where it wraps |
| `Pieces.HasBitSet` | client/piece_store.cpp:139-140 | setting the bit of one piece, most significant first, changes the answer for that piece only |
| `Pieces.HighestBitFirst` | client/piece_store.cpp:139-146 | the first piece of a byte is its highest bit |
| `Pieces.HeldSet` | client/piece_store.cpp:139-140 | as a set: marking adds that one piece |
| `Pieces.HeldZero` | client/piece_store.cpp:30-42 | a zeroed bitmap stands for the empty set |
| `Pieces.WriteMore` | client/piece_store.cpp:128-137 | partial writes one behind the other are one write |
| `Pieces.WriteElsewhere` | client/piece_store.cpp:128-137 | a write, even one that extends the file, leaves bytes it does not touch as they were |
| `Pieces.WriteExtends` | client/piece_store.cpp:128-137 | a write right behind a prefix already in place extends it |
| `Pieces.WriteOtherPiece` | client/piece_store.cpp:128-137 | a write inside one piece leaves every other whole piece as it was, for any published count |
| `Pieces.PieceStore.OpenForDownload` | client/piece_store.cpp:30-42 | for every size and count: the file has its published length, keeps the bytes it had, is zero beyond them; nothing is marked; the store is fit for use exactly when its bitmap has a bit for every piece |
| `Pieces.PieceStore.Have` | client/piece_store.cpp:143-147 | true exactly for members of the marked set; an index out of range is not one |
| `Pieces.PieceStore.HaveCount` | client/piece_store.cpp:149-155 | the loop over bits returns the size of the marked set |
| `Pieces.PieceStore.Complete` | client/piece_store.cpp:157 | true exactly when the marked set is all pieces |
| `Pieces.PieceStore.ReadPiece` | client/piece_store.cpp:96-114 | over any partial reads, success returns exactly the bytes of a marked piece, and a marked piece that is whole on a healthy disk is always served |
| `Pieces.PieceStore.WritePiece` | client/piece_store.cpp:116-141 | a piece is marked only if its length and hash are right and all its bytes are on disk; a rejected one leaves no trace; a write cut short leaves a verified prefix and no mark; a right piece on a healthy disk is accepted |
| `Pieces.PieceStore.ResumeScan` | client/piece_store.cpp:46-85 | for every thread count, claim order and partial reads, what becomes marked is exactly the pieces whose bytes are all there and match, and that are neither empty nor skipped as holes nor unreadable |
| `Pieces.HashFile` | common/sha1.cpp:86-134 | on any number of threads and partial reads: the digest of the concatenated hexadecimal digests of all pieces, with those and the size as the other results, or an empty digest after a failed read; of a file with 2^32 pieces or more only the first are covered, as the count is cut |
| `Download.StepKeeps` | client/download_manager.cpp:135-172 | for any published size and count, every step of every worker, with any reply from the peer and any short or failed write, keeps all pieces accounted for, every marked slice on disk with its hash, and every half-written one a verified prefix |
| `Download.NoPieceLost` | client/download_manager.cpp:145-169 | in every state any schedule of a round can reach, each piece of the file and nothing else is in exactly one place: once in the queue, in one worker's hands, or marked |
| `Download.MarkedUntouched` | client/download_manager.cpp:145-169 | no step unmarks a piece or writes a byte into a marked one |
| `Download.RoundEnd` | client/download_manager.cpp:110-116 | once all workers have left, the file is complete if and only if the queue is empty |
| `Download.StepSpends` | client/download_manager.cpp:132-169 | no step raises fetches plus budget, where the budget is 3 per missing piece plus each worker's remaining failures; and every step of a live worker makes progress |
| `Download.RoundFetchBound` | client/download_manager.cpp:132-169 | at every moment of every schedule a round with m pieces missing and W workers has started at most 3m + 3W fetches |
| `Download.RunRound` | client/download_manager.cpp:96-111 | under every schedule the round ends; marked pieces stay marked and unwritten, the new ones match their hashes, the fetch bound holds; and if every connection succeeds, every fetch brings the piece and every write moves something, one worker is enough to mark every piece |
| `Download.WorkerCountBound` | client/download_manager.cpp:103-109 | the connections opened in a round are at least the number of peers, and at most that or 8 |
| `Download.WorkersShared` | client/download_manager.cpp:103-109 | every peer gets the same number of connections: 8 divided by the peers while there are at most 8, otherwise one |
| `Crew.StaysUntilThird` | client/download_manager.cpp:132-172 | at every moment of every schedule, the next step sends a worker away if and only if it is refused, or finds nothing queued, or fails for the third time since it last stored a piece |
| `Crew.CountsFailures` | client/download_manager.cpp:145-172 | a worker's counter is the number of its failures in a row, over every schedule |
| `Crew.KindCompletes` | client/download_manager.cpp:96-116 | in every schedule in which nothing goes wrong nobody leaves while a piece is queued, and once all have left every piece is marked |
| `Crew.HighestFirst` | client/download_manager.cpp:96-101 | while nothing goes wrong, the piece a worker takes is the highest one still queued, under every schedule |
| `Crew.GivenBackIsNext` | client/download_manager.cpp:157-163 | a piece given back after a failure is the next one taken |
| `Download.RehashIff` | client/download_manager.cpp:118-124 | the skipped re-hash, exactly: for every published size, count and hash list with the file hash made from that list, re-hashing the finished file gives the published hash if and only if the pieces are whole or SHA-1 collides on the two strings shown |
| `Download.CompleteLength` | client/download_manager.cpp:118-124 | a finished file ends where its last piece ends, or at its published size if that is later |
| `Download.CompletePieces` | client/download_manager.cpp:118-124 | when the pieces are whole, `hash_file` of a finished file computes exactly the published piece hashes |
| `Download.OnePieceTooFew` | client/piece_store.cpp:87-91 | a file of `PIECE_SIZE` + 1 bytes published with one piece hash: a schedule completes with the right bytes on disk, and the re-hash fails unless SHA-1 collides |
| `Download.WriteIsSteps` | client/download_manager.cpp:154-165 | every outcome of `write_piece` on fetched bytes is a sequence of the worker's steps, ending ready with no failures or with the piece given back |
| `Download.EqualUnlessCollision` | client/download_manager.cpp:118-124 | a complete file equals the uploader's file, or shows two different pieces with one SHA-1 digest |
| `Download.OpenAndResume` | client/download_manager.cpp:63-78 | a job starts from the file on disk at its published length, with exactly the pieces marked that are whole, match and are no holes |
| `Download.JobRound` | client/download_manager.cpp:82-116 | one round of a job keeps every mark and every mark backed by its piece on disk, starts a bounded number of fetches, and completes the file if it has a peer and nothing goes wrong |
| `Download.CrashRecovers` | client/download_manager.cpp:70-78 | a process killed after any schedule of any round leaves a disk from which the next job, before its first fetch, marks of the pieces that were marked exactly those that are non-empty, within the file and no holes; with the rounded-up count that is every marked piece that is no hole |
| `Download.RunJob` | client/download_manager.cpp:63-125 | for any published size and hash list, open, resume and at most five rounds: the job is done if and only if every piece is marked, every marked slice has its hash, a done job would pass the skipped re-hash exactly as in `RehashIff`, and total fetches are within five times 3 per piece and 3 per connection; and one round with a peer in which nothing goes wrong is enough for the job to be done |

## Left out

- Protocol.ReplicaRefinesPrefix: assumes atomic sends, quiet catch-up and readable tails; messages on the link are decoded values, related to bytes by `Protocol.CarriedIff` and `Net.Converse`; sequence numbers do not wrap at 2^64.
- Protocol.HealsIff: states that agreement can be reached, not that a scheduler reaches it.
- Swapped.CrossedAgrees: covers two neighbouring sends that change places on a settled link.
- Overtake.HarmlessIff: is about one operation that breaks the quiet catch-up of a run that otherwise keeps it.
- Duplex.ActiveActiveAgrees: covers one lifetime of a link whose catch-up has been served, with independent operations on the two sides.
- Reunion.BothRefine: assumes independent sides, atomic sends, HELLO first, quiet catch-up and readable tails.
- SyncManager.SyncManager.Greet: between `Publish` and the end of `Greet` no operation is issued in the runs of `Protocol.dfy`, `Duplex.dfy` and `Reunion.dfy` (HELLO first).
- Bootstrap.OverlapIsHarmless: takes the 32-bit sizes of the snapshot as a hypothesis, and covers one operation in flight.
- Snapshot.RoundTrip: for databases whose counts and strings fit 32 bits, since the counts are cast.
- Sha1.HashStream: for 2^61 bytes and more the bit count wraps as the code's does; RFC 3174 defines shorter messages only.
- Sha1.SHA1.FinalHex: the loop that writes the eight length bytes is the function `Codec.BE`; an object is not described after it has been finished.
- Net.TakesReceive: ties the reader to the byte stream `recv_msg` sees; the loops themselves are `Net.SendMsg` and `Net.RecvMsg`.
- Net.Converse: interrupted calls are finitely many, and both sockets stay healthy.
- Session.Session.Run: one session at a time; other sessions act between its requests in the real tracker, which `Identity.SessionIsIff` and `Service.RequestIsStep` admit.
- Service.RequestRead: for strings whose lengths fit 32 bits, as `put_str` casts them; likewise the lists of `Service.GroupsTold`, `Service.RequestsTold`, `Service.FilesTold` and `Service.FileTold`.
- Bootstrap.EmptyLoadsPeer: for databases whose counts and strings fit 32 bits; frames over `MAX_PAYLOAD` are the matter of `Bootstrap.SnapshotArrivesIff`.
- Pieces.PieceStore.OpenForDownload: what later calls do with a bitmap that is too short is not described; a file that cannot be opened or resized is not described.
- Pieces.PieceStore.ResumeScan: which pieces are holes or unreadable is an arbitrary predicate.
- Parallel.ParallelScan: the shared counter does not wrap at 2^32, as it can when the count is within the number of threads of that.
- Download.CrashRecovers: what the kernel had not yet put on disk when the machine, not the process, went down is not modelled.
- Download.RunJob: the piece count is below 2^32 - 7, where the bitmap has room for every piece (`Pieces.BitmapFitsIff`), and the first round has at least one peer, which client/main.cpp:247 checks; peers known in later rounds are arbitrary.
- Agreement after a process restart, which starts the sequence numbers again, and after conflicting operations on the same group or user on both trackers: the code does not provide it.
- The password digest as a protection of passwords.
- Memory exhaustion by a hostile count.
- `open_for_seed`, `bitfield`, the seeder's serving loop, the tracker client's fail-over, announcements, status lines, the command lines: bounded control flow around sockets.
- Connecting, listening, timeouts, sleeps and backoff.
- Deadlock and data races of the real mutexes: steps are atomic at the code's lock boundaries.
