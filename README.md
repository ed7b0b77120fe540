# ZahraBackend business rules in Dafny

ZahraBackend is an Express/Mongoose/socket.io backend for a consultation
app. Users top up a wallet and book paid sessions with one another. Once a
session is accepted, the two parties may exchange direct messages, but only
from one hour before the session time to two hours after it. There are also
group chats, notes and a live presence registry.

This project models the rules inside the handlers. Each MongoDB collection is
a class holding a `seq` of records. Single-table writes such as the group,
note and wallet handlers are methods on the table's class. Handlers that
touch several tables, emit socket events or take an upload (`sendMessage`,
the image and audio uploads, `deleteMessage`, `createSession`) are
module-level methods that take the stores as parameters. The session,
message, group and note tables also hold an id counter standing for the
generated `_id`; the wallet table has none, since wallets
are found by user id. The socket layer's registry is a class holding a
`map`; its disconnect handler keeps the source's loop over a key snapshot.
The decisions and queries are functions. Handlers return result datatypes
whose `Status()` is the HTTP status the source sends, except `deleteMessage`,
which returns its status as an `int`. Time is integer
milliseconds.

Modules, one file each:

- `Common` (`common.dfy`) covers:
  - optional request fields and JavaScript truthiness (`Present`, `NumPresent`, `OrElse`);
  - `find` as `Filter` (store order), `findOne` as `FirstIndex` (the first match);
  - `sort({ timestamp: 1 })` as `SortBy`;
  - uniqueness of ids.
- `Presence` (`presence.dfy`) covers `userSocketMap`: connect, disconnect, lookup, and the three socket relays.
- `SessionWindow` (`window.dfy`) covers:
  - `String.prototype.trim`, with the ECMAScript whitespace set;
  - the string handed to `new Date`;
  - the one-hour-before and two-hours-after window.
- `Wallets` (`wallets.dfy`) covers `getWallet` and `createOrUpdateWallet`.
- `Sessions` (`sessions.dfy`) covers:
  - `createSession` over the session and wallet stores;
  - acceptance and removal;
  - the accepted and pending listings;
  - the accepted-session lookup used by messaging.
- `Messages` (`messages.dfy`) covers:
  - the send decision (`Gate`), `sendMessage`, and the image and audio uploads;
  - `deleteMessage`;
  - the conversation and per-user queries.
- `Groups` (`groups.dfy`) covers the group handlers.
- `Notes` (`notes.dfy`) covers the note handlers.

Modelling choices:

- **Date parsing.** `new Date(...).getTime()` is a parameter `parse: string -> Option<int>`. `None` stands for an Invalid Date.
- **NaN comparisons.** Every comparison with NaN is false, so a session whose date or time does not parse never triggers the window refusal. The model keeps this (`InvalidInstantNeverRejects`).
- **Where the code departs from what the feature evidently intends, the model follows the code:**
  - A group message is broadcast to every client, not only to group members.
  - A request with both `groupId` and `receiverId` takes the group route, unguarded.
  - A negative top-up amount reaches the balance.
  - An unparseable session time lets a direct message through at any hour.
  - The note query by group can only find notes that carry a `groupId`. The note schema has no such field and no handler sets one (`GroupNotesAlwaysEmpty`).
- **Socket lookup with an absent id.** `getReceiverSocketId(undefined)` reads the property named "undefined", as JavaScript does (`PropertyKey`).
- **One clock reading.** The clock is a parameter `now`. One request reads it once, so the two `new Date()` calls in `sendMessage` see the same instant.
- **Socket events.** They are returned as a sequence of `Emit` values: to one socket or to all clients.

## Model

| member | source | states |
|---|---|---|
| `Common.SortBy` | controllers/message.controllers.js:122 | the result is ordered by non-decreasing key and is a permutation of the input (same multiset) |
| `Presence.Registry.GetReceiverSocketId` | socket/socket.js:6 | finds a socket iff the id's property key is in the map, and then it is that entry |
| `Presence.Registry.Connect` | socket/socket.js:19-25 | a truthy user id is mapped to the new socket and then looked up as that socket; a falsy one leaves the map unchanged |
| `Presence.Registry.Disconnect` | socket/socket.js:28-35 | the loop over a key snapshot leaves exactly `WithoutSocket(old map, socket)`: no key maps to the socket, every other entry is kept |
| `Presence.WithoutSocket` | socket/socket.js:30-34 | the map without the entries that hold the socket; specified through `DisconnectRemovesExactly`, `DisconnectLeavesNoEntry`, `DisconnectIdempotent` and `Registry.Disconnect` |
| `Presence.DisconnectRemovesExactly` | socket/socket.js:30-34 | a key survives a disconnect iff it did not map to the socket, and survivors keep their value |
| `Presence.DisconnectLeavesNoEntry` | socket/socket.js:30-34 | after a disconnect the socket is no value of the map |
| `Presence.StaleDisconnectKeepsNewer` | socket/socket.js:22-34 | when a user reconnected on a newer socket, the old socket's disconnect keeps the user mapped to the newer one |
| `Presence.DisconnectIdempotent` | socket/socket.js:30-34 | disconnecting the same socket twice equals disconnecting it once |
| `Presence.Registry.RelayChatMessage` | socket/socket.js:38-43 | at most one event; "newMessage" to the receiver's socket iff the map holds a truthy socket for the receiver |
| `Presence.Registry.RelayNewSession` | socket/socket.js:80-86 | at most one event; "new-session" to the receiver's socket iff the map holds a truthy socket for the receiver |
| `Presence.Registry.RelaySessionReminder` | socket/socket.js:89-94 | at most one event; "session-reminder" to the receiver's socket iff the map holds a truthy socket for the receiver |
| `Presence.ReconnectScenario` | socket/socket.js:22-34 | connect on two sockets, disconnect the first: the user is still on the second; disconnect the second: the user is gone |
| `SessionWindow.KeptStart` | controllers/message.controllers.js:46 | the first index from k on that is not whitespace: everything skipped is whitespace, and the character there is not |
| `SessionWindow.KeptEnd` | controllers/message.controllers.js:46 | the end of a range once its trailing whitespace is cut: everything cut is whitespace, and the last kept character is not |
| `SessionWindow.Trim` | controllers/message.controllers.js:46 | the result is a slice s[a..b] of the input with only whitespace before a and from b on; no whitespace at either end; an already trimmed string is unchanged; an all-whitespace string becomes empty |
| `SessionWindow.TrimIdempotent` | controllers/message.controllers.js:46 | trimming twice equals trimming once |
| `SessionWindow.InstantString` | controllers/message.controllers.js:45-47 | the date, "T", the trimmed time and ":00Z"; specified through `Trim`, `TrimIdempotent` and `InstantStringExample` |
| `SessionWindow.WindowAt` | controllers/message.controllers.js:50-51 | the window opens 3,600,000 ms before the session instant and closes 7,200,000 ms after it |
| `SessionWindow.WindowIff` | controllers/message.controllers.js:50-53 | at a valid instant t a send is let through iff devMode or t - 1h <= now <= t + 2h, both bounds inclusive |
| `SessionWindow.Rejects` | controllers/message.controllers.js:53 | the refusal test, false whenever devMode is set or the instant is NaN; specified through `WindowIff` and `InvalidInstantNeverRejects` |
| `SessionWindow.InvalidInstantNeverRejects` | controllers/message.controllers.js:45-53 | an unparseable session instant (NaN) never causes the window refusal |
| `SessionWindow.InstantStringExample` | controllers/message.controllers.js:45-47 | date "2024-06-01" and time "10:00" give "2024-06-01T10:00:00Z" |
| `Wallets.WalletIndex` | controllers/wallet.controllers.js:33 | the index of the first wallet of the user, none iff the user has no wallet |
| `Wallets.GetWallet` | controllers/wallet.controllers.js:4-20 | 404 iff the user has no wallet; otherwise a stored wallet of that user |
| `Wallets.WalletStore.CreateOrUpdate` | controllers/wallet.controllers.js:23-59 | a missing or falsy field gives 400 and no change; an existing wallet gets the four card fields replaced and its balance raised by exactly the amount; otherwise a new wallet holding the amount is appended; other users' wallets are kept; one wallet per user |
| `Wallets.WalletStore.Debit` | controllers/session.controllers.js:31-32 | the wallet's balance drops by the price, everything else is unchanged |
| `Sessions.FindAcceptedSession` | controllers/message.controllers.js:31-37 | the first stored accepted session between the two users in either role; none iff there is no such session |
| `Sessions.FindAcceptedSessionSymmetric` | controllers/message.controllers.js:33-36 | swapping sender and receiver finds the same session |
| `Sessions.Charge` | controllers/session.controllers.js:15-31 | refused iff balance < price; otherwise balance - price, which is >= 0 |
| `Sessions.ReplayAccounting` | controllers/session.controllers.js:15-31 | bookings in sequence against a non-negative wallet leave it non-negative and equal to the start balance less the prices of the bookings that succeeded |
| `Sessions.LexLessEqTotal` | controllers/session.controllers.js:55 | the string order of the `$gte` date filter is total |
| `Sessions.LexLessEqReflexive` | controllers/session.controllers.js:55 | the string order of the `$gte` date filter is reflexive |
| `Sessions.LexLessEqTransitive` | controllers/session.controllers.js:55 | the string order of the `$gte` date filter is transitive |
| `Sessions.AcceptedSessions` | controllers/session.controllers.js:51-56 | exactly the accepted sessions with the user as either party and a date not before today, each as often as stored, none otherwise |
| `Sessions.PendingSessions` | controllers/session.controllers.js:69-74 | exactly the not-accepted sessions with the user as either party and a date not before today, each as often as stored, none otherwise |
| `Sessions.ListingsPartition` | controllers/session.controllers.js:51-74 | each upcoming session of the user is in exactly one of the two listings |
| `Sessions.UnlistedIsPast` | controllers/session.controllers.js:51-74 | a session of the user missing from both listings has a date strictly before today |
| `Sessions.ListingsShrink` | controllers/session.controllers.js:51-74 | a session listed for a later day is listed for every earlier day |
| `Sessions.SessionIndex` | controllers/session.controllers.js:87-91 | the index of the session with the id, none iff there is none |
| `Sessions.SessionStore.Insert` | controllers/session.controllers.js:19-29 | the session is appended under a fresh id |
| `Sessions.SessionStore.Accept` | controllers/session.controllers.js:83-101 | 404 iff the id is absent (no change); otherwise only that session changes, only in isAccepted; accepting an accepted session changes nothing |
| `Sessions.SessionStore.Remove` | controllers/session.controllers.js:104-118 | 404 iff the id is absent (no change); otherwise exactly that session is cut out |
| `Sessions.CreateSession` | controllers/session.controllers.js:5-44 | 400 with no change for a missing field, and for a requester without a wallet or with a balance below the price; otherwise one session appended with the request's fields, paid and not accepted, and the requester's balance lowered by exactly the price, staying >= 0 |
| `Sessions.InsufficientBalanceScenario` | controllers/session.controllers.js:13-17 | a 50 balance booking a 60 session: 400, balance still 50, no session stored |
| `Messages.StampOf` | controllers/message.controllers.js:69 | the client timestamp when truthy, else the server clock |
| `Messages.Gate` | controllers/message.controllers.js:9-63 | only a complete request passes; a direct pass has no group id and rests on a stored accepted session between sender and receiver |
| `Messages.GateMissingFields` | controllers/message.controllers.js:9-13 | refused with 400 iff the sender, the message, or both receiver and group are missing or falsy |
| `Messages.GateGroupFirst` | controllers/message.controllers.js:17-28 | a complete request with a group id always takes the group route, whatever the sessions and the clock |
| `Messages.GateNeedsSession` | controllers/message.controllers.js:31-43 | a direct send is refused for want of a session iff no stored session is accepted between the two users in either role |
| `Messages.GateWindow` | controllers/message.controllers.js:45-63 | with the found session at valid instant t, the send passes iff devMode or t - 1h <= now <= t + 2h; a refusal carries that window and now |
| `Messages.GateSessionSymmetric` | controllers/message.controllers.js:31-43 | swapping sender and receiver does not change a no-session refusal |
| `Messages.ExampleLookup` | controllers/message.controllers.js:31-47 | in the example the lookup finds the session and its instant string parses to 2024-06-01T10:00:00Z |
| `Messages.GateExampleAllowed` | controllers/message.controllers.js:45-53 | at 09:30 for a 10:00 session the direct send passes |
| `Messages.GateExampleRefused` | controllers/message.controllers.js:45-63 | at 07:00 for a 10:00 session the send is refused with the window [09:00, 12:00] |
| `Messages.WithoutMessage` | controllers/message.controllers.js:136 | exactly the stored messages whose id differs, each as often as stored; none with the id |
| `Messages.WithoutMessageIdempotent` | controllers/message.controllers.js:136 | deleting a second time changes nothing |
| `Messages.MessageStore.Create` | controllers/message.controllers.js:65-71 | the record is appended under a fresh id |
| `Messages.MessageStore.Delete` | controllers/message.controllers.js:136 | the table becomes exactly the messages with another id; ids stay unique |
| `Messages.SendMessage` | controllers/message.controllers.js:5-83 | 201 iff the gate passes; a refusal stores and emits nothing; a group send appends one "message" record and broadcasts it; a direct send appends one "message" record and emits it only to the receiver's socket, when there is one |
| `Messages.SendImageMessage` | controllers/message.controllers.js:288-319 | 400 with no change without a file; otherwise one "image" record with the upload path, emitted as "newImageMessage" only to the receiver's socket, when there is one |
| `Messages.SendAudioMessage` | controllers/message.controllers.js:219-246 | 400 with no change without a file; otherwise one "audio" record with the upload path, and no event |
| `Messages.DeleteMessage` | controllers/message.controllers.js:132-144 | always 200; no message with the id is left; "messageDeleted" with the id is broadcast |
| `Messages.Conversation` | controllers/message.controllers.js:116-122 | ordered by timestamp, and each record occurs as often as stored when it has the type and is between the two users in either direction, otherwise not at all |
| `Messages.ConversationMembers` | controllers/message.controllers.js:116-122 | a record is listed iff it is stored, has the type and runs between the two users |
| `Messages.UserMessages` | controllers/message.controllers.js:346-349 | ordered by timestamp, and each record occurs as often as stored when it is a message, audio or image record the user sent or received, otherwise not at all |
| `Messages.UserMessagesMembers` | controllers/message.controllers.js:346-349 | a record is listed iff it is stored, of type message, audio or image, and the user is its sender or receiver |
| `Messages.ConversationSymmetric` | controllers/message.controllers.js:118-121 | the conversation of (u1, u2) holds the same records as that of (u2, u1) |
| `Messages.DirectSendListed` | controllers/message.controllers.js:65-122 | a record stored on the direct route is listed in its two users' conversation |
| `Groups.AddMember` | controllers/group.controllers.js:64-65 | the member list after the add; specified through `AddMemberAppends`, `AddMemberIdempotent` and `AddMemberKeepsDistinct` |
| `Groups.AddMemberAppends` | controllers/group.controllers.js:64-65 | after the add the user is a member; the old list is kept in order as a prefix; at most one entry is added |
| `Groups.AddMemberIdempotent` | controllers/group.controllers.js:64-68 | adding an existing member changes nothing, so adding twice is adding once |
| `Groups.AddMemberKeepsDistinct` | controllers/group.controllers.js:64-65 | a member list without duplicates stays without duplicates |
| `Groups.GroupsOf` | controllers/group.controllers.js:88-97 | exactly the groups whose members contain the user, each as often as stored, none otherwise |
| `Groups.GroupIndex` | controllers/group.controllers.js:41 | the index of the group with the id, none iff there is none |
| `Groups.GroupStore.CreateGroup` | controllers/group.controllers.js:4-19 | 400 iff the name is falsy (no change); otherwise 201 and one group is appended, its members defaulting to the empty list |
| `Groups.GroupStore.DeleteGroup` | controllers/group.controllers.js:22-33 | 404 iff the id is absent (no change); otherwise 200 and exactly that group is cut out |
| `Groups.GroupStore.UpdateGroup` | controllers/group.controllers.js:36-53 | 404 iff the id is absent; otherwise 200, the name is kept when the new one is falsy, members are replaced whenever a list is given (the empty list included), updatedAt is set, and no other group changes |
| `Groups.GroupStore.AddUserToGroup` | controllers/group.controllers.js:56-74 | 404 iff the id is absent; otherwise 200, the user is a member afterwards, appended when absent (updatedAt set), and a group already holding the user is unchanged |
| `Notes.NoteIndex` | controllers/note.controllers.js:61 | the index of the note with the id, none iff there is none |
| `Notes.AllNotes` | controllers/note.controllers.js:6-13 | exactly the notes of type "note", each as often as stored, none otherwise |
| `Notes.ConversationNotes` | controllers/note.controllers.js:17-26 | exactly the notes of type "note" with that conversation id, each as often as stored, none otherwise |
| `Notes.AdminNotes` | controllers/note.controllers.js:130-137 | exactly the notes of type "note" addressed to the admin, each as often as stored, none otherwise |
| `Notes.NotesOfGroup` | controllers/note.controllers.js:91-104 | 400 iff the group id is falsy; otherwise exactly the notes of type "note" with that group id, each as often as stored, none otherwise |
| `Notes.AllNotesIsEverything` | models/Note.js:20-27 | every note the handlers write has type "note", so the all-notes query returns the whole table |
| `Notes.GroupNotesAlwaysEmpty` | models/Note.js:4-30 | no note the handlers write has a group id, so the group query returns nothing |
| `Notes.AdminAndConversationDisjoint` | controllers/note.controllers.js:108-137 | admin notes never appear among a conversation's notes |
| `Notes.NoteStore.CreateNote` | controllers/note.controllers.js:30-52 | 400 with no change unless text and user are truthy and a conversation or receiver is given; otherwise one ordinary note (type "note", not for the admin) is appended and is not among the admin notes |
| `Notes.NoteStore.CreateNoteForAdmin` | controllers/note.controllers.js:108-126 | 400 with no change unless text and user are truthy; otherwise one admin note is appended and is listed among the admin notes |
| `Notes.NoteStore.UpdateNote` | controllers/note.controllers.js:56-72 | 404 iff the id is absent; otherwise the text is kept when the new one is falsy, updatedAt is set, and no other note changes |
| `Notes.NoteStore.DeleteNote` | controllers/note.controllers.js:76-87 | 404 iff the id is absent (no change); otherwise exactly that note is cut out |

## Left out

- HTTP and upload wiring: routes, the server, static files and multer. A request is its parsed body, and an upload is the stored file name, or `None` when there is no file.
- Authentication and the user controller: hashing, tokens, cookies and file renames are foreign calls, and the user handlers are single store calls.
- Store failures and invalid ids: every `500` path (a failed save, a malformed ObjectId) is left out. Each handler is one atomic step. This includes `createSession`, whose session save and wallet save are separate writes in the source.
- Mongoose schema behaviour beyond the defaults the handlers rely on:
  - Unknown fields are not stripped. The message records keep `groupId`, which models/Message.js does not declare.
  - Required-field validation is not modelled. models/Message.js:8-15 require `receiverId` and `message`, so in the source three inserts always fail with 500: a group send (`Messages.SendMessage`, group route) carries no `receiverId`, and `Messages.SendImageMessage` and `Messages.SendAudioMessage` carry no `message`. The model shows the intended success path of all three.
  - Whether the group query on notes is dropped by strict-query filtering depends on the Mongoose version, which is not part of this model.
- models/Wallet.js is not part of this model: the wallet fields are the ones the wallet controller reads and writes.
- Date handling: parsing and ISO formatting are the `parse` parameter and integer milliseconds. The 403 diagnostics carry the window as numbers, not ISO strings. The "today" of the session listings is a parameter standing for the date part of the ISO clock string.
- `Number(amount)` and JavaScript numbers: amounts, prices and timestamps are unbounded integers. String-to-number conversion and floating point are left out. So is truthiness of a string "0": the model sees the amount after conversion.
- Object prototype keys of `userSocketMap`: a lookup of a key such as "constructor" would find an inherited property.
- Concurrency: interleaved requests, such as two bookings racing on one wallet.
- `getGroups` returns the group table as stored. It has no rule of its own.
- Handlers that fail on every call: `deleteAllMessage`, `deleteAllMessages`, `getMessagesByConversation` and `getMessagesByGroupId` reference undefined identifiers and always end in their error branch. `sendMessage1` is not exported.
- The `end-call` handler and the WebRTC signalling relays: they are plain library forwarding plus a call-log write through an object that has no such method.
- `addUserToGroup` with no `userId` in the body: the model takes the user id as a string.
- `Wallets.WalletStore.CreateOrUpdate`: non-negative balances are preserved only for a positive amount, because a negative top-up amount reaches the balance unchecked, as in the source.
- `devMode` is a boolean standing for the truthiness of the request field: a string such as "false" is truthy in the source and switches the window off.
- `socket.join(userId)` at connection (socket/socket.js:24): socket.io rooms are library state; only the WebRTC relays, left out above, address a user's room.
