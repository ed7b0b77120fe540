/** Chat messages: the session-gated send (direct messages need an accepted
    session and the session's time window; group messages are ungated), the
    image and audio uploads, deletion, and the conversation queries. */
module Messages {
  import opened Common
  import opened Presence
  import opened SessionWindow
  import opened Sessions

  /** The `type` of a message record: "text" (the schema default), "image",
      "audio" or "message". */
  datatype Kind = Text | Image | Audio | Chat

  datatype Message = Message(
    id: nat, senderId: Option<string>, receiverId: Option<string>, groupId: Option<string>,
    body: Option<string>, kind: Kind, imageUrl: Option<string>, audioUrl: Option<string>, timestamp: int)

  /** What the message handlers push over the socket layer. */
  datatype Payload = MessageDoc(message: Message) | DeletedId(id: nat)

  /** The body of a send request; `timestamp` is the client's, in milliseconds. */
  datatype SendRequest = SendRequest(
    senderId: Option<string>, receiverId: Option<string>, message: Option<string>,
    timestamp: Option<int>, groupId: Option<string>, devMode: bool)

  /** `timestamp || new Date()`: the client's timestamp when it gave a truthy
      one, else the server's clock. */
  function StampOf(clientStamp: Option<int>, now: int): (t: int)
    ensures NumPresent(clientStamp) ==> t == clientStamp.value
    ensures !NumPresent(clientStamp) ==> t == now
  {
    if NumPresent(clientStamp) then clientStamp.value else now
  }

  datatype SendOutcome = MissingFields | NoAcceptedSession | OutsideWindow(window: Window, now: int) | Sent(id: nat) {
    function Status(): int {
      match this
      case MissingFields => 400
      case NoAcceptedSession => 403
      case OutsideWindow(_, _) => 403
      case Sent(_) => 201
    }
  }

  /** The field check of `sendMessage`: a sender, a receiver or a group, and a
      message text, each present and truthy. */
  predicate SendComplete(req: SendRequest) {
    Present(req.senderId) && (Present(req.receiverId) || Present(req.groupId)) && Present(req.message)
  }

  /** Where the decision part of `sendMessage` leads. */
  datatype GateResult = Refuse(outcome: SendOutcome) | GroupRoute | DirectRoute(session: Session)

  /** The decision part of `sendMessage`, which reads the session table and
      the clock and writes nothing. `parse` is `new Date(...).getTime()`,
      `None` for an Invalid Date. */
  function Gate(req: SendRequest, sessions: seq<Session>, now: int, parse: string -> Option<int>): (g: GateResult)
    ensures g.Refuse? ==> !g.outcome.Sent?
    ensures !g.Refuse? ==> SendComplete(req)
    ensures g.DirectRoute? ==> !Present(req.groupId) && g.session in sessions
    ensures g.DirectRoute? ==> AcceptedBetween(g.session, req.senderId.value, req.receiverId.value)
  {
    if !SendComplete(req) then Refuse(MissingFields)
    else if Present(req.groupId) then GroupRoute
    else match FindAcceptedSession(sessions, req.senderId.value, req.receiverId.value)
      case None => Refuse(NoAcceptedSession)
      case Some(s) =>
        var instant := parse(InstantString(s.date, s.time));
        if Rejects(instant, now, req.devMode) then Refuse(OutsideWindow(WindowAt(instant.value), now))
        else DirectRoute(s)
  }

  /** A request missing the sender, the message, or both receiver and group
      is refused with 400, and only such a request is. */
  lemma GateMissingFields(req: SendRequest, sessions: seq<Session>, now: int, parse: string -> Option<int>)
    ensures Gate(req, sessions, now, parse) == Refuse(MissingFields) <==> !SendComplete(req)
    ensures Gate(req, sessions, now, parse).Refuse? && Gate(req, sessions, now, parse).outcome.Status() == 400 <==> !SendComplete(req)
  {
  }

  /** A complete request with a group id takes the group route, even when it
      also names a receiver: no session is looked up. */
  lemma GateGroupFirst(req: SendRequest, sessions: seq<Session>, now: int, parse: string -> Option<int>)
    requires SendComplete(req) && Present(req.groupId)
    ensures Gate(req, sessions, now, parse) == GroupRoute
    ensures forall other: seq<Session>, later: int :: Gate(req, other, later, parse) == GroupRoute
  {
  }

  /** A direct message with no accepted session between the two users, in
      either role, is refused with 403, and that is the only reason for a
      "no session" refusal. */
  lemma GateNeedsSession(req: SendRequest, sessions: seq<Session>, now: int, parse: string -> Option<int>)
    requires SendComplete(req) && !Present(req.groupId)
    ensures Gate(req, sessions, now, parse) == Refuse(NoAcceptedSession)
        <==> forall i :: 0 <= i < |sessions| ==> !AcceptedBetween(sessions[i], req.senderId.value, req.receiverId.value)
  {
  }

  /** With an accepted session at the valid instant `t`, a direct message goes
      through iff devMode is set or `t - 1h <= now <= t + 2h`; when it is
      refused the 403 carries that window and the current time. */
  lemma GateWindow(req: SendRequest, sessions: seq<Session>, now: int, parse: string -> Option<int>, s: Session, t: int)
    requires SendComplete(req) && !Present(req.groupId)
    requires FindAcceptedSession(sessions, req.senderId.value, req.receiverId.value) == Some(s)
    requires parse(InstantString(s.date, s.time)) == Some(t)
    ensures Gate(req, sessions, now, parse).DirectRoute? <==> req.devMode || (t - 3_600_000 <= now <= t + 7_200_000)
    ensures !Gate(req, sessions, now, parse).DirectRoute? ==>
      Gate(req, sessions, now, parse) == Refuse(OutsideWindow(Window(t, t - 3_600_000, t + 7_200_000), now))
  {
    WindowIff(t, now, req.devMode);
  }

  /** Which user sends and which receives does not change whether a direct
      message is refused for want of a session. */
  lemma GateSessionSymmetric(req: SendRequest, sessions: seq<Session>, now: int, parse: string -> Option<int>)
    requires SendComplete(req) && !Present(req.groupId)
    ensures var swapped := req.(senderId := req.receiverId, receiverId := req.senderId);
      Gate(req, sessions, now, parse) == Refuse(NoAcceptedSession) <==> Gate(swapped, sessions, now, parse) == Refuse(NoAcceptedSession)
  {
    FindAcceptedSessionSymmetric(sessions, req.senderId.value, req.receiverId.value);
  }

  /** The session of the example: A books B for "2024-06-01" at "10:00"
      (2024-06-01T10:00:00Z is 1717236000000 ms after the epoch), accepted. */
  function ExampleSession(a: string, b: string): Session {
    Session(0, a, b, "2024-06-01", "10:00", None, 50, true, true, 0)
  }

  /** The direct request of the example, from A to B. */
  function ExampleRequest(a: string, b: string): SendRequest {
    SendRequest(Some(a), Some(b), Some("hi"), None, None, false)
  }

  /** In the example, the session lookup finds the session and its instant
      is 2024-06-01T10:00:00Z. */
  lemma ExampleLookup(a: string, b: string, parse: string -> Option<int>)
    requires a != "" && b != "" && a != b
    requires parse("2024-06-01T10:00:00Z") == Some(1717236000000)
    ensures SendComplete(ExampleRequest(a, b)) && !Present(ExampleRequest(a, b).groupId)
    ensures FindAcceptedSession([ExampleSession(a, b)], a, b) == Some(ExampleSession(a, b))
    ensures parse(InstantString("2024-06-01", "10:00")) == Some(1717236000000)
  {
    InstantStringExample();
  }

  /** At 09:30, half an hour before the session, the message goes through. */
  lemma GateExampleAllowed(a: string, b: string, parse: string -> Option<int>)
    requires a != "" && b != "" && a != b
    requires parse("2024-06-01T10:00:00Z") == Some(1717236000000)
    ensures Gate(ExampleRequest(a, b), [ExampleSession(a, b)], 1717236000000 - 30 * 60 * 1000, parse).DirectRoute?
  {
    ExampleLookup(a, b, parse);
    GateWindow(ExampleRequest(a, b), [ExampleSession(a, b)], 1717236000000 - 30 * 60 * 1000, parse, ExampleSession(a, b), 1717236000000);
  }

  /** At 07:00 the message is refused, and the 403 carries the window
      [09:00, 12:00] and the current time. */
  lemma GateExampleRefused(a: string, b: string, parse: string -> Option<int>)
    requires a != "" && b != "" && a != b
    requires parse("2024-06-01T10:00:00Z") == Some(1717236000000)
    ensures Gate(ExampleRequest(a, b), [ExampleSession(a, b)], 1717236000000 - 3 * 60 * 60 * 1000, parse)
      == Refuse(OutsideWindow(Window(1717236000000, 1717236000000 - 3_600_000, 1717236000000 + 7_200_000),
                              1717236000000 - 3 * 60 * 60 * 1000))
  {
    ExampleLookup(a, b, parse);
    GateWindow(ExampleRequest(a, b), [ExampleSession(a, b)], 1717236000000 - 3 * 60 * 60 * 1000, parse, ExampleSession(a, b), 1717236000000);
  }

  /** The record the group branch stores: no receiver, type "message". */
  function GroupRecord(req: SendRequest, now: int, id: nat): Message {
    Message(id, req.senderId, None, req.groupId, req.message, Chat, None, None, StampOf(req.timestamp, now))
  }

  /** The record the direct branch stores: no group, type "message". */
  function DirectRecord(req: SendRequest, now: int, id: nat): Message {
    Message(id, req.senderId, req.receiverId, None, req.message, Chat, None, None, StampOf(req.timestamp, now))
  }

  /** The key of the message table. */
  function MessageId(m: Message): nat {
    m.id
  }

  /** `findByIdAndDelete(id)` on a message table with unique ids. */
  function WithoutMessage(ms: seq<Message>, id: nat): (r: seq<Message>)
    ensures forall i :: 0 <= i < |r| ==> r[i] in ms && r[i].id != id
    ensures forall i :: 0 <= i < |ms| && ms[i].id != id ==> ms[i] in r
    ensures forall x :: multiset(r)[x] == if x.id != id then multiset(ms)[x] else 0
  {
    Filter(ms, (m: Message) => m.id != id)
  }

  /** Deleting a message a second time changes nothing. */
  lemma {:induction false} WithoutMessageIdempotent(ms: seq<Message>, id: nat)
    ensures WithoutMessage(WithoutMessage(ms, id), id) == WithoutMessage(ms, id)
  {
    if ms != [] {
      WithoutMessageIdempotent(ms[1..], id);
      assert ms == [ms[0]] + ms[1..];
    }
  }

  /** The message table; `nextId` stands for the store's id generator. */
  class MessageStore {
    var messages: seq<Message>
    var nextId: nat

    /** Ids are unique and every id was handed out before `nextId`. */
    ghost predicate Valid()
      reads this
    {
      UniqueKeys(messages, MessageId) && forall i :: 0 <= i < |messages| ==> messages[i].id < nextId
    }

    constructor ()
      ensures Valid() && messages == []
    {
      messages := [];
      nextId := 0;
    }

    /** `Message.create(...)`: appends the record under a fresh id. */
    method Create(draft: Message) returns (stored: Message)
      requires Valid()
      modifies this
      ensures Valid()
      ensures stored == draft.(id := old(nextId))
      ensures messages == old(messages) + [stored] && nextId == old(nextId) + 1
    {
      stored := draft.(id := nextId);
      messages := messages + [stored];
      nextId := nextId + 1;
    }

    /** `Message.findByIdAndDelete(id)`: removes the message with that id, if any. */
    method Delete(id: nat)
      requires Valid()
      modifies this
      ensures Valid() && nextId == old(nextId)
      ensures messages == WithoutMessage(old(messages), id)
    {
      FilterKeepsUniqueKeys(messages, (m: Message) => m.id != id, MessageId);
      messages := WithoutMessage(messages, id);
    }
  }

  /** `sendMessage`. A refused request stores nothing and emits nothing. A
      group message is stored with type "message" and broadcast to every
      client. An allowed direct message is stored with type "message" and
      sent to the receiver's socket only, and only when the registry holds
      one. Each accepted send stores exactly one record. */
  method SendMessage(store: MessageStore, sessions: SessionStore, registry: Registry, req: SendRequest,
                     now: int, parse: string -> Option<int>) returns (out: SendOutcome, emits: seq<Emit<Payload>>)
    requires store.Valid()
    modifies store
    ensures store.Valid()
    ensures out.Status() == 201 <==> !Gate(req, sessions.sessions, now, parse).Refuse?
    ensures Gate(req, sessions.sessions, now, parse).Refuse? ==>
      && out == Gate(req, sessions.sessions, now, parse).outcome
      && emits == []
      && store.messages == old(store.messages) && store.nextId == old(store.nextId)
    ensures Gate(req, sessions.sessions, now, parse).GroupRoute? ==>
      var m := GroupRecord(req, now, old(store.nextId));
      && out == Sent(m.id)
      && store.messages == old(store.messages) + [m]
      && emits == [ToAll("newMessage", MessageDoc(m))]
    ensures Gate(req, sessions.sessions, now, parse).DirectRoute? ==>
      var m := DirectRecord(req, now, old(store.nextId));
      && out == Sent(m.id)
      && store.messages == old(store.messages) + [m]
      && emits == Targeted(registry.GetReceiverSocketId(req.receiverId), "newMessage", MessageDoc(m))
  {
    ghost var g := Gate(req, sessions.sessions, now, parse);
    if !SendComplete(req) {
      assert g == Refuse(MissingFields);
      return MissingFields, [];
    }
    if Present(req.groupId) {
      assert g == GroupRoute;
      var m := store.Create(GroupRecord(req, now, 0));
      return Sent(m.id), [ToAll("newMessage", MessageDoc(m))];
    }
    var session := FindAcceptedSession(sessions.sessions, req.senderId.value, req.receiverId.value);
    if session.None? {
      assert g == Refuse(NoAcceptedSession);
      return NoAcceptedSession, [];
    }
    var instant := parse(InstantString(session.value.date, session.value.time));
    if Rejects(instant, now, req.devMode) {
      assert g == Refuse(OutsideWindow(WindowAt(instant.value), now));
      return OutsideWindow(WindowAt(instant.value), now), [];
    }
    assert g == DirectRoute(session.value);
    var m := store.Create(DirectRecord(req, now, 0));
    var socket := registry.GetReceiverSocketId(req.receiverId);
    emits := [];
    if socket.Some? && socket.value != "" {
      emits := [ToSocket(socket.value, "newMessage", MessageDoc(m))];
    }
    out := Sent(m.id);
  }

  datatype UploadOutcome = FileRequired | Uploaded(message: Message) {
    function Status(): int {
      if Uploaded? then 201 else 400
    }
  }

  /** `sendImageMessage`: without a file, 400 and nothing stored. Otherwise
      one "image" record pointing at the upload is stored (no session check)
      and pushed as "newImageMessage" to the receiver's socket, if any. */
  method SendImageMessage(store: MessageStore, registry: Registry, senderId: Option<string>, receiverId: Option<string>,
                          timestamp: Option<int>, file: Option<string>, now: int) returns (out: UploadOutcome, emits: seq<Emit<Payload>>)
    requires store.Valid()
    modifies store
    ensures store.Valid()
    ensures out.FileRequired? <==> file.None?
    ensures out.FileRequired? ==> emits == [] && store.messages == old(store.messages) && store.nextId == old(store.nextId)
    ensures out.Uploaded? ==>
      && out.message == Message(old(store.nextId), senderId, receiverId, None, None, Image,
                                Some("/uploads/" + file.value), None, StampOf(timestamp, now))
      && store.messages == old(store.messages) + [out.message]
      && emits == Targeted(registry.GetReceiverSocketId(receiverId), "newImageMessage", MessageDoc(out.message))
  {
    if file.None? {
      return FileRequired, [];
    }
    var m := store.Create(Message(0, senderId, receiverId, None, None, Image, Some("/uploads/" + file.value), None, StampOf(timestamp, now)));
    var socket := registry.GetReceiverSocketId(receiverId);
    emits := [];
    if socket.Some? && socket.value != "" {
      emits := [ToSocket(socket.value, "newImageMessage", MessageDoc(m))];
    }
    out := Uploaded(m);
  }

  /** `sendAudioMessage`: without a file, 400 and nothing stored. Otherwise
      one "audio" record pointing at the upload is stored; no event is sent. */
  method SendAudioMessage(store: MessageStore, senderId: Option<string>, receiverId: Option<string>,
                          timestamp: Option<int>, file: Option<string>, now: int) returns (out: UploadOutcome)
    requires store.Valid()
    modifies store
    ensures store.Valid()
    ensures out.FileRequired? <==> file.None?
    ensures out.FileRequired? ==> store.messages == old(store.messages) && store.nextId == old(store.nextId)
    ensures out.Uploaded? ==>
      && out.message == Message(old(store.nextId), senderId, receiverId, None, None, Audio,
                                None, Some("/uploads/" + file.value), StampOf(timestamp, now))
      && store.messages == old(store.messages) + [out.message]
  {
    if file.None? {
      return FileRequired;
    }
    var m := store.Create(Message(0, senderId, receiverId, None, None, Audio, None, Some("/uploads/" + file.value), StampOf(timestamp, now)));
    out := Uploaded(m);
  }

  /** `deleteMessage`: the message with the id is removed if there is one,
      the deletion is broadcast to every client, and the answer is success
      either way, so repeating it changes nothing more. */
  method DeleteMessage(store: MessageStore, id: nat) returns (status: int, emits: seq<Emit<Payload>>)
    requires store.Valid()
    modifies store
    ensures store.Valid()
    ensures status == 200
    ensures store.messages == WithoutMessage(old(store.messages), id)
    ensures forall i :: 0 <= i < |store.messages| ==> store.messages[i].id != id
    ensures emits == [ToAll("messageDeleted", DeletedId(id))]
  {
    store.Delete(id);
    status, emits := 200, [ToAll("messageDeleted", DeletedId(id))];
  }

  /** The sort key of every message query. */
  function Stamp(m: Message): int {
    m.timestamp
  }

  /** The message runs between the two users, in either direction. */
  predicate Between(m: Message, user1: string, user2: string) {
    (m.senderId == Some(user1) && m.receiverId == Some(user2)) || (m.senderId == Some(user2) && m.receiverId == Some(user1))
  }

  /** The query of `getMessages` ("message"), `getAudioMessages` ("audio")
      and `getImageMessages` ("image"). */
  function ConversationTest(kind: Kind, user1: string, user2: string): Message -> bool {
    (m: Message) => m.kind == kind && Between(m, user1, user2)
  }

  /** The query of `getMessagesByUser`: types message, audio and image where
      the user is the sender or the receiver. */
  function UserTest(userId: string): Message -> bool {
    (m: Message) => m.kind != Text && (m.senderId == Some(userId) || m.receiverId == Some(userId))
  }

  /** `getMessages` (and, with another kind, the audio and image queries):
      exactly the records of that type between the two users in either
      direction, each as often as stored, by non-decreasing timestamp. */
  function Conversation(ms: seq<Message>, kind: Kind, user1: string, user2: string): (r: seq<Message>)
    ensures SortedBy(r, Stamp)
    ensures forall m :: multiset(r)[m] == if m.kind == kind && Between(m, user1, user2) then multiset(ms)[m] else 0
  {
    var found := Filter(ms, ConversationTest(kind, user1, user2));
    var r := SortBy(found, Stamp);
    r
  }

  /** A record is in the conversation iff it is a stored record of that type
      between the two users. */
  lemma ConversationMembers(ms: seq<Message>, kind: Kind, user1: string, user2: string, m: Message)
    ensures m in Conversation(ms, kind, user1, user2) <==> m in ms && m.kind == kind && Between(m, user1, user2)
  {
    var r := Conversation(ms, kind, user1, user2);
    assert m in r <==> m in multiset(r);
    assert m in ms <==> m in multiset(ms);
  }

  /** `getMessagesByUser`: exactly the message, audio and image records the
      user sent or received, each as often as stored, by timestamp. */
  function UserMessages(ms: seq<Message>, userId: string): (r: seq<Message>)
    ensures SortedBy(r, Stamp)
    ensures forall m :: multiset(r)[m] == if m.kind != Text && (m.senderId == Some(userId) || m.receiverId == Some(userId)) then multiset(ms)[m] else 0
  {
    var found := Filter(ms, UserTest(userId));
    var r := SortBy(found, Stamp);
    r
  }

  /** A record is listed for the user iff it is a stored message, audio or
      image record the user sent or received. */
  lemma UserMessagesMembers(ms: seq<Message>, userId: string, m: Message)
    ensures m in UserMessages(ms, userId) <==> m in ms && m.kind in {Chat, Audio, Image} && (m.senderId == Some(userId) || m.receiverId == Some(userId))
  {
    var r := UserMessages(ms, userId);
    assert m in r <==> m in multiset(r);
    assert m in ms <==> m in multiset(ms);
  }

  /** The conversation between two users reads the same from either side. */
  lemma ConversationSymmetric(ms: seq<Message>, kind: Kind, user1: string, user2: string)
    ensures multiset(Conversation(ms, kind, user1, user2)) == multiset(Conversation(ms, kind, user2, user1))
  {
    var a, b := Conversation(ms, kind, user1, user2), Conversation(ms, kind, user2, user1);
    forall m ensures multiset(a)[m] == multiset(b)[m] {
    }
  }

  /** A message that `sendMessage` stores on the direct route shows up in the
      conversation of its two users. */
  lemma DirectSendListed(ms: seq<Message>, req: SendRequest, now: int, id: nat, sessions: seq<Session>, parse: string -> Option<int>)
    requires Gate(req, sessions, now, parse).DirectRoute?
    ensures DirectRecord(req, now, id) in Conversation(ms + [DirectRecord(req, now, id)], Chat, req.senderId.value, req.receiverId.value)
  {
    var all := ms + [DirectRecord(req, now, id)];
    assert all[|all| - 1] == DirectRecord(req, now, id);
    ConversationMembers(all, Chat, req.senderId.value, req.receiverId.value, DirectRecord(req, now, id));
  }
}
