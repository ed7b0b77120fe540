/** The presence registry of the socket layer: a process-local dictionary
    from user id to the id of that user's live socket (`userSocketMap`),
    written when a client connects, cleaned when a socket disconnects, and
    read whenever a handler wants to push an event to one user. */
module Presence {
  import opened Common

  /** One event the socket server sends: to one socket, or to every client. */
  datatype Emit<P> = ToSocket(socketId: string, event: string, payload: P) | ToAll(event: string, payload: P)

  /** The targeted push every handler performs: emit to the socket found in
      the registry, and only when that lookup gave a truthy socket id. */
  function Targeted<P>(socket: Option<string>, event: string, payload: P): seq<Emit<P>> {
    if socket.Some? && socket.value != "" then [ToSocket(socket.value, event, payload)] else []
  }

  /** The registry after a disconnect of `socketId`: every entry whose value is
      that socket removed, every other entry kept. */
  function WithoutSocket(m: map<string, string>, socketId: string): map<string, string> {
    map k | k in m && m[k] != socketId :: m[k]
  }

  /** Disconnecting removes exactly the users that pointed at the socket and
      leaves every other entry as it was. */
  lemma DisconnectRemovesExactly(m: map<string, string>, socketId: string)
    ensures forall k :: k in WithoutSocket(m, socketId) <==> k in m && m[k] != socketId
    ensures forall k :: k in WithoutSocket(m, socketId) ==> WithoutSocket(m, socketId)[k] == m[k]
  {
  }

  /** After a disconnect no user maps to the disconnected socket. */
  lemma DisconnectLeavesNoEntry(m: map<string, string>, socketId: string)
    ensures socketId !in WithoutSocket(m, socketId).Values
  {
  }

  /** A stale socket's disconnect does not remove a user whose entry was
      overwritten by a newer connection. */
  lemma StaleDisconnectKeepsNewer(m: map<string, string>, userId: string, stale: string, newer: string)
    requires newer != stale
    ensures userId in WithoutSocket(m[userId := newer], stale)
    ensures WithoutSocket(m[userId := newer], stale)[userId] == newer
  {
  }

  /** Disconnecting the same socket twice is the same as disconnecting it once. */
  lemma DisconnectIdempotent(m: map<string, string>, socketId: string)
    ensures WithoutSocket(WithoutSocket(m, socketId), socketId) == WithoutSocket(m, socketId)
  {
  }

  /** `userSocketMap` together with the handlers that read and write it. */
  class Registry {
    /** user id -> socket id of the user's latest connection */
    var sockets: map<string, string>

    constructor ()
      ensures sockets == map[]
    {
      sockets := map[];
    }

    /** `getReceiverSocketId`: the entry under the property key of `receiverId`
        (an absent id reads the property "undefined"). */
    function GetReceiverSocketId(receiverId: Option<string>): (r: Option<string>)
      reads this
      ensures r.Some? <==> PropertyKey(receiverId) in sockets
      ensures r.Some? ==> r.value == sockets[PropertyKey(receiverId)]
    {
      var key := PropertyKey(receiverId);
      if key in sockets then Some(sockets[key]) else None
    }

    /** The connection handler's register step: a truthy user id is mapped to
        the new socket (overwriting an older entry, so the last connection
        wins); a falsy one leaves the registry unchanged. */
    method Connect(userId: Option<string>, socketId: string)
      modifies this
      ensures Present(userId) ==> sockets == old(sockets)[userId.value := socketId]
      ensures Present(userId) ==> GetReceiverSocketId(userId) == Some(socketId)
      ensures !Present(userId) ==> sockets == old(sockets)
    {
      if Present(userId) {
        sockets := sockets[userId.value := socketId];
      }
    }

    /** The disconnect handler: walks a snapshot of the keys and deletes every
        entry whose value is the disconnecting socket. */
    method Disconnect(socketId: string)
      modifies this
      ensures sockets == WithoutSocket(old(sockets), socketId)
      ensures forall k :: k in sockets ==> sockets[k] != socketId
      ensures forall k :: k in old(sockets) && old(sockets)[k] != socketId ==> k in sockets && sockets[k] == old(sockets)[k]
    {
      ghost var before := sockets;
      var keys := sockets.Keys;
      while keys != {}
        invariant keys <= before.Keys
        invariant sockets == map k | k in before && (k in keys || before[k] != socketId) :: before[k]
        decreases keys
      {
        var key :| key in keys;
        if sockets[key] == socketId {
          sockets := sockets - {key};
        }
        keys := keys - {key};
      }
    }

    /** The `sendMessage` socket relay: forwards the data as "newMessage" to the
        receiver's socket when the registry holds a truthy one, else emits nothing. */
    method RelayChatMessage<P>(receiverId: Option<string>, data: P) returns (out: seq<Emit<P>>)
      ensures |out| <= 1
      ensures out != [] <==> PropertyKey(receiverId) in sockets && sockets[PropertyKey(receiverId)] != ""
      ensures out != [] ==> out[0] == ToSocket(sockets[PropertyKey(receiverId)], "newMessage", data)
    {
      out := Targeted(GetReceiverSocketId(receiverId), "newMessage", data);
    }

    /** The `new-session-created` relay: the session goes to the receiver as
        "new-session" when the receiver is connected. */
    method RelayNewSession<P>(receiverId: Option<string>, session: P) returns (out: seq<Emit<P>>)
      ensures |out| <= 1
      ensures out != [] <==> PropertyKey(receiverId) in sockets && sockets[PropertyKey(receiverId)] != ""
      ensures out != [] ==> out[0] == ToSocket(sockets[PropertyKey(receiverId)], "new-session", session)
    {
      out := Targeted(GetReceiverSocketId(receiverId), "new-session", session);
    }

    /** The `session-reminder` relay: the reminder text goes to the receiver as
        "session-reminder" when the receiver is connected. */
    method RelaySessionReminder<P>(receiverId: Option<string>, message: P) returns (out: seq<Emit<P>>)
      ensures |out| <= 1
      ensures out != [] <==> PropertyKey(receiverId) in sockets && sockets[PropertyKey(receiverId)] != ""
      ensures out != [] ==> out[0] == ToSocket(sockets[PropertyKey(receiverId)], "session-reminder", message)
    {
      out := Targeted(GetReceiverSocketId(receiverId), "session-reminder", message);
    }
  }

  /** Two connections of the same user, then a disconnect of the first: the
      user stays registered under the second socket. */
  method ReconnectScenario(user: string, first: string, second: string) returns (afterStale: Option<string>, afterBoth: Option<string>)
    requires user != "" && first != second
    ensures afterStale == Some(second)
    ensures afterBoth == None
  {
    var r := new Registry();
    r.Connect(Some(user), first);
    r.Connect(Some(user), second);
    r.Disconnect(first);
    afterStale := r.GetReceiverSocketId(Some(user));
    r.Disconnect(second);
    afterBoth := r.GetReceiverSocketId(Some(user));
  }
}
