/** The real-time relay: a process-wide registry from user id to socket id,
    room membership of sockets, and the events that fan a message out to a
    conversation's room.

    The relay does not import the store: no socket event reads or writes a
    table.  The registry is a JavaScript `Map`, whose iteration order is
    insertion order; it is modelled as a sequence of entries with distinct
    users, which keeps that order observable. */
module Relay {

  import opened Wrappers

  type UserKey = string
  type SocketId = string
  type Room = string

  datatype Entry = Entry(user: UserKey, socket: SocketId)

  /** The registry and the rooms: `(room, socket)` is in `rooms` when the
      socket is in the room, either because it joined it or because it is
      the room socket.io names after every connected socket. */
  datatype Hub = Hub(registry: seq<Entry>, rooms: set<(Room, SocketId)>)

  const EmptyHub: Hub := Hub([], {})

  /** A `Map` holds each key once: no entry shares its user with a later
      one. */
  predicate UniqueUsers(reg: seq<Entry>)
    decreases |reg|
  {
    |reg| == 0 || ((forall e :: e in reg[1..] ==> e.user != reg[0].user) && UniqueUsers(reg[1..]))
  }

  predicate Valid(h: Hub)
  {
    UniqueUsers(h.registry)
  }

  // The registry as a map.

  /** `userSockets.get(user)`. */
  function Lookup(reg: seq<Entry>, user: UserKey): (r: Option<SocketId>)
    ensures r.Some? ==> Entry(user, r.value) in reg
    ensures r.None? <==> forall e :: e in reg ==> e.user != user
  {
    if |reg| == 0 then None
    else if reg[0].user == user then Some(reg[0].socket)
    else Lookup(reg[1..], user)
  }

  /** `userSockets.set(user, socket)`: an existing key keeps its place and
      takes the new value; a new key goes last. */
  function Set(reg: seq<Entry>, user: UserKey, socket: SocketId): (r: seq<Entry>)
    ensures Lookup(r, user) == Some(socket)
    ensures forall u :: u != user ==> Lookup(r, u) == Lookup(reg, u)
    ensures forall e :: e in r ==> e == Entry(user, socket) || e in reg
    ensures |r| == if Lookup(reg, user).Some? then |reg| else |reg| + 1
    ensures Lookup(reg, user).Some? ==> forall i :: 0 <= i < |reg| ==> r[i].user == reg[i].user
    ensures Lookup(reg, user).None? ==> r == reg + [Entry(user, socket)]
  {
    if |reg| == 0 then [Entry(user, socket)]
    else if reg[0].user == user then [Entry(user, socket)] + reg[1..]
    else [reg[0]] + Set(reg[1..], user, socket)
  }

  /** Setting a key keeps the keys distinct. */
  lemma {:induction false} SetKeepsUnique(reg: seq<Entry>, user: UserKey, socket: SocketId)
    ensures UniqueUsers(reg) ==> UniqueUsers(Set(reg, user, socket))
  {
    var r := Set(reg, user, socket);
    if !UniqueUsers(reg) {
    } else if |reg| > 0 && reg[0].user == user {
      assert r[1..] == reg[1..];
    } else if |reg| > 0 {
      SetKeepsUnique(reg[1..], user, socket);
      assert r[1..] == Set(reg[1..], user, socket);
    }
  }

  /** Setting the same value twice is setting it once. */
  lemma {:induction false} SetTwice(reg: seq<Entry>, user: UserKey, socket: SocketId)
    ensures Set(Set(reg, user, socket), user, socket) == Set(reg, user, socket)
  {
    if |reg| > 0 && reg[0].user != user {
      SetTwice(reg[1..], user, socket);
      assert Set(reg, user, socket)[1..] == Set(reg[1..], user, socket);
    }
  }

  /** Only the last value set for a key survives. */
  lemma {:induction false} SetOverwrites(reg: seq<Entry>, user: UserKey, s1: SocketId, s2: SocketId)
    ensures Set(Set(reg, user, s1), user, s2) == Set(reg, user, s2)
  {
    if |reg| > 0 && reg[0].user != user {
      SetOverwrites(reg[1..], user, s1, s2);
      assert Set(reg, user, s1)[1..] == Set(reg[1..], user, s1);
    }
  }

  /** The body of the disconnect loop: delete the first entry whose socket
      is the closing one, if any, and stop. */
  function Unregister(reg: seq<Entry>, socket: SocketId): (r: seq<Entry>)
    ensures forall e :: e in r ==> e in reg
    ensures (forall e :: e in reg ==> e.socket != socket) <==> r == reg
    ensures |r| <= |reg| <= |r| + 1
  {
    if |reg| == 0 then []
    else if reg[0].socket == socket then reg[1..]
    else [reg[0]] + Unregister(reg[1..], socket)
  }

  /** Deleting an entry keeps the keys distinct. */
  lemma {:induction false} UnregisterKeepsUnique(reg: seq<Entry>, socket: SocketId)
    ensures UniqueUsers(reg) ==> UniqueUsers(Unregister(reg, socket))
  {
    if UniqueUsers(reg) && |reg| > 0 && reg[0].socket != socket {
      var r := Unregister(reg, socket);
      UnregisterKeepsUnique(reg[1..], socket);
      assert r[1..] == Unregister(reg[1..], socket);
    }
  }

  /** `Unregister` deletes exactly the first entry with the socket: entry `i`
      when no earlier entry has it. */
  lemma {:induction false} UnregisterRemovesFirst(reg: seq<Entry>, socket: SocketId, i: nat)
    requires i < |reg| && reg[i].socket == socket
    requires forall k :: 0 <= k < i ==> reg[k].socket != socket
    ensures Unregister(reg, socket) == reg[..i] + reg[i + 1..]
  {
    if i > 0 {
      UnregisterRemovesFirst(reg[1..], socket, i - 1);
      assert reg[1..][..i - 1] + reg[1..][i..] == reg[1..i] + reg[i + 1..];
      assert [reg[0]] + reg[1..i] == reg[..i];
    }
  }

  /** The disconnect loop as written: walk the entries in insertion order and
      delete the first one whose socket is the closing one. */
  method RemoveFirst(reg: seq<Entry>, socket: SocketId) returns (r: seq<Entry>)
    ensures (forall k :: 0 <= k < |reg| ==> reg[k].socket != socket) ==> r == reg
    ensures forall i ::
      (0 <= i < |reg| && reg[i].socket == socket && forall k :: 0 <= k < i ==> reg[k].socket != socket) ==>
      r == reg[..i] + reg[i + 1..]
    ensures r == Unregister(reg, socket)
  {
    var i := 0;
    while i < |reg| && reg[i].socket != socket
      invariant 0 <= i <= |reg|
      invariant forall k :: 0 <= k < i ==> reg[k].socket != socket
    {
      i := i + 1;
    }
    if i < |reg| {
      r := reg[..i] + reg[i + 1..];
      UnregisterRemovesFirst(reg, socket, i);
    } else {
      r := reg;
      assert forall e :: e in reg ==> e.socket != socket;
    }
  }

  /** Deleting the entry of a socket leaves every user not mapped to that
      socket where it was. */
  lemma {:induction false} UnregisterKeepsOthers(reg: seq<Entry>, socket: SocketId, user: UserKey)
    requires Lookup(reg, user) != Some(socket)
    ensures Lookup(Unregister(reg, socket), user) == Lookup(reg, user)
  {
    if |reg| > 0 && reg[0].socket != socket && reg[0].user != user {
      UnregisterKeepsOthers(reg[1..], socket, user);
    }
  }

  /** With one key per user, the user whose entry is deleted is no longer
      registered. */
  lemma {:induction false} UnregisterForgets(reg: seq<Entry>, socket: SocketId, i: nat)
    requires UniqueUsers(reg)
    requires i < |reg| && reg[i].socket == socket
    requires forall k :: 0 <= k < i ==> reg[k].socket != socket
    ensures Lookup(Unregister(reg, socket), reg[i].user) == None
  {
    if i > 0 {
      assert reg[i] == reg[1..][i - 1];
      assert reg[i] in reg[1..];
      UnregisterForgets(reg[1..], socket, i - 1);
      assert Unregister(reg, socket)[1..] == Unregister(reg[1..], socket);
    }
  }

  // The socket events.

  /** `connection`: socket.io puts every new socket in a room named by its
      own id. */
  function Connect(h: Hub, socket: SocketId): (r: Hub)
    ensures Valid(h) ==> Valid(r)
    ensures forall p :: p in r.rooms <==> p in h.rooms || p == (socket, socket)
    ensures r.registry == h.registry
  {
    h.(rooms := h.rooms + {(socket, socket)})
  }

  /** `register`: map the user to the socket that sent the event. */
  function Register(h: Hub, user: UserKey, socket: SocketId): (r: Hub)
    ensures Valid(h) ==> Valid(r)
    ensures Lookup(r.registry, user) == Some(socket)
    ensures forall u :: u != user ==> Lookup(r.registry, u) == Lookup(h.registry, u)
    ensures r.rooms == h.rooms
  {
    SetKeepsUnique(h.registry, user, socket);
    h.(registry := Set(h.registry, user, socket))
  }

  /** Registering twice is registering once; registering again from a new
      socket replaces the old one. */
  lemma RegisterIdempotent(h: Hub, user: UserKey, s1: SocketId, s2: SocketId)
    ensures Register(Register(h, user, s1), user, s1) == Register(h, user, s1)
    ensures Register(Register(h, user, s1), user, s2) == Register(h, user, s2)
  {
    SetTwice(h.registry, user, s1);
    SetOverwrites(h.registry, user, s1, s2);
  }

  /** `join_conversation`: add the socket to the room, with no check of who
      the socket belongs to or whether it may see the conversation. */
  function Join(h: Hub, room: Room, socket: SocketId): (r: Hub)
    ensures Valid(h) ==> Valid(r)
    ensures forall p :: p in r.rooms <==> p in h.rooms || p == (room, socket)
    ensures r.registry == h.registry
  {
    h.(rooms := h.rooms + {(room, socket)})
  }

  /** The sockets in a room. */
  function Members(h: Hub, room: Room): (r: set<SocketId>)
    ensures forall sk :: sk in r <==> (room, sk) in h.rooms
  {
    set p | p in h.rooms && p.0 == room :: p.1
  }

  /** What a client sends with `send_message`, relayed untouched. */
  datatype MessageData = MessageData(conversationId: Room, senderId: UserKey, content: string, createdAt: string)

  /** What a client sends with `message_read`, relayed untouched. */
  datatype ReadData = ReadData(messageId: string, conversationId: Room)

  datatype Payload = NewMessage(message: MessageData) | MessageRead(read: ReadData)

  /** `io.to(room).emit(event, payload)`: one event for a set of sockets. */
  datatype Broadcast = Broadcast(event: string, payload: Payload, to: set<SocketId>)

  /** `send_message`: relay the data as `new_message` to every socket in the
      room named by the conversation id, the sender's own socket included
      when it has joined.  The hub is not changed, and nothing checks that
      the sender is who it claims to be. */
  function SendMessage(h: Hub, data: MessageData): (r: Broadcast)
    ensures r.event == "new_message" && r.payload == NewMessage(data)
    ensures forall sk :: sk in r.to <==> (data.conversationId, sk) in h.rooms
  {
    Broadcast("new_message", NewMessage(data), Members(h, data.conversationId))
  }

  /** `message_read`: relay the data as `message_read` to the room. */
  function ReadMessage(h: Hub, data: ReadData): (r: Broadcast)
    ensures r.event == "message_read" && r.payload == MessageRead(data)
    ensures forall sk :: sk in r.to <==> (data.conversationId, sk) in h.rooms
  {
    Broadcast("message_read", MessageRead(data), Members(h, data.conversationId))
  }

  /** `disconnect`: the handler deletes the first registry entry of the
      closing socket; socket.io itself takes the socket out of every room.
      That at most one entry goes, and that it is the first match in
      insertion order, is stated by `Unregister` and `UnregisterRemovesFirst`. */
  function Disconnect(h: Hub, socket: SocketId): (r: Hub)
    ensures Valid(h) ==> Valid(r)
    ensures forall u :: Lookup(h.registry, u) != Some(socket) ==> Lookup(r.registry, u) == Lookup(h.registry, u)
    ensures forall p :: p in r.rooms <==> p in h.rooms && p.1 != socket
  {
    forall u | Lookup(h.registry, u) != Some(socket)
      ensures Lookup(Unregister(h.registry, socket), u) == Lookup(h.registry, u)
    {
      UnregisterKeepsOthers(h.registry, socket, u);
    }
    UnregisterKeepsUnique(h.registry, socket);
    Hub(Unregister(h.registry, socket), set p | p in h.rooms && p.1 != socket)
  }

  /** A socket that joins a room receives what is sent there, its own
      messages included. */
  lemma JoinedSocketReceives(h: Hub, socket: SocketId, data: MessageData)
    ensures socket in SendMessage(Join(h, data.conversationId, socket), data).to
  {
  }

  /** A conversation id that happens to be a connected socket's id reaches
      that socket, although it never joined the conversation. */
  lemma OwnRoomReceives(h: Hub, socket: SocketId, data: MessageData, read: ReadData)
    requires data.conversationId == socket && read.conversationId == socket
    ensures socket in SendMessage(Connect(h, socket), data).to
    ensures socket in ReadMessage(Connect(h, socket), read).to
  {
  }

  /** A disconnected socket receives nothing more. */
  lemma DisconnectedSocketReceivesNothing(h: Hub, socket: SocketId, data: MessageData, read: ReadData)
    ensures socket !in SendMessage(Disconnect(h, socket), data).to
    ensures socket !in ReadMessage(Disconnect(h, socket), read).to
  {
  }

  /** A user who registers from a socket no one else is registered with is
      forgotten when that socket disconnects. */
  lemma RegisterThenDisconnect(h: Hub, user: UserKey, socket: SocketId)
    requires Valid(h)
    requires forall e :: e in h.registry ==> e.socket != socket
    ensures Lookup(Disconnect(Register(h, user, socket), socket).registry, user) == None
  {
    SetThenUnregister(h.registry, user, socket);
  }

  lemma {:induction false} SetThenUnregister(reg: seq<Entry>, user: UserKey, socket: SocketId)
    requires UniqueUsers(reg)
    requires forall e :: e in reg ==> e.socket != socket
    ensures Lookup(Unregister(Set(reg, user, socket), socket), user) == None
  {
    if |reg| > 0 && reg[0].user != user {
      SetThenUnregister(reg[1..], user, socket);
      assert Unregister(Set(reg, user, socket), socket)[1..] == Unregister(Set(reg[1..], user, socket), socket);
    }
  }

  /** Two users registered from one socket (the socket sent `register`
      twice): disconnecting removes only the first, and the second keeps
      pointing at the closed socket. */
  lemma StaleEntryAfterDisconnect()
    ensures var h := Register(Register(EmptyHub, "alice", "s1"), "bob", "s1");
      && Lookup(h.registry, "alice") == Some("s1")
      && Lookup(Disconnect(h, "s1").registry, "alice") == None
      && Lookup(Disconnect(h, "s1").registry, "bob") == Some("s1")
  {
    var h := Register(Register(EmptyHub, "alice", "s1"), "bob", "s1");
    assert h.registry == [Entry("alice", "s1"), Entry("bob", "s1")];
    assert Unregister(h.registry, "s1") == [Entry("bob", "s1")];
  }
}
