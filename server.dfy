/**
 * The socket.io side of server.js as an object whose handlers update its
 * fields in place: `messages` is the shared array, `sockets` the sockets
 * socket.io holds open, `outbox` what has been emitted to each of them,
 * `halted` whether the process has exited. Handlers run only while the
 * process lives. Every handler is specified by the matching step of
 * ChatRoom.
 */
module Server {
  import opened JsString
  import opened JsValue
  import opened ChatRoom

  class ChatServer<M> {
    var messages: seq<M>
    var sockets: set<ConnId>
    var outbox: map<ConnId, seq<Event<M>>>
    var halted: bool

    /** The abstract state, as ChatRoom describes it. */
    ghost function State(): Room<M>
      reads this
    {
      Room(messages, sockets, outbox, halted)
    }

    ghost predicate Valid()
      reads this
    {
      WellFormed(State())
    }

    /** Process start: `let messages = []`, no sockets yet. */
    constructor ()
      ensures Valid() && State() == Empty<M>()
      ensures messages == [] && sockets == {} && outbox == map[] && !halted
    {
      messages, sockets, outbox, halted := [], {}, map[], false;
      new;
      EmptyWellFormed<M>();
    }

    /** `io.on("connection")`: emit `loadMessages` with the current array to the new socket alone. */
    method Connect(c: ConnId)
      requires Valid() && !halted
      modifies this
      ensures Valid() && State() == OnConnect(old(State()), c)
      ensures messages == old(messages)
      ensures sockets == old(sockets) + {c}
      ensures outbox[c] == [LoadMessages(old(messages))]
      ensures forall d :: d in old(outbox) && d != c ==> d in outbox && outbox[d] == old(outbox)[d]
      ensures outbox.Keys == old(outbox).Keys + {c}
    {
      ConnectPreservesWellFormed(State(), c);
      sockets := sockets + {c};
      outbox := outbox[c := [LoadMessages(messages)]];
    }

    /**
     * `socket.on("join")`: log `username + " joined"`. When the name does not
     * convert to a string the concatenation throws, nothing catches it, and
     * the process exits: no socket stays open and no handler runs again.
     * Otherwise nothing changes.
     */
    method Join(c: ConnId, name: Json)
      requires Valid() && !halted
      modifies this
      ensures Valid() && State() == OnJoin(old(State()), c, name)
      ensures halted <==> !ConvertsToString(name)
      ensures messages == old(messages) && outbox == old(outbox)
      ensures sockets == if halted then {} else old(sockets)
    {
      JoinPreservesWellFormed(State(), c, name);
      if !ConvertsToString(name) {
        sockets, halted := {}, true;
      }
    }

    /**
     * `socket.on("chat message")`: push the payload, whatever it is, then
     * emit it once to every connected socket, the sender included, and to
     * no other.
     */
    method ChatMessage(c: ConnId, m: M)
      requires Valid() && !halted
      modifies this
      ensures Valid() && State() == OnChatMessage(old(State()), c, m)
      ensures messages == old(messages) + [m]
      ensures sockets == old(sockets)
      ensures outbox.Keys == old(outbox).Keys
      ensures forall d :: d in old(sockets) ==> outbox[d] == old(outbox)[d] + [Event.ChatMessage(m)]
      ensures forall d :: d in old(outbox) && d !in old(sockets) ==> outbox[d] == old(outbox)[d]
      ensures c in old(sockets) ==> outbox[c][|outbox[c]| - 1] == Event.ChatMessage(m)
    {
      ghost var target := OnChatMessage(State(), c, m);
      ChatPreservesWellFormed(State(), c, m);
      messages := messages + [m];
      Emit(Event.ChatMessage(m));
      assert outbox == target.outbox;
    }

    /** `io.emit`: push `e` once onto the outbox of every connected socket, and of no other. */
    method Emit(e: Event<M>)
      requires sockets <= outbox.Keys
      modifies this`outbox
      ensures outbox.Keys == old(outbox).Keys
      ensures forall d :: d in outbox ==> outbox[d] == old(outbox)[d] + (if d in sockets then [e] else [])
    {
      var pending := sockets;
      while pending != {}
        invariant pending <= sockets
        invariant outbox.Keys == old(outbox).Keys
        invariant forall d :: d in outbox ==>
                    outbox[d] == old(outbox)[d] + (if d in sockets - pending then [e] else [])
        decreases pending
      {
        var d :| d in pending;
        outbox := outbox[d := outbox[d] + [e]];
        pending := pending - {d};
      }
    }

    /** socket.io drops the socket: it leaves `sockets`; history and outboxes stay as they were. */
    method Disconnect(c: ConnId)
      requires Valid() && !halted
      modifies this
      ensures Valid() && State() == OnDisconnect(old(State()), c)
      ensures messages == old(messages) && outbox == old(outbox)
      ensures sockets == old(sockets) - {c}
    {
      DisconnectPreservesWellFormed(State(), c);
      sockets := sockets - {c};
    }
  }
}
