/**
 * The aiohttp application of the chat server: the shared registry
 * `app['websockets']`, the connections' outboxes, the chat endpoint's steps,
 * shutdown, and the echo endpoint. Each `await send_json(...)` appends one
 * frame to the target connection's outbox; sessions run one after another.
 */
module Server {
  import opened Json
  import opened Protocol
  import opened Registry

  class App {
    /** app['websockets']: room -> (user -> connection). */
    var websockets: Rooms
    /** Everything sent to, or asked of, each connection, in order. */
    var outbox: Outboxes
    /** The next connection id the transport hands out; every one is new. */
    var nextConn: Conn

    ghost predicate Valid()
      reads this
    {
      Sound(websockets, nextConn)
    }

    function Snapshot(): State
      reads this
    {
      State(websockets, outbox)
    }

    /** init_app: an empty registry. */
    constructor ()
      ensures Valid()
      ensures websockets == map[] && outbox == map[] && nextConn == 0
    {
      websockets := map[];
      outbox := map[];
      nextConn := 0;
    }

    /**
     * The opening of ws_chat for a new connection, with `n` the number
     * `random.randint(0, 999999)` drew: greet, refuse a taken name, or
     * register and announce.
     */
    method Connect(n: int) returns (conn: Conn, room: string, user: string, accepted: bool)
      requires Valid() && 0 <= n <= 999999
      modifies this
      ensures Valid()
      ensures conn == old(nextConn) && nextConn == conn + 1
      ensures room == DefaultRoom && user == GeneratedName(n)
      ensures accepted <==> !NameTaken(old(Snapshot()), n)
      ensures Snapshot() == Registry.Connect(old(Snapshot()), conn, n)
    {
      conn := nextConn;
      ghost var before := Snapshot();
      ghost var after := Registry.Connect(before, conn, n);
      ConnectKeepsSound(before, conn, n);
      room := DefaultRoom;
      user := GeneratedName(n);
      var sent := Post(outbox, conn, Send(Connecting(room, user)));
      var rooms := Touch(websockets, room);
      if user in rooms[room] {
        sent := Post(sent, conn, Close(TryAgainLater, UsernameInUse));
        assert State(rooms, sent) == after;
        websockets, outbox, nextConn := rooms, sent, conn + 1;
        accepted := false;
        return;
      }
      accepted := true;
      var occupants: map<string, Conn> := rooms[room][user := conn];
      rooms := rooms[room := occupants];
      // Inform everyone that the user has joined, the newcomer included.
      sent := SendEach(sent, occupants.Values, Constantly(Send(Join(user, room))));
      assert State(rooms, sent) == after;
      websockets, outbox, nextConn := rooms, sent, conn + 1;
    }

    /**
     * The body of ws_chat's receive loop for one text frame `m` from `conn`,
     * whose session is in `room`.
     */
    method Receive(conn: Conn, room: string, m: Inbound)
      requires Valid()
      modifies this`websockets, this`outbox
      ensures Valid()
      ensures Snapshot() == Registry.Receive(old(Snapshot()), conn, room, m)
    {
      ReceiveKeepsOccupants(Snapshot(), conn, room, m);
      var sent := outbox;
      if !IsAllowed(m.action) {
        sent := Post(sent, conn, Send(NotAllowed(m.action)));
      }
      // The branches for 'set_nick', 'change_room', 'user_list' and
      // 'chat_message' do nothing, and nothing returns early.
      var rooms := Touch(websockets, room);
      // 'confirm' to the sender's own connection, 'sent' to every other one.
      sent := SendEach(sent, rooms[room].Values, RelayTo(conn, m.data));
      websockets, outbox := rooms, sent;
    }

    /**
     * ws_chat's receive loop for connection `conn`, whose session is in
     * `room`: each inbound text frame of `msgs` handled in turn.
     */
    method ReceiveEach(conn: Conn, room: string, msgs: seq<Inbound>)
      requires Valid()
      modifies this`websockets, this`outbox
      ensures Valid()
      ensures Snapshot() == ReceiveAll(old(Snapshot()), conn, room, msgs)
    {
      ghost var start := Snapshot();
      var i := 0;
      while i < |msgs|
        invariant 0 <= i <= |msgs|
        invariant Valid()
        invariant Snapshot() == ReceiveAll(start, conn, room, msgs[..i])
      {
        ReceiveAllStep(start, conn, room, msgs, i);
        Receive(conn, room, msgs[i]);
        i := i + 1;
      }
      assert msgs[..i] == msgs;
    }

    /**
     * ws_chat from start to end for one connection whose inbound text frames
     * are `msgs`, with no other session running meanwhile.
     */
    method Chat(n: int, msgs: seq<Inbound>) returns (conn: Conn, accepted: bool)
      requires Valid() && 0 <= n <= 999999
      modifies this
      ensures Valid()
      ensures conn == old(nextConn) && nextConn == conn + 1
      ensures accepted <==> !NameTaken(old(Snapshot()), n)
      ensures Snapshot() == Registry.ChatSession(old(Snapshot()), conn, n, msgs)
    {
      var room, user;
      conn, room, user, accepted := Connect(n);
      if accepted {
        ReceiveEach(conn, room, msgs);
      }
    }

    /**
     * shutdown with the close awaited: every registered connection is asked
     * to close, then the registry is cleared.
     */
    method Shutdown()
      requires Valid()
      modifies this`websockets, this`outbox
      ensures Valid()
      ensures Snapshot() == Registry.Shutdown(old(Snapshot()))
    {
      var closing := Constantly(Close(NormalClosure, ""));
      var sent := outbox;
      var rooms := websockets.Keys;
      ghost var closed: set<Conn> := {};
      FanoutNone(outbox, closing);
      while rooms != {}
        invariant rooms <= websockets.Keys
        invariant unchanged(this)
        invariant closed == RegisteredIn(websockets, websockets.Keys - rooms)
        invariant sent == Fanout(outbox, closed, closing)
        decreases rooms
      {
        var room :| room in rooms;
        ghost var done := websockets.Keys - rooms;
        DisjointRooms(websockets, room, done);
        FanoutUnion(outbox, closed, websockets[room].Values, closing);
        sent := SendEach(sent, websockets[room].Values, closing);
        RegisteredInAddRoom(websockets, done, room);
        assert websockets.Keys - (rooms - {room}) == done + {room};
        closed := closed + websockets[room].Values;
        rooms := rooms - {room};
      }
      assert websockets.Keys - rooms == websockets.Keys;
      websockets, outbox := map[], sent;
    }
  }

  /**
   * `for ws in targets: await ws.send_json(frame(ws))` (or `await ws.close()`):
   * one event appended to each target connection's outbox.
   */
  method SendEach(outbox: Outboxes, targets: set<Conn>, frame: Conn -> Event) returns (sent: Outboxes)
    ensures sent == Fanout(outbox, targets, frame)
  {
    sent := outbox;
    var pending := targets;
    FanoutNone(outbox, frame);
    while pending != {}
      invariant pending <= targets
      invariant sent == Fanout(outbox, targets - pending, frame)
      decreases pending
    {
      var c :| c in pending;
      FanoutAddTarget(outbox, targets - pending, c, frame);
      assert (targets - pending) + {c} == targets - (pending - {c});
      sent := Post(sent, c, frame(c));
      pending := pending - {c};
    }
    assert targets - pending == targets;
  }

  /** Under Injective, a room's connections are registered in no other room. */
  lemma DisjointRooms(rooms: Rooms, room: string, others: set<string>)
    requires Injective(rooms) && room in rooms && room !in others
    ensures rooms[room].Values !! RegisteredIn(rooms, others)
  {
    forall c | c in rooms[room].Values ensures c !in RegisteredIn(rooms, others) {
      var u :| u in rooms[room] && rooms[room][u] == c;
      forall r, v | r in others && r in rooms && v in rooms[r] ensures rooms[r][v] != c {
        assert r != room;
      }
    }
  }

  lemma RegisteredInAddRoom(rooms: Rooms, names: set<string>, room: string)
    requires room in rooms
    ensures RegisteredIn(rooms, names + {room}) == RegisteredIn(rooms, names) + rooms[room].Values
  {
    forall c | c in RegisteredIn(rooms, names + {room})
      ensures c in RegisteredIn(rooms, names) + rooms[room].Values
    {
      var r, u :| r in names + {room} && r in rooms && u in rooms[r] && rooms[r][u] == c;
      if r != room {
        assert c in RegisteredIn(rooms, names);
      }
    }
    forall c | c in RegisteredIn(rooms, names) + rooms[room].Values
      ensures c in RegisteredIn(rooms, names + {room})
    {
      if c !in RegisteredIn(rooms, names) {
        var u :| u in rooms[room] && rooms[room][u] == c;
      }
    }
  }

  /**
   * ws_echo for one connection whose decoded inbound text frames are `msgs`:
   * the frames it sends back, in order.
   */
  method Echo(msgs: seq<Json>) returns (sent: seq<Json>)
    ensures |sent| == |msgs|
    ensures forall i :: 0 <= i < |msgs| ==> sent[i] == EchoReply(msgs[i])
    ensures forall i :: 0 <= i < |msgs| ==> EchoPayload(sent[i]) == Some(msgs[i])
  {
    sent := [];
    for i := 0 to |msgs|
      invariant |sent| == i
      invariant forall k :: 0 <= k < i ==> sent[k] == EchoReply(msgs[k])
    {
      EchoRoundTrip(msgs[i], msgs[i]);
      sent := sent + [EchoReply(msgs[i])];
    }
  }
}
