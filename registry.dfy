/**
 * The chat application's shared state as a value, and each step of the chat
 * endpoint as a function of it. `rooms` is `app['websockets']`, the
 * `defaultdict(dict)` from room name to (user name -> connection); `outbox`
 * holds, per connection, everything the server has sent to it or asked of it,
 * in order.
 */
module Registry {
  import opened Protocol

  /** An opaque connection (a `WebSocketResponse` object), compared by identity. */
  type Conn = nat

  type Rooms = map<string, map<string, Conn>>
  type Outboxes = map<Conn, seq<Event>>

  datatype State = State(rooms: Rooms, outbox: Outboxes)

  // ----- Reading the registry -----

  /** `app['websockets'][room]` read without side effect: an unknown room has no occupants. */
  function Occupants(rooms: Rooms, room: string): map<string, Conn> {
    if room in rooms then rooms[room] else map[]
  }

  /** The defaultdict subscription's side effect: an absent room is inserted, empty. */
  function Touch(rooms: Rooms, room: string): (r: Rooms)
    ensures r.Keys == rooms.Keys + {room}
    ensures forall x :: Occupants(r, x) == Occupants(rooms, x)
  {
    if room in rooms then rooms else rooms[room := map[]]
  }

  /** `app['websockets'][room][user] = conn` on the defaultdict: that one entry is set, nothing else changes. */
  function Insert(rooms: Rooms, room: string, user: string, conn: Conn): (r: Rooms)
    ensures r.Keys == rooms.Keys + {room}
    ensures forall x :: x != room ==> Occupants(r, x) == Occupants(rooms, x)
    ensures Occupants(r, room) == Occupants(rooms, room)[user := conn]
  {
    var occupants: map<string, Conn> := Occupants(rooms, room)[user := conn];
    rooms[room := occupants]
  }

  /** Connections registered under some user of one of the rooms in `names`. */
  function RegisteredIn(rooms: Rooms, names: set<string>): set<Conn> {
    set r, u | r in names && r in rooms && u in rooms[r] :: rooms[r][u]
  }

  function Registered(rooms: Rooms): set<Conn> {
    RegisteredIn(rooms, rooms.Keys)
  }

  /** Every connection occupies at most one (room, user) entry. */
  predicate Injective(rooms: Rooms) {
    forall r1, u1, r2, u2 ::
      (r1 in rooms && u1 in rooms[r1] && r2 in rooms && u2 in rooms[r2] && rooms[r1][u1] == rooms[r2][u2])
      ==> r1 == r2 && u1 == u2
  }

  /** The registry invariant: connections are unique, and all were handed out before `next`. */
  predicate Sound(rooms: Rooms, next: Conn) {
    Injective(rooms) && forall c :: c in Registered(rooms) ==> c < next
  }

  // ----- Sending -----

  function Pending(outbox: Outboxes, c: Conn): seq<Event> {
    if c in outbox then outbox[c] else []
  }

  /** One awaited `send_json` / `close` on connection `c`. */
  function Post(outbox: Outboxes, c: Conn, e: Event): Outboxes {
    outbox[c := Pending(outbox, c) + [e]]
  }

  /** One pass of a loop that sends `frame(c)` to every connection `c` in `targets`. */
  function Fanout(outbox: Outboxes, targets: set<Conn>, frame: Conn -> Event): (o: Outboxes)
    ensures forall c :: Pending(o, c) == Pending(outbox, c) + (if c in targets then [frame(c)] else [])
  {
    map c | c in outbox.Keys + targets :: Pending(outbox, c) + (if c in targets then [frame(c)] else [])
  }

  function Constantly(e: Event): Conn -> Event {
    _ => e
  }

  /** The relay loop's choice: 'confirm' to the sender, 'sent' to everyone else. */
  function RelayTo(sender: Conn, data: string): Conn -> Event {
    c => if c == sender then Send(Confirm(data)) else Send(Sent(data))
  }

  lemma FanoutNone(outbox: Outboxes, frame: Conn -> Event)
    ensures Fanout(outbox, {}, frame) == outbox
  {
    var o := Fanout(outbox, {}, frame);
    assert o.Keys == outbox.Keys;
    forall x | x in o.Keys ensures o[x] == outbox[x] {
      assert o[x] == Pending(o, x);
    }
  }

  lemma FanoutAddTarget(outbox: Outboxes, targets: set<Conn>, c: Conn, frame: Conn -> Event)
    requires c !in targets
    ensures Post(Fanout(outbox, targets, frame), c, frame(c)) == Fanout(outbox, targets + {c}, frame)
  {
    var lhs := Post(Fanout(outbox, targets, frame), c, frame(c));
    var rhs := Fanout(outbox, targets + {c}, frame);
    assert lhs.Keys == rhs.Keys;
    forall x | x in lhs.Keys ensures lhs[x] == rhs[x] {
      assert lhs[x] == Pending(lhs, x) && rhs[x] == Pending(rhs, x);
    }
  }

  lemma FanoutUnion(outbox: Outboxes, first: set<Conn>, second: set<Conn>, frame: Conn -> Event)
    requires first !! second
    ensures Fanout(Fanout(outbox, first, frame), second, frame) == Fanout(outbox, first + second, frame)
  {
    var mid := Fanout(outbox, first, frame);
    var lhs := Fanout(mid, second, frame);
    var rhs := Fanout(outbox, first + second, frame);
    assert lhs.Keys == rhs.Keys;
    forall x | x in lhs.Keys ensures lhs[x] == rhs[x] {
      var a := if x in first then [frame(x)] else [];
      var b := if x in second then [frame(x)] else [];
      ConcatAssoc(Pending(outbox, x), a, b);
      assert a + b == if x in first + second then [frame(x)] else [];
      assert lhs[x] == Pending(lhs, x) == Pending(mid, x) + b;
      assert rhs[x] == Pending(rhs, x);
    }
  }

  // ----- The steps of the chat endpoint -----

  /**
   * A new connection `conn` with drawn number `n` (lines 122-142): greet it
   * with 'connecting'; refuse it if its name is taken in the default room;
   * otherwise insert it and announce 'join' to every occupant, itself included.
   */
  function Connect(s: State, conn: Conn, n: nat): State {
    var room, user := DefaultRoom, GeneratedName(n);
    var greeted := Post(s.outbox, conn, Send(Connecting(room, user)));
    var rooms := Touch(s.rooms, room);
    if user in rooms[room] then
      State(rooms, Post(greeted, conn, Close(TryAgainLater, UsernameInUse)))
    else
      var joined := Insert(rooms, room, user, conn);
      State(joined, Fanout(greeted, joined[room].Values, Constantly(Send(Join(user, room)))))
  }

  /** Whether Connect refuses the connection. */
  predicate NameTaken(s: State, n: nat) {
    GeneratedName(n) in Occupants(s.rooms, DefaultRoom)
  }

  /**
   * One inbound text frame from `conn`, whose session is in `room`
   * (lines 145-173): reject a disallowed action to the sender, run the
   * no-op action branches, then relay the raw data to the whole room.
   */
  function Receive(s: State, conn: Conn, room: string, m: Inbound): State {
    var replied := if IsAllowed(m.action) then s.outbox else Post(s.outbox, conn, Send(NotAllowed(m.action)));
    var rooms := Touch(s.rooms, room);
    State(rooms, Fanout(replied, rooms[room].Values, RelayTo(conn, m.data)))
  }

  /** The inbound frames `msgs`, received one after the other. */
  function ReceiveAll(s: State, conn: Conn, room: string, msgs: seq<Inbound>): State
    decreases |msgs|
  {
    if msgs == [] then s
    else Receive(ReceiveAll(s, conn, room, msgs[..|msgs| - 1]), conn, room, msgs[|msgs| - 1])
  }

  /** Receiving one more frame extends the run by that frame. */
  lemma ReceiveAllStep(s: State, conn: Conn, room: string, msgs: seq<Inbound>, i: nat)
    requires i < |msgs|
    ensures ReceiveAll(s, conn, room, msgs[..i + 1]) == Receive(ReceiveAll(s, conn, room, msgs[..i]), conn, room, msgs[i])
  {
    assert msgs[..i + 1][..i] == msgs[..i];
  }

  /** A whole chat session, run with no other session interleaved: the connect step, then its inbound frames unless refused. */
  function ChatSession(s: State, conn: Conn, n: nat, msgs: seq<Inbound>): State {
    var s1 := Connect(s, conn, n);
    if NameTaken(s, n) then s1 else ReceiveAll(s1, conn, DefaultRoom, msgs)
  }

  /** Shutdown as intended: close every registered connection, then clear the registry. */
  function Shutdown(s: State): State {
    State(map[], Fanout(s.outbox, Registered(s.rooms), Constantly(Close(NormalClosure, ""))))
  }

  /**
   * Shutdown as written (lines 196-200): `ws.close()` is called without
   * `await`, so the close coroutine never runs; only the clear takes effect.
   */
  function ShutdownAsWritten(s: State): State {
    State(map[], s.outbox)
  }

  // ----- What each step promises -----

  /** A taken name: the newcomer gets 'connecting' then a TRY_AGAIN_LATER close; the registry and every other outbox are unchanged. */
  lemma ConnectRefused(s: State, conn: Conn, n: nat)
    requires NameTaken(s, n)
    ensures Connect(s, conn, n).rooms == s.rooms
    ensures forall c :: Pending(Connect(s, conn, n).outbox, c) ==
                Pending(s.outbox, c) +
                (if c == conn then [Send(Connecting(DefaultRoom, GeneratedName(n))), Close(TryAgainLater, "Username already in use")] else [])
  {
  }

  /** A free name: exactly `rooms[Default][user] := conn`; every other room and user entry is unchanged. */
  lemma ConnectRegisters(s: State, conn: Conn, n: nat)
    requires !NameTaken(s, n)
    ensures Connect(s, conn, n).rooms.Keys == s.rooms.Keys + {DefaultRoom}
    ensures Occupants(Connect(s, conn, n).rooms, DefaultRoom) == Occupants(s.rooms, DefaultRoom)[GeneratedName(n) := conn]
    ensures forall r :: r != DefaultRoom ==> Occupants(Connect(s, conn, n).rooms, r) == Occupants(s.rooms, r)
  {
  }

  /**
   * A free name: the newcomer receives 'connecting' then one 'join'; every
   * earlier occupant of the default room receives one 'join'; nobody else
   * receives anything.
   */
  lemma ConnectAnnounces(s: State, conn: Conn, n: nat)
    requires !NameTaken(s, n)
    ensures forall c :: Pending(Connect(s, conn, n).outbox, c) ==
                Pending(s.outbox, c) +
                (if c == conn then [Send(Connecting(DefaultRoom, GeneratedName(n))), Send(Join(GeneratedName(n), DefaultRoom))]
                 else if c in Occupants(s.rooms, DefaultRoom).Values then [Send(Join(GeneratedName(n), DefaultRoom))]
                 else [])
  {
    InsertValues(Occupants(s.rooms, DefaultRoom), GeneratedName(n), conn);
  }

  /** Adding a fresh user to a room adds its connection to the room's connections. */
  lemma InsertValues(occupants: map<string, Conn>, user: string, conn: Conn)
    requires user !in occupants
    ensures occupants[user := conn].Values == occupants.Values + {conn}
  {
    var joined := occupants[user := conn];
    forall c | c in joined.Values ensures c in occupants.Values + {conn} {
      var u :| u in joined && joined[u] == c;
      if u != user { assert occupants[u] == c; }
    }
    forall c | c in occupants.Values + {conn} ensures c in joined.Values {
      if c == conn {
        assert joined[user] == c;
      } else {
        var u :| u in occupants && occupants[u] == c;
        assert u in joined && joined[u] == c;
      }
    }
  }

  /** Inserting a user not yet in the room registers exactly one more connection. */
  lemma InsertRegistered(rooms: Rooms, room: string, user: string, conn: Conn)
    requires user !in Occupants(rooms, room)
    ensures Registered(Insert(rooms, room, user, conn)) == Registered(rooms) + {conn}
  {
    var rooms' := Insert(rooms, room, user, conn);
    forall c | c in Registered(rooms') ensures c in Registered(rooms) + {conn} {
      var r, u :| r in rooms' && u in rooms'[r] && rooms'[r][u] == c;
      assert Occupants(rooms', r) == rooms'[r];
      if c != conn {
        assert r in rooms && u in rooms[r] && rooms[r][u] == c;
      }
    }
    forall c | c in Registered(rooms) + {conn} ensures c in Registered(rooms') {
      if c == conn {
        assert Occupants(rooms', room)[user] == conn;
      } else {
        var r, u :| r in rooms && u in rooms[r] && rooms[r][u] == c;
        assert Occupants(rooms, r) == rooms[r];
        assert rooms'[r][u] == c;
      }
    }
  }

  /** Inserting a connection registered nowhere keeps every connection in at most one entry. */
  lemma InsertInjective(rooms: Rooms, room: string, user: string, conn: Conn)
    requires Injective(rooms) && user !in Occupants(rooms, room) && conn !in Registered(rooms)
    ensures Injective(Insert(rooms, room, user, conn))
  {
    var rooms' := Insert(rooms, room, user, conn);
    forall r1, u1, r2, u2 |
      r1 in rooms' && u1 in rooms'[r1] && r2 in rooms' && u2 in rooms'[r2] && rooms'[r1][u1] == rooms'[r2][u2]
      ensures r1 == r2 && u1 == u2
    {
      assert Occupants(rooms', r1) == rooms'[r1] && Occupants(rooms', r2) == rooms'[r2];
      var c := rooms'[r1][u1];
      if c != conn {
        assert rooms[r1][u1] == c && rooms[r2][u2] == c;
      } else {
        NotRegisteredNowhere(rooms, conn, r1, u1);
        NotRegisteredNowhere(rooms, conn, r2, u2);
      }
    }
  }

  /** A new connection keeps the registry sound, the counter having moved past it. */
  lemma ConnectKeepsSound(s: State, conn: Conn, n: nat)
    requires Sound(s.rooms, conn)
    ensures Sound(Connect(s, conn, n).rooms, conn + 1)
  {
    if !NameTaken(s, n) {
      var rooms := Touch(s.rooms, DefaultRoom);
      assert Registered(rooms) == Registered(s.rooms) by {
        assert rooms == s.rooms || rooms == s.rooms[DefaultRoom := map[]];
        RegisteredTouch(s.rooms, DefaultRoom);
      }
      InsertRegistered(rooms, DefaultRoom, GeneratedName(n), conn);
      InsertInjective(rooms, DefaultRoom, GeneratedName(n), conn);
    }
  }

  /** The defaultdict's empty entry registers nobody. */
  lemma RegisteredTouch(rooms: Rooms, room: string)
    ensures Registered(Touch(rooms, room)) == Registered(rooms)
    ensures Injective(rooms) ==> Injective(Touch(rooms, room))
  {
    var t := Touch(rooms, room);
    forall c | c in Registered(t) ensures c in Registered(rooms) {
      var r, u :| r in t && u in t[r] && t[r][u] == c;
      assert Occupants(t, r) == Occupants(rooms, r);
    }
    forall c | c in Registered(rooms) ensures c in Registered(t) {
      var r, u :| r in rooms && u in rooms[r] && rooms[r][u] == c;
      assert Occupants(t, r) == Occupants(rooms, r);
    }
  }

  /** A connection outside Registered is stored under no entry; an entry equal to it must be the new one. */
  lemma NotRegisteredNowhere(rooms: Rooms, conn: Conn, r: string, u: string)
    requires conn !in Registered(rooms)
    ensures r in rooms && u in rooms[r] ==> rooms[r][u] != conn
  {
    if r in rooms && u in rooms[r] {
      assert rooms[r][u] in Registered(rooms);
    }
  }

  /** Messages never change who occupies which room; they may only add an empty default-dict entry for `room`. */
  lemma ReceiveKeepsOccupants(s: State, conn: Conn, room: string, m: Inbound)
    ensures Receive(s, conn, room, m).rooms.Keys == s.rooms.Keys + {room}
    ensures forall r :: Occupants(Receive(s, conn, room, m).rooms, r) == Occupants(s.rooms, r)
    ensures Registered(Receive(s, conn, room, m).rooms) == Registered(s.rooms)
    ensures Injective(s.rooms) ==> Injective(Receive(s, conn, room, m).rooms)
  {
    var rooms' := Receive(s, conn, room, m).rooms;
    forall c | c in Registered(rooms') ensures c in Registered(s.rooms) {
      var r, u :| r in rooms' && u in rooms'[r] && rooms'[r][u] == c;
      assert Occupants(rooms', r) == Occupants(s.rooms, r);
    }
    forall c | c in Registered(s.rooms) ensures c in Registered(rooms') {
      var r, u :| r in s.rooms && u in s.rooms[r] && s.rooms[r][u] == c;
      assert Occupants(rooms', r) == Occupants(s.rooms, r);
    }
  }

  /** What one inbound frame delivers to connection `c`, given the room's connections `inRoom`. */
  function Delivered(c: Conn, sender: Conn, inRoom: set<Conn>, m: Inbound): seq<Event> {
    if c == sender then
      (if IsAllowed(m.action) then [] else [Send(NotAllowed(m.action))]) +
      (if sender in inRoom then [Send(Confirm(m.data))] else [])
    else if c in inRoom then [Send(Sent(m.data))]
    else []
  }

  /**
   * One inbound frame: a disallowed action first earns the sender a
   * 'Not allowed.' reply; then, allowed or not, the sender gets 'confirm' and
   * every other occupant of the room one 'sent' with the raw data.
   */
  lemma ReceiveDelivers(s: State, conn: Conn, room: string, m: Inbound)
    ensures forall c :: Pending(Receive(s, conn, room, m).outbox, c) ==
                Pending(s.outbox, c) + Delivered(c, conn, Occupants(s.rooms, room).Values, m)
  {
    assert Touch(s.rooms, room)[room] == Occupants(s.rooms, room);
  }

  /** What a run of inbound frames delivers to `c`, in order. */
  function Transcript(c: Conn, sender: Conn, inRoom: set<Conn>, msgs: seq<Inbound>): seq<Event>
    decreases |msgs|
  {
    if msgs == [] then []
    else Transcript(c, sender, inRoom, msgs[..|msgs| - 1]) + Delivered(c, sender, inRoom, msgs[|msgs| - 1])
  }

  /** A run of inbound frames leaves occupancy alone. */
  lemma {:induction false} ReceiveAllKeepsOccupants(s: State, conn: Conn, room: string, msgs: seq<Inbound>)
    ensures forall r :: Occupants(ReceiveAll(s, conn, room, msgs).rooms, r) == Occupants(s.rooms, r)
    ensures Registered(ReceiveAll(s, conn, room, msgs).rooms) == Registered(s.rooms)
    ensures Injective(s.rooms) ==> Injective(ReceiveAll(s, conn, room, msgs).rooms)
    decreases |msgs|
  {
    if msgs != [] {
      var prefix := msgs[..|msgs| - 1];
      ReceiveAllKeepsOccupants(s, conn, room, prefix);
      ReceiveKeepsOccupants(ReceiveAll(s, conn, room, prefix), conn, room, msgs[|msgs| - 1]);
    }
  }

  /** A run of inbound frames appends each frame's deliveries to connection `c`, in arrival order. */
  lemma {:induction false} ReceiveAllDelivers(s: State, conn: Conn, room: string, msgs: seq<Inbound>, c: Conn)
    ensures Pending(ReceiveAll(s, conn, room, msgs).outbox, c) ==
            Pending(s.outbox, c) + Transcript(c, conn, Occupants(s.rooms, room).Values, msgs)
    decreases |msgs|
  {
    if msgs != [] {
      var prefix := msgs[..|msgs| - 1];
      var last := msgs[|msgs| - 1];
      var mid := ReceiveAll(s, conn, room, prefix);
      var inRoom := Occupants(s.rooms, room).Values;
      ReceiveAllDelivers(s, conn, room, prefix, c);
      ReceiveAllKeepsOccupants(s, conn, room, prefix);
      ReceiveDelivers(mid, conn, room, last);
      assert Occupants(mid.rooms, room) == Occupants(s.rooms, room);
      assert Pending(ReceiveAll(s, conn, room, msgs).outbox, c) == Pending(mid.outbox, c) + Delivered(c, conn, inRoom, last);
      ConcatAssoc(Pending(s.outbox, c), Transcript(c, conn, inRoom, prefix), Delivered(c, conn, inRoom, last));
    }
  }

  lemma ConcatAssoc<T>(a: seq<T>, b: seq<T>, d: seq<T>)
    ensures (a + b) + d == a + (b + d)
  {
  }

  /** Every other occupant of the sender's room sees each inbound frame's data once, as 'sent', in order. */
  lemma {:induction false} OthersSeeEveryMessage(c: Conn, sender: Conn, inRoom: set<Conn>, msgs: seq<Inbound>)
    requires c != sender && c in inRoom
    ensures |Transcript(c, sender, inRoom, msgs)| == |msgs|
    ensures forall i :: 0 <= i < |msgs| ==> Transcript(c, sender, inRoom, msgs)[i] == Send(Sent(msgs[i].data))
    decreases |msgs|
  {
    if msgs != [] {
      OthersSeeEveryMessage(c, sender, inRoom, msgs[..|msgs| - 1]);
    }
  }

  /** Connections outside the sender's room receive nothing from its messages. */
  lemma {:induction false} OutsidersSeeNothing(c: Conn, sender: Conn, inRoom: set<Conn>, msgs: seq<Inbound>)
    requires c != sender && c !in inRoom
    ensures Transcript(c, sender, inRoom, msgs) == []
    decreases |msgs|
  {
    if msgs != [] {
      OutsidersSeeNothing(c, sender, inRoom, msgs[..|msgs| - 1]);
    }
  }

  /** A registered sender receives at least one 'confirm' per inbound frame, so at least as many frames as it sent. */
  lemma {:induction false} SenderConfirmed(sender: Conn, inRoom: set<Conn>, msgs: seq<Inbound>)
    requires sender in inRoom
    ensures |msgs| <= |Transcript(sender, sender, inRoom, msgs)| <= 2 * |msgs|
    ensures msgs != [] ==> Transcript(sender, sender, inRoom, msgs)[|Transcript(sender, sender, inRoom, msgs)| - 1]
                           == Send(Confirm(msgs[|msgs| - 1].data))
    decreases |msgs|
  {
    if msgs != [] {
      SenderConfirmed(sender, inRoom, msgs[..|msgs| - 1]);
    }
  }

  /** Shutdown as intended: no rooms remain and each registered connection had exactly one close requested. */
  lemma ShutdownClosesAll(s: State)
    ensures Shutdown(s).rooms == map[]
    ensures forall c :: Pending(Shutdown(s).outbox, c) ==
                Pending(s.outbox, c) + (if c in Registered(s.rooms) then [Close(NormalClosure, "")] else [])
  {
  }

  /** As written, shutdown empties the registry but leaves every registered connection without a close. */
  lemma ShutdownAsWrittenClosesNothing(s: State, c: Conn)
    requires c in Registered(s.rooms)
    ensures ShutdownAsWritten(s).rooms == Shutdown(s).rooms == map[]
    ensures Pending(ShutdownAsWritten(s).outbox, c) == Pending(s.outbox, c)
    ensures Pending(Shutdown(s).outbox, c) != Pending(ShutdownAsWritten(s).outbox, c)
  {
    assert Pending(Shutdown(s).outbox, c) == Pending(s.outbox, c) + [Close(NormalClosure, "")];
  }
}
