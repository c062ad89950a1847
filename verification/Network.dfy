/** Socket.IO as the server sees it: open sockets, adapter rooms, what each socket received so far, and
    the log of everything the server asked for. Delivery to each socket is reliable and in order. */
module Network {
  import opened Common
  import opened Presence

  // What the ownership lookup answered, a permission or an error code: opaque.
  type Access = nat

  /** A `move` carries the presence payload of its client without the wallet. */
  datatype Event =
    | ExistingClients(clients: map<Sid, Info>)
    | NewUser(id: Sid, info: Info)
    | Delete(id: Sid)
    | Moved(id: Sid, info: Info, serverSeq: nat, clientSeq: Option<nat>)
    | ChatMessage(id: Sid, nickname: string, message: string, wallet: Option<Wallet>)
    | PresenceSuperseded(room: RoomId)
    | PresenceReady(room: RoomId, claim: Option<nat>)
    | RoomAccess(room: RoomId, access: Access)

  /** `io.within(room)`, `socket.to(room)` and `socket` as emit targets. */
  datatype Dest = Within(room: RoomId) | Others(room: RoomId, sender: Sid) | Only(id: Sid)

  datatype Effect = Leave(id: Sid, room: RoomId) | Join(id: Sid, room: RoomId) | Emit(dest: Dest, event: Event)

  datatype Net = Net(live: set<Sid>, joined: set<(Sid, RoomId)>, inbox: map<Sid, seq<Event>>, log: seq<Effect>)

  predicate Hears(net: Net, dest: Dest, p: Sid) {
    p in net.live &&
    match dest
    case Within(room) => (p, room) in net.joined
    case Others(room, sender) => (p, room) in net.joined && p != sender
    case Only(id) => p == id
  }

  function Perform(net: Net, e: Effect): Net {
    match e
    case Leave(id, room) => net.(joined := net.joined - {(id, room)}, log := net.log + [e])
    case Join(id, room) => net.(joined := net.joined + {(id, room)}, log := net.log + [e])
    case Emit(dest, event) =>
      net.(inbox := map p | p in net.inbox :: if Hears(net, dest, p) then net.inbox[p] + [event] else net.inbox[p],
           log := net.log + [e])
  }

  function PerformAll(net: Net, es: seq<Effect>): Net {
    if es == [] then net else Perform(PerformAll(net, es[..|es| - 1]), es[|es| - 1])
  }

  lemma {:induction false} PerformConcat(net: Net, a: seq<Effect>, b: seq<Effect>)
    ensures PerformAll(net, a + b) == PerformAll(PerformAll(net, a), b)
    decreases |b|
  {
    if b == [] {
      assert a + b == a;
    } else {
      var n := |b| - 1;
      assert (a + b)[..|a + b| - 1] == a + b[..n];
      PerformConcat(net, a, b[..n]);
    }
  }

  lemma PerformOne(net: Net, e: Effect)
    ensures PerformAll(net, [e]) == Perform(net, e)
  {
    assert PerformAll(net, [e][..0]) == net;
  }

  lemma PerformTwo(net: Net, a: Effect, b: Effect)
    ensures PerformAll(net, [a, b]) == Perform(Perform(net, a), b)
  {
    assert [a, b] == [a] + [b];
    PerformConcat(net, [a], [b]);
    PerformOne(net, a);
    PerformOne(PerformAll(net, [a]), b);
  }

  class Adapter {
    var live: set<Sid>
    var joined: set<(Sid, RoomId)>
    var inbox: map<Sid, seq<Event>>
    ghost var log: seq<Effect>

    ghost function State(): Net
      reads this
    {
      Net(live, joined, inbox, log)
    }

    constructor ()
      ensures State() == Net({}, {}, map[], [])
    {
      live, joined, inbox, log := {}, {}, map[], [];
    }

    method Open(id: Sid)
      modifies this
      ensures State() == old(State()).(live := old(live) + {id}, inbox := old(inbox)[id := []])
    {
      live := live + {id};
      inbox := inbox[id := []];
    }

    /** The transport is gone: the socket hears nothing more and is in no adapter room. */
    method Close(id: Sid)
      modifies this
      ensures State() == old(State()).(live := old(live) - {id},
                                       joined := set q | q in old(joined) && q.0 != id)
    {
      live := live - {id};
      joined := set q | q in joined && q.0 != id;
    }

    method LeaveRoom(id: Sid, room: RoomId)
      modifies this
      ensures State() == Perform(old(State()), Leave(id, room))
    {
      joined := joined - {(id, room)};
      log := log + [Leave(id, room)];
    }

    method JoinRoom(id: Sid, room: RoomId)
      modifies this
      ensures State() == Perform(old(State()), Join(id, room))
    {
      joined := joined + {(id, room)};
      log := log + [Join(id, room)];
    }

    method EmitTo(dest: Dest, event: Event)
      modifies this
      ensures State() == Perform(old(State()), Emit(dest, event))
    {
      var heard := set p | p in inbox && p in live &&
                           match dest
                           case Within(room) => (p, room) in joined
                           case Others(room, sender) => (p, room) in joined && p != sender
                           case Only(id) => p == id;
      inbox := map p | p in inbox :: if p in heard then inbox[p] + [event] else inbox[p];
      log := log + [Emit(dest, event)];
    }
  }
}
