/** The socket handlers of src/realtime/mod.rs over the client table and the adapter. Each method is the
    part of a handler that runs under one acquisition of `presence_transition` (or without it), and is
    proved to be exactly one step of the protocol; a committing join also with what lands inside it. */
module Handlers {
  import opened Common
  import opened Motion
  import opened Presence
  import opened Network
  import opened Protocol
  import opened Reduction

  class Server {
    const state: ClientsState
    const net: Adapter
    var joins: map<nat, PendingJoin>
    var readers: map<nat, seq<Effect>>

    ghost function World(): World
      reads this, state, net
    {
      Protocol.World(state.clients, net.State(), joins, readers)
    }

    constructor ()
      ensures World() == START
    {
      state := new ClientsState();
      net := new Adapter();
      joins, readers := map[], map[];
    }

    // ------------------------------------------------------ without the lock

    method OnConnect(id: Sid)
      requires id !in net.inbox && id !in state.clients // socket ids are never reused
      modifies state, net
      ensures World() == Apply(old(World()), Connect(id))
    {
      net.Open(id);
      state.InsertDefault(id);
    }

    /** The transport closes; the disconnect handler runs some time later. */
    method OnClose(id: Sid)
      modifies net
      ensures World() == Apply(old(World()), Close(id))
    {
      net.Close(id);
    }

    method OnAuthVerified(id: Sid, wallet: Wallet) returns (room: Option<RoomId>)
      modifies state
      ensures World() == Apply(old(World()), Authenticate(id, wallet))
      ensures room == RoomOf(old(state.clients), id)
    {
      room := state.SetWallet(id, wallet);
    }

    // --------------------------------------------------------- write sections

    method OnJoinSpaceBegin(join: nat, id: Sid, room: RoomId, token: Option<string>, claim: Option<nat>)
      requires readers == map[] && join !in joins
      modifies this`joins, state, net
      ensures World() == Apply(old(World()), JoinBegin(join, id, room, token, claim))
    {
      var noted := state.NotePresenceClaim(id, claim);
      if !noted {
        return;
      }
      var previous := state.TakeCurrentRoom(id);
      Depart(id, previous);
      joins := joins[join := PendingJoin(id, room, token, claim)];
    }

    /** The socket leaves the adapter room it was in, if any, and the others are told. */
    method Depart(id: Sid, room: Option<RoomId>)
      modifies net
      ensures net.State() == PerformAll(old(net.State()), LeaveEffects(id, room))
    {
      ghost var before := net.State();
      if room.Some? {
        net.LeaveRoom(id, room.value);
        net.EmitTo(Others(room.value, id), Delete(id));
      }
      LeavePerformed(before, id, room);
    }

    /** Adapter join, snapshot, confirmation, and an announcement when there is a profile. */
    method Arrive(id: Sid, room: RoomId, claim: Option<nat>, info: Info)
      modifies net
      ensures net.State() == PerformAll(old(net.State()),
                                        ArriveEffects(id, room, claim, Snapshot(state.clients, room), info))
    {
      ghost var before := net.State();
      net.JoinRoom(id, room);
      var snapshot := state.SnapshotRoom(room);
      net.EmitTo(Only(id), ExistingClients(snapshot));
      net.EmitTo(Only(id), PresenceReady(room, claim));
      if info.nickname != "" || info.avatar != "" {
        net.EmitTo(Others(room, id), NewUser(id, info));
      }
      ArrivalPerformed(before, id, room, claim, snapshot, info);
    }

    method EvictSuperseded(room: RoomId, displaced: seq<Sid>)
      modifies net
      ensures net.State() == PerformAll(old(net.State()), EvictEffects(room, displaced))
    {
      ghost var before := net.State();
      for i := 0 to |displaced|
        invariant net.State() == PerformAll(before, Goodbyes(room, displaced[..i]))
      {
        net.EmitTo(Only(displaced[i]), PresenceSuperseded(room));
        net.LeaveRoom(displaced[i], room);
        GoodbyePerformed(before, room, displaced, i);
      }
      assert displaced[..|displaced|] == displaced;
      ghost var told := net.State();
      for i := 0 to |displaced|
        invariant net.State() == PerformAll(told, Removals(room, displaced[..i]))
      {
        net.EmitTo(Within(room), Delete(displaced[i]));
        RemovalPerformed(told, room, displaced, i);
      }
      PerformConcat(before, Goodbyes(room, displaced), Removals(room, displaced));
    }

    /** What other tasks do to the table while a write section awaits something. */
    method Land(landed: seq<Step>)
      requires forall l :: l in landed ==> IsLockFree(l)
      modifies state, net
      ensures World() == Exec(old(World()), landed)
    {
      hide Apply;
      ghost var before := World();
      assert Exec(before, []) == before;
      for i := 0 to |landed|
        invariant World() == Exec(before, landed[..i])
      {
        assert landed[..i + 1][..i] == landed[..i];
        assert landed[i] in landed;
        match landed[i] {
          case Connect(id) =>
            if id !in net.inbox && id !in state.clients {
              OnConnect(id);
            } else {
              ImpossibleIsNothing(World(), landed[i]);
            }
          case Authenticate(id, wallet) =>
            var _ := OnAuthVerified(id, wallet);
        }
      }
      assert landed[..|landed|] == landed;
    }

    /** Phase 2, after `parse_room_id` looked the room up; the join handler ends here. While it awaits its
        broadcasts, sockets may connect and logins succeed. */
    method OnJoinSpaceCommit(join: nat, totalSpaces: nat, landed: seq<Step>) returns (displaced: seq<Sid>)
      requires readers == map[] && join in joins
      requires forall l :: l in landed ==> IsLockFree(l)
      modifies this`joins, state, net
      ensures var step := JoinCommit(join, totalSpaces, displaced);
              World() == if !RoomExists(old(joins)[join].room, totalSpaces) then Apply(old(World()), JoinAbort(join))
                         else if Commits(old(World()), join, totalSpaces) then During(old(World()), step, landed)
                         else Apply(old(World()), step)
      ensures landed == [] && RoomExists(old(joins)[join].room, totalSpaces) ==>
                World() == Apply(old(World()), JoinCommit(join, totalSpaces, displaced))
    {
      hide PerformAll, LeaveEffects, EvictEffects, ArriveEffects, CommitRoom, CommitDuplicates, Enumerates, Snapshot;
      ghost var w := World();
      var j := joins[join];
      joins := joins - {join};
      displaced := [];
      if !RoomExists(j.room, totalSpaces) {
        return;
      }
      var change := state.SetRoom(j.id, j.room, j.token, j.claim);
      if change.None? {
        return;
      }
      var (previous, info, superseded) := change.value;
      displaced := superseded;
      ghost var step := JoinCommit(join, totalSpaces, displaced);
      assert World() == First(w, step);
      Land(landed);
      ghost var x := net.State();
      var leaving := if previous == Some(j.room) then None else previous;
      Depart(j.id, leaving);
      EvictSuperseded(j.room, displaced);
      Arrive(j.id, j.room, j.claim, info);
      PerformConcat(x, LeaveEffects(j.id, leaving), EvictEffects(j.room, displaced));
      PerformConcat(x, LeaveEffects(j.id, leaving) + EvictEffects(j.room, displaced),
                    ArriveEffects(j.id, j.room, j.claim, Snapshot(state.clients, j.room), info));
      assert World() == Rest(w, step, Exec(First(w, step), landed));
      HalvesMakeTheStep(w, step);
    }

    method OnLeaveSpace(id: Sid, room: RoomId, claim: Option<nat>)
      requires readers == map[]
      modifies state, net
      ensures World() == Apply(old(World()), LeaveSpace(id, room, claim))
    {
      var noted := state.NotePresenceClaim(id, claim);
      if !noted {
        return;
      }
      var left := state.ClearRoom(id, room, claim);
      if left.None? {
        return;
      }
      Depart(id, left);
    }

    method OnSetUserData(id: Sid, data: UserData) returns (displaced: seq<Sid>)
      requires readers == map[]
      modifies state, net
      ensures World() == Apply(old(World()), SetUserData(id, data, displaced))
    {
      ghost var cs, before := state.clients, net.State();
      var change := state.UpdateUserData(id, data);
      displaced := [];
      if change.None? {
        return;
      }
      var (info, room, superseded) := change.value;
      displaced := superseded;
      if room.None? {
        return;
      }
      EvictSuperseded(room.value, displaced);
      ghost var evicted := net.State();
      net.EmitTo(Others(room.value, id), NewUser(id, info));
      PerformOne(evicted, Emit(Others(room.value, id), NewUser(id, info)));
      PerformConcat(before, EvictEffects(room.value, displaced), [Emit(Others(room.value, id), NewUser(id, info))]);
    }

    method OnDisconnect(id: Sid)
      requires readers == map[] && id !in net.live
      modifies state, net
      ensures World() == Apply(old(World()), Disconnect(id))
    {
      var room := state.Remove(id);
      if room.Some? {
        net.EmitTo(Within(room.value), Delete(id));
      }
    }

    // ---------------------------------------------------------- read sections

    method OnMove(guard: nat, id: Sid, position: seq<F32>, rotation: Option<F32>, clientSeq: Option<nat>)
      requires guard !in readers
      modifies this`readers, state
      ensures World() == Apply(old(World()), MoveBegin(guard, id, position, rotation, clientSeq))
    {
      var target := ToVec3(position);
      if target.None? || !InWorldBounds(target.value) {
        return;
      }
      var turn := if rotation.Some? then rotation.value else Fin(0.0);
      if !turn.Fin? {
        return;
      }
      var moved := state.UpdateMove(id, target.value, turn, clientSeq);
      if moved.None? {
        return;
      }
      var (info, room, serverSeq) := moved.value;
      readers := readers[guard := [Emit(Within(room), Moved(id, WithoutWallet(info), serverSeq, clientSeq))]];
    }

    method OnGoto(id: Sid, position: seq<F32>, speed: Option<F32>, rotation: Option<F32>)
      modifies state
      ensures World() == Apply(old(World()), Goto(id, position, speed, rotation))
    {
      var target := ToVec3(position);
      if target.None? || !InWorldBounds(target.value) {
        return;
      }
      var _ := state.SetGoto(id, target.value, ClampSpeed(speed), rotation);
    }

    method OnChatMessage(guard: nat, id: Sid, text: string)
      requires guard !in readers
      modifies this`readers
      ensures World() == Apply(old(World()), ChatBegin(guard, id, text))
    {
      var room := RoomOf(state.clients, id);
      if room.None? {
        return;
      }
      var message := Truncate(Trim(text), MAX_CHAT_LEN);
      if message == "" {
        return;
      }
      var info := state.clients[id].info;
      readers := readers[guard := [Emit(Within(room.value), ChatMessage(id, info.nickname, message, info.wallet))]];
    }

    /** After a wallet was verified while the client was in `room`, and the ownership lookup answered: the
        client learns its access and the room its wallet, unless it has moved on meanwhile. */
    method OnWalletBroadcast(guard: nat, id: Sid, room: RoomId, access: Access)
      requires guard !in readers
      modifies this`readers
      ensures World() == Apply(old(World()), WalletBegin(guard, id, room, access))
    {
      if RoomOf(state.clients, id) != Some(room) {
        return;
      }
      var told := Emit(Only(id), RoomAccess(room, access));
      readers := readers[guard := [told, Emit(Others(room, id), NewUser(id, state.clients[id].info))]];
    }

    /** The broadcasts of one tick, in the order visited. */
    method MoveBroadcasts(moved: seq<Sid>) returns (updates: seq<Effect>)
      requires forall p :: p in moved ==> p in state.clients && state.clients[p].room.Some?
      ensures updates == TickEffects(state.clients, moved)
    {
      updates := [];
      for i := 0 to |moved|
        invariant updates == TickEffects(state.clients, moved[..i])
      {
        assert moved[i] in moved;
        assert moved[..i + 1][..i] == moved[..i];
        var rec := state.clients[moved[i]];
        updates := updates + [Emit(Within(rec.room.value), Moved(moved[i], WithoutWallet(rec.info), rec.serverSeq, None))];
      }
      assert moved[..|moved|] == moved;
    }

    method OnTick(guard: nat, dist: map<Sid, real>) returns (moved: seq<Sid>)
      requires guard !in readers
      requires Measures(dist, state.clients) && forall p :: p in dist ==> 0.0 <= dist[p]
      modifies this`readers, state
      ensures World() == Apply(old(World()), TickBegin(guard, moved, dist))
    {
      hide TickRecord, TickClients, TickEffects, Measures, Enumerates;
      ghost var before := state.clients;
      moved := state.TickMotions(dist);
      TickedMoversHaveRooms(before, dist, moved);
      var updates := MoveBroadcasts(moved);
      if |updates| > 0 {
        readers := readers[guard := updates];
      }
    }

    /** One owed broadcast goes out; the last one releases the guard. */
    method OnEmitNext(guard: nat)
      requires guard in readers && |readers[guard]| > 0
      modifies this`readers, net
      ensures World() == Apply(old(World()), EmitNext(guard))
    {
      var owed := readers[guard];
      match owed[0] {
        case Emit(dest, event) => net.EmitTo(dest, event);
        case Leave(id, room) => net.LeaveRoom(id, room);
        case Join(id, room) => net.JoinRoom(id, room);
      }
      readers := if |owed| == 1 then readers - {guard} else readers[guard := owed[1..]];
    }
  }

  // --------------------------------------- statement sequences as effect lists

  lemma LeavePerformed(net: Net, id: Sid, room: Option<RoomId>)
    ensures PerformAll(net, LeaveEffects(id, room))
            == if room.None? then net
               else Perform(Perform(net, Leave(id, room.value)), Emit(Others(room.value, id), Delete(id)))
  {
    if room.Some? {
      PerformTwo(net, Leave(id, room.value), Emit(Others(room.value, id), Delete(id)));
    }
  }

  lemma GoodbyePerformed(net: Net, room: RoomId, displaced: seq<Sid>, i: nat)
    requires i < |displaced|
    ensures PerformAll(net, Goodbyes(room, displaced[..i + 1]))
            == Perform(Perform(PerformAll(net, Goodbyes(room, displaced[..i])),
                               Emit(Only(displaced[i]), PresenceSuperseded(room))),
                       Leave(displaced[i], room))
  {
    var before := displaced[..i];
    assert displaced[..i + 1][..i] == before;
    var told, left := Emit(Only(displaced[i]), PresenceSuperseded(room)), Leave(displaced[i], room);
    PerformConcat(net, Goodbyes(room, before), [told, left]);
    PerformTwo(PerformAll(net, Goodbyes(room, before)), told, left);
  }

  lemma RemovalPerformed(net: Net, room: RoomId, displaced: seq<Sid>, i: nat)
    requires i < |displaced|
    ensures PerformAll(net, Removals(room, displaced[..i + 1]))
            == Perform(PerformAll(net, Removals(room, displaced[..i])), Emit(Within(room), Delete(displaced[i])))
  {
    var before := displaced[..i];
    assert displaced[..i + 1][..i] == before;
    PerformConcat(net, Removals(room, before), [Emit(Within(room), Delete(displaced[i]))]);
    PerformOne(PerformAll(net, Removals(room, before)), Emit(Within(room), Delete(displaced[i])));
  }

  lemma TickedMoversHaveRooms(cs: Clients, dist: map<Sid, real>, moved: seq<Sid>)
    requires forall p :: p in dist ==> 0.0 <= dist[p]
    requires Enumerates(moved, Movers(cs))
    ensures forall p :: p in moved ==> p in TickClients(cs, dist) && TickClients(cs, dist)[p].room.Some?
  {
  }
}
