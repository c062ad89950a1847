/** The presence protocol as steps over one world. Every `presence_transition.write()` section is one
    step; every read section is a step that takes the guard and queues its broadcasts, followed by one
    step per broadcast, the last of which releases the guard. Any steps may interleave, except that a
    write section needs all guards released. A step that is not possible changes nothing, so that every
    sequence of steps is a run. */
module Protocol {
  import opened Common
  import opened Motion
  import opened Presence
  import opened Network

  /** A `join-space` handler between its two write sections. */
  datatype PendingJoin = PendingJoin(id: Sid, room: RoomId, token: Option<string>, claim: Option<nat>)

  datatype World = World(
    clients: Clients,
    net: Net,
    joins: map<nat, PendingJoin>,      // join handlers between phase 1 and phase 2
    readers: map<nat, seq<Effect>>)    // read guards held, with the broadcasts each still owes

  const START := World(map[], Net({}, {}, map[], []), map[], map[])

  datatype Step =
    // without the presence lock
    | Connect(id: Sid)
    | Close(id: Sid)
    | Authenticate(id: Sid, wallet: Wallet)
    | JoinAbort(join: nat)
    // write sections
    | JoinBegin(join: nat, id: Sid, room: RoomId, token: Option<string>, claim: Option<nat>)
    | JoinCommit(join: nat, totalSpaces: nat, displaced: seq<Sid>)
    | LeaveSpace(id: Sid, room: RoomId, claim: Option<nat>)
    | SetUserData(id: Sid, data: UserData, displaced: seq<Sid>)
    | Disconnect(id: Sid)
    // read sections
    | MoveBegin(guard: nat, id: Sid, position: seq<F32>, rotation: Option<F32>, clientSeq: Option<nat>)
    | Goto(id: Sid, position: seq<F32>, speed: Option<F32>, rotation: Option<F32>)
    | ChatBegin(guard: nat, id: Sid, text: string)
    | WalletBegin(guard: nat, id: Sid, room: RoomId, access: Access)
    | TickBegin(guard: nat, moved: seq<Sid>, dist: map<Sid, real>)
    | EmitNext(guard: nat)

  // ---------------------------------------------------------------- effects

  function LeaveEffects(id: Sid, room: Option<RoomId>): seq<Effect> {
    if room.None? then [] else [Leave(id, room.value), Emit(Others(room.value, id), Delete(id))]
  }

  /** First every displaced socket is told and detached, then each removal is announced. */
  function Goodbyes(room: RoomId, displaced: seq<Sid>): seq<Effect> {
    if displaced == [] then []
    else
      var id := displaced[|displaced| - 1];
      Goodbyes(room, displaced[..|displaced| - 1]) + [Emit(Only(id), PresenceSuperseded(room)), Leave(id, room)]
  }

  function Removals(room: RoomId, displaced: seq<Sid>): seq<Effect> {
    if displaced == [] then []
    else Removals(room, displaced[..|displaced| - 1]) + [Emit(Within(room), Delete(displaced[|displaced| - 1]))]
  }

  function EvictEffects(room: RoomId, displaced: seq<Sid>): seq<Effect> {
    Goodbyes(room, displaced) + Removals(room, displaced)
  }

  function ArriveEffects(id: Sid, room: RoomId, claim: Option<nat>, snapshot: map<Sid, Info>, info: Info): seq<Effect> {
    [Join(id, room), Emit(Only(id), ExistingClients(snapshot)), Emit(Only(id), PresenceReady(room, claim))]
    + if info.HasProfile() then [Emit(Others(room, id), NewUser(id, info))] else []
  }

  lemma ArrivalPerformed(net: Net, id: Sid, room: RoomId, claim: Option<nat>, snapshot: map<Sid, Info>, info: Info)
    ensures var shown := Perform(Perform(Perform(net, Join(id, room)), Emit(Only(id), ExistingClients(snapshot))),
                                 Emit(Only(id), PresenceReady(room, claim)));
            PerformAll(net, ArriveEffects(id, room, claim, snapshot, info))
            == if info.HasProfile() then Perform(shown, Emit(Others(room, id), NewUser(id, info))) else shown
  {
    hide Info.HasProfile, Perform;
    var j, s, r := Join(id, room), Emit(Only(id), ExistingClients(snapshot)), Emit(Only(id), PresenceReady(room, claim));
    assert [j, s, r] == [j, s] + [r];
    PerformConcat(net, [j, s], [r]);
    PerformTwo(net, j, s);
    PerformOne(PerformAll(net, [j, s]), r);
    if info.HasProfile() {
      var n := Emit(Others(room, id), NewUser(id, info));
      PerformConcat(net, [j, s, r], [n]);
      PerformOne(PerformAll(net, [j, s, r]), n);
    } else {
      assert [j, s, r] + [] == [j, s, r];
    }
  }

  function CommitEffects(cs: Clients, j: PendingJoin, displaced: seq<Sid>): seq<Effect>
    requires j.id in cs
  {
    LeaveEffects(j.id, if cs[j.id].room == Some(j.room) then None else cs[j.id].room)
    + EvictEffects(j.room, displaced)
    + ArriveEffects(j.id, j.room, j.claim, Snapshot(CommitRoom(cs, j.id, j.room, j.token), j.room), cs[j.id].info)
  }

  function ProfileEffects(room: RoomId, id: Sid, info: Info, displaced: seq<Sid>): seq<Effect> {
    EvictEffects(room, displaced) + [Emit(Others(room, id), NewUser(id, info))]
  }

  function WithoutWallet(info: Info): Info {
    info.(wallet := None)
  }

  function MoveEffect(cs: Clients, id: Sid, clientSeq: Option<nat>): Effect
    requires id in cs && cs[id].room.Some?
  {
    Emit(Within(cs[id].room.value), Moved(id, WithoutWallet(cs[id].info), cs[id].serverSeq, clientSeq))
  }

  function ChatEffect(cs: Clients, id: Sid, text: string): Effect
    requires id in cs && cs[id].room.Some?
  {
    Emit(Within(cs[id].room.value), ChatMessage(id, cs[id].info.nickname, CleanMessage(text), cs[id].info.wallet))
  }

  /** After a login in `room`: the client learns its access, the others its wallet. */
  function WalletEffects(cs: Clients, id: Sid, room: RoomId, access: Access): seq<Effect>
    requires id in cs
  {
    [Emit(Only(id), RoomAccess(room, access)), Emit(Others(room, id), NewUser(id, cs[id].info))]
  }

  function TickEffects(cs: Clients, moved: seq<Sid>): (effects: seq<Effect>)
    requires forall p :: p in moved ==> p in cs && cs[p].room.Some?
    ensures |effects| == |moved|
  {
    if moved == [] then []
    else TickEffects(cs, moved[..|moved| - 1]) + [MoveEffect(cs, moved[|moved| - 1], None)]
  }

  function OrZero(rotation: Option<F32>): F32 {
    if rotation.Some? then rotation.value else Fin(0.0)
  }

  // ------------------------------------------------------------------ guards

  /** No read guard is held, so a write section can run. */
  predicate WriteFree(w: World) {
    w.readers == map[]
  }

  function TakeGuard(w: World, guard: nat, owed: seq<Effect>): World {
    if owed == [] then w else w.(readers := w.readers[guard := owed])
  }

  /** `parse_room_id`: ids run from 1 to the total supply read from the chain. */
  predicate RoomExists(room: RoomId, totalSpaces: nat) {
    1 <= room <= totalSpaces
  }

  predicate Commits(w: World, join: nat, totalSpaces: nat) {
    && WriteFree(w) && join in w.joins
    && RoomExists(w.joins[join].room, totalSpaces)
    && MayCommit(w.clients, w.joins[join].id, w.joins[join].claim)
  }

  ghost predicate Possible(w: World, step: Step) {
    match step
    case Connect(id) => id !in w.net.inbox && id !in w.clients
    case Close(_) => true
    case Authenticate(id, _) => id in w.clients
    case JoinAbort(join) => join in w.joins
    case JoinBegin(join, id, _, _, claim) => WriteFree(w) && join !in w.joins && NotesClaim(w.clients, id, claim)
    case JoinCommit(join, total, displaced) =>
      && WriteFree(w) && join in w.joins && RoomExists(w.joins[join].room, total)
      && (Commits(w, join, total) ==>
            var j := w.joins[join];
            Enumerates(displaced, CommitDuplicates(w.clients, j.id, j.room, j.token)))
    case LeaveSpace(id, _, claim) => WriteFree(w) && NotesClaim(w.clients, id, claim)
    case SetUserData(id, data, displaced) =>
      WriteFree(w) && id in w.clients && Enumerates(displaced, ProfileDuplicates(w.clients, id, data))
    case Disconnect(id) => WriteFree(w) && id !in w.net.live
    case MoveBegin(guard, id, position, rotation, clientSeq) =>
      && guard !in w.readers
      && ToVec3(position).Some? && InWorldBounds(ToVec3(position).value)
      && OrZero(rotation).Fin?
      && AcceptsMove(w.clients, id, clientSeq)
    case Goto(id, position, _, _) =>
      && ToVec3(position).Some? && InWorldBounds(ToVec3(position).value)
      && RoomOf(w.clients, id).Some?
    case ChatBegin(guard, id, text) =>
      guard !in w.readers && RoomOf(w.clients, id).Some? && CleanMessage(text) != ""
    case WalletBegin(guard, id, room, _) => guard !in w.readers && RoomOf(w.clients, id) == Some(room)
    case TickBegin(guard, moved, dist) =>
      && guard !in w.readers
      && (forall p :: p in dist ==> 0.0 <= dist[p])
      && Measures(dist, w.clients) && Enumerates(moved, Movers(w.clients))
    case EmitNext(guard) => guard in w.readers && w.readers[guard] != []
  }

  /** The world after a possible step. */
  ghost function Next(w: World, step: Step): World
    requires Possible(w, step)
  {
    var cs := w.clients;
    match step
    case Connect(id) =>
      w.(clients := cs[id := NEW_RECORD],
         net := w.net.(live := w.net.live + {id}, inbox := w.net.inbox[id := []]))
    case Close(id) =>
      w.(net := w.net.(live := w.net.live - {id}, joined := set q | q in w.net.joined && q.0 != id))
    case Authenticate(id, wallet) => w.(clients := SetWalletOf(cs, id, wallet))
    case JoinAbort(join) => w.(joins := w.joins - {join})
    case JoinBegin(join, id, room, token, claim) =>
      w.(clients := TakeRoom(NoteClaim(cs, id, claim), id),
         net := PerformAll(w.net, LeaveEffects(id, cs[id].room)),
         joins := w.joins[join := PendingJoin(id, room, token, claim)])
    case JoinCommit(join, total, displaced) =>
      var j := w.joins[join];
      var w' := w.(joins := w.joins - {join});
      if Commits(w, join, total) then
        w'.(clients := CommitRoom(cs, j.id, j.room, j.token),
            net := PerformAll(w.net, CommitEffects(cs, j, displaced)))
      else w'
    case LeaveSpace(id, room, claim) =>
      var noted := NoteClaim(cs, id, claim);
      if ClearsRoom(noted, id, room, claim) then
        w.(clients := TakeRoom(noted, id), net := PerformAll(w.net, LeaveEffects(id, Some(room))))
      else w.(clients := noted)
    case SetUserData(id, data, displaced) =>
      var committed := CommitProfile(cs, id, data);
      w.(clients := committed,
         net := if cs[id].room.None? then w.net
                else PerformAll(w.net, ProfileEffects(cs[id].room.value, id, committed[id].info, displaced)))
    case Disconnect(id) =>
      w.(clients := cs - {id},
         net := if RoomOf(cs, id).None? then w.net
                else Perform(w.net, Emit(Within(cs[id].room.value), Delete(id))))
    case MoveBegin(guard, id, position, rotation, clientSeq) =>
      var moved := cs[id := MoveRecord(cs[id], ToVec3(position).value, OrZero(rotation), clientSeq)];
      TakeGuard(w.(clients := moved), guard, [MoveEffect(moved, id, clientSeq)])
    case Goto(id, position, speed, rotation) =>
      w.(clients := cs[id := GotoRecord(cs[id], ToVec3(position).value, ClampSpeed(speed), rotation)])
    case ChatBegin(guard, id, text) => TakeGuard(w, guard, [ChatEffect(cs, id, text)])
    case WalletBegin(guard, id, room, access) => TakeGuard(w, guard, WalletEffects(cs, id, room, access))
    case TickBegin(guard, moved, dist) =>
      var ticked := TickClients(cs, dist);
      TakeGuard(w.(clients := ticked), guard,
                TickEffects(ticked, moved))
    case EmitNext(guard) =>
      var owed := w.readers[guard];
      w.(net := Perform(w.net, owed[0]),
         readers := if |owed| == 1 then w.readers - {guard} else w.readers[guard := owed[1..]])
  }

  ghost function Apply(w: World, step: Step): World {
    if Possible(w, step) then Next(w, step) else w
  }

  /** The world after some steps from `w`. */
  ghost function Exec(w: World, steps: seq<Step>): World {
    if steps == [] then w else Apply(Exec(w, steps[..|steps| - 1]), steps[|steps| - 1])
  }

  /** The world after a whole run. */
  ghost function Run(steps: seq<Step>): World {
    Exec(START, steps)
  }
}
