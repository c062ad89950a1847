/** What an observer makes of the events it receives (src/bin/agent_bridge.rs), and why it stays true to
    the client table: each elementary change of the table, with the effects that announce it, keeps
    every observer's view and the order of every room's stream. */
module Views {
  import opened Common
  import opened Motion
  import opened Presence
  import opened Network

  /** A client as the observer keeps it: its own `ClientInfo` has no wallet and no height scale, and its
      default has an empty position. */
  datatype Known = Known(position: Option<Vec3>, rotation: real, avatar: string, nickname: string)

  const UNKNOWN := Known(None, 0.0, "", "")

  type View = map<Sid, Known>

  // A non-finite `f32` is written as `null` in JSON, which does not decode as an `f32`.
  predicate Decodes(info: Info) {
    info.rotation.Fin?
  }

  predicate SnapshotDecodes(clients: map<Sid, Info>) {
    forall p :: p in clients ==> Decodes(clients[p])
  }

  function Decode(info: Info): Known
    requires Decodes(info)
  {
    Known(Some(info.position), info.rotation.v, info.avatar, info.nickname)
  }

  function DecodeSnapshot(clients: map<Sid, Info>): View
    requires SnapshotDecodes(clients)
  {
    map p | p in clients :: Decode(clients[p])
  }

  /** The entry after a `move`: an undecodable rotation reads as 0, an empty name or avatar as unchanged. */
  function MovedEntry(known: Known, info: Info): Known {
    Known(Some(info.position),
          if info.rotation.Fin? then info.rotation.v else 0.0,
          if info.avatar != "" then info.avatar else known.avatar,
          if info.nickname != "" then info.nickname else known.nickname)
  }

  /** The observer's handlers for `existing clients`, `new user`, `delete` and `move`: a snapshot that does
      not decode is dropped, a `new user` that does not decode enters as the default. */
  function Fold(view: View, e: Event): View {
    match e
    case ExistingClients(clients) => if SnapshotDecodes(clients) then DecodeSnapshot(clients) else view
    case NewUser(id, info) => view[id := if Decodes(info) then Decode(info) else UNKNOWN]
    case Delete(id) => view - {id}
    case Moved(id, info, _, _) => view[id := MovedEntry(if id in view then view[id] else UNKNOWN, info)]
    case _ => view
  }

  /** What an observer made of all it received: its view; whether the newest snapshot was dropped; and
      whose newest announcement did not decode, with no `move` or snapshot since. */
  datatype Reading = Reading(view: View, lost: bool, blurred: set<Sid>)

  function Read(r: Reading, e: Event): Reading {
    var view := Fold(r.view, e);
    match e
    case ExistingClients(clients) =>
      if SnapshotDecodes(clients) then Reading(view, false, {}) else Reading(view, true, r.blurred)
    case NewUser(id, info) => Reading(view, r.lost, if Decodes(info) then r.blurred - {id} else r.blurred + {id})
    case Delete(id) => Reading(view, r.lost, r.blurred - {id})
    case Moved(id, _, _, _) => Reading(view, r.lost, r.blurred - {id})
    case _ => Reading(view, r.lost, r.blurred)
  }

  function ReadingOf(received: seq<Event>): Reading {
    if received == [] then Reading(map[], false, {})
    else Read(ReadingOf(received[..|received| - 1]), received[|received| - 1])
  }

  function ViewOf(received: seq<Event>): View {
    if received == [] then map[]
    else Fold(ViewOf(received[..|received| - 1]), received[|received| - 1])
  }

  lemma {:induction false} ReadingHasView(received: seq<Event>)
    ensures ReadingOf(received).view == ViewOf(received)
  {
    if received != [] {
      ReadingHasView(received[..|received| - 1]);
    }
  }

  lemma ReadingSnoc(received: seq<Event>, e: Event)
    ensures ReadingOf(received + [e]) == Read(ReadingOf(received), e)
  {
    assert (received + [e])[..|received|] == received;
  }

  const MAX_CHAT := 200

  class Observer {
    var clients: View
    var lastChat: seq<Event>

    constructor ()
      ensures clients == map[] && lastChat == []
    {
      clients, lastChat := map[], [];
    }

    /** A payload that does not decode is only logged. */
    method OnExistingClients(payload: map<Sid, Info>)
      modifies this
      ensures clients == Fold(old(clients), ExistingClients(payload)) && lastChat == old(lastChat)
    {
      var decoded: View := map[];
      var todo := payload.Keys;
      while todo != {}
        invariant todo <= payload.Keys && decoded.Keys == payload.Keys - todo
        invariant clients == old(clients) && lastChat == old(lastChat)
        invariant forall p :: p in decoded ==> Decodes(payload[p]) && decoded[p] == Decode(payload[p])
        decreases |todo|
      {
        var p :| p in todo;
        todo := todo - {p};
        if !payload[p].rotation.Fin? {
          return;
        }
        decoded := decoded[p := Decode(payload[p])];
      }
      assert decoded == DecodeSnapshot(payload);
      clients := decoded;
    }

    method OnNewUser(id: Sid, payload: Info)
      modifies this
      ensures clients == Fold(old(clients), NewUser(id, payload)) && lastChat == old(lastChat)
    {
      var entry := UNKNOWN;
      if payload.rotation.Fin? {
        entry := Known(Some(payload.position), payload.rotation.v, payload.avatar, payload.nickname);
      }
      clients := clients[id := entry];
    }

    method OnDelete(id: Sid)
      modifies this
      ensures clients == Fold(old(clients), Delete(id)) && lastChat == old(lastChat)
    {
      clients := clients - {id};
    }

    method OnMove(id: Sid, info: Info, serverSeq: nat, clientSeq: Option<nat>)
      modifies this
      ensures clients == Fold(old(clients), Moved(id, info, serverSeq, clientSeq)) && lastChat == old(lastChat)
    {
      var entry := if id in clients then clients[id] else UNKNOWN;
      entry := entry.(position := Some(info.position),
                      rotation := if info.rotation.Fin? then info.rotation.v else 0.0);
      if info.avatar != "" {
        entry := entry.(avatar := info.avatar);
      }
      if info.nickname != "" {
        entry := entry.(nickname := info.nickname);
      }
      clients := clients[id := entry];
    }

    /** Keeps the newest 200 messages. */
    method OnChat(e: Event)
      requires e.ChatMessage? && e.message != ""
      modifies this
      ensures clients == Fold(old(clients), e)
      ensures var all := old(lastChat) + [e];
              lastChat == if |all| <= MAX_CHAT then all else all[|all| - MAX_CHAT..]
    {
      lastChat := lastChat + [e];
      ghost var all := lastChat;
      while |lastChat| > MAX_CHAT
        invariant clients == old(clients)
        invariant |lastChat| <= |all| && lastChat == all[|all| - |lastChat|..]
        invariant |all| <= MAX_CHAT ==> lastChat == all
        invariant |all| > MAX_CHAT ==> |lastChat| >= MAX_CHAT
      {
        lastChat := lastChat[1..];
      }
    }
  }

  // ----------------------------------------------------------- true to the table

  ghost predicate SameProfile(a: Info, b: Info) {
    a.avatar == b.avatar && a.nickname == b.nickname
  }

  /** What the observer shows of a client with presence payload `info`: its name and avatar, or neither
      when the newest announcement did not decode. */
  ghost predicate Shows(known: Known, info: Info, blurred: bool) {
    && known.avatar == (if blurred then "" else info.avatar)
    && known.nickname == (if blurred then "" else info.nickname)
  }

  /** What a client `o` in `room` must know once its snapshot was read: itself, every member with a
      profile, nobody from outside, and everybody else under the current name and avatar, except those
      whose announcement did not decode. */
  ghost predicate Sees(cs: Clients, o: Sid, room: RoomId, r: Reading) {
    !r.lost ==>
      && o in r.view
      && (forall p :: p in r.view ==> p in cs && cs[p].room == Some(room))
      && (forall p :: p in cs && cs[p].room == Some(room) && cs[p].info.HasProfile() ==> p in r.view)
      && (forall p :: p in r.view && p != o ==> Shows(r.view[p], cs[p].info, p in r.blurred))
  }

  /** Adapter rooms of a live socket are exactly its record's room. */
  ghost predicate MembershipAgrees(cs: Clients, net: Net) {
    && (forall o :: o in net.live ==> o in cs)
    && (forall o :: o in cs ==> o in net.inbox)
    && (forall q :: q in net.joined ==> q.0 in net.inbox)
    && (forall o, r: RoomId :: o in net.live ==> ((o, r) in net.joined <==> cs[o].room == Some(r)))
  }

  ghost predicate ViewsAgree(cs: Clients, net: Net) {
    && MembershipAgrees(cs, net)
    && forall o :: o in net.live && cs[o].room.Some? ==> Sees(cs, o, cs[o].room.value, ReadingOf(net.inbox[o]))
  }

  // -------------------------------------------------------------- room streams

  /** Who is in `room` by its stream alone: joins add, `delete` broadcasts remove. */
  function Present(log: seq<Effect>, room: RoomId): set<Sid> {
    if log == [] then {}
    else
      var before := Present(log[..|log| - 1], room);
      match log[|log| - 1]
      case Join(p, r) => if r == room then before + {p} else before
      case Emit(Within(r), Delete(p)) => if r == room then before - {p} else before
      case Emit(Others(r, _), Delete(p)) => if r == room then before - {p} else before
      case _ => before
  }

  /** `move`, `chat message` and `new user` broadcasts: their room and the client they are about. */
  function Activity(e: Effect): Option<(RoomId, Sid)> {
    match e
    case Emit(Within(r), Moved(p, _, _, _)) => Some((r, p))
    case Emit(Within(r), ChatMessage(p, _, _, _)) => Some((r, p))
    case Emit(Within(r), NewUser(p, _)) => Some((r, p))
    case Emit(Others(r, _), Moved(p, _, _, _)) => Some((r, p))
    case Emit(Others(r, _), ChatMessage(p, _, _, _)) => Some((r, p))
    case Emit(Others(r, _), NewUser(p, _)) => Some((r, p))
    case _ => None
  }

  /** Every activity is about a client that is present at that moment. */
  ghost predicate Orderly(log: seq<Effect>) {
    log == [] ||
    var n := |log| - 1;
    && Orderly(log[..n])
    && (Activity(log[n]).Some? ==> Activity(log[n]).value.1 in Present(log[..n], Activity(log[n]).value.0))
  }

  ghost predicate LogAgrees(cs: Clients, log: seq<Effect>) {
    && Orderly(log)
    && forall p, r: RoomId :: p in Present(log, r) <==> RoomOf(cs, p) == Some(r)
  }

  /** Neither a join, nor a removal, nor an activity. */
  predicate Silent(e: Effect) {
    e.Leave? || (e.Emit? && e.dest.Only?)
  }

  lemma SilentLog(cs: Clients, log: seq<Effect>, e: Effect)
    requires LogAgrees(cs, log) && Silent(e)
    ensures LogAgrees(cs, log + [e])
  {
    assert (log + [e])[..|log|] == log;
  }

  lemma ActivityLog(cs: Clients, log: seq<Effect>, e: Effect)
    requires LogAgrees(cs, log)
    requires Activity(e).Some? && RoomOf(cs, Activity(e).value.1) == Some(Activity(e).value.0)
    ensures LogAgrees(cs, log + [e])
  {
    assert (log + [e])[..|log|] == log;
  }

  lemma RemovalLog(cs: Clients, cs': Clients, log: seq<Effect>, id: Sid, room: RoomId, dest: Dest)
    requires LogAgrees(cs, log) && RoomOf(cs, id) == Some(room)
    requires dest == Within(room) || dest == Others(room, id)
    requires forall p :: RoomOf(cs', p) == if p == id then None else RoomOf(cs, p)
    ensures LogAgrees(cs', log + [Emit(dest, Delete(id))])
  {
    assert (log + [Emit(dest, Delete(id))])[..|log|] == log;
  }

  lemma JoinLog(cs: Clients, cs': Clients, log: seq<Effect>, id: Sid, room: RoomId)
    requires LogAgrees(cs, log) && (RoomOf(cs, id).None? || RoomOf(cs, id) == Some(room))
    requires forall p :: RoomOf(cs', p) == if p == id then Some(room) else RoomOf(cs, p)
    ensures LogAgrees(cs', log + [Join(id, room)])
  {
    assert (log + [Join(id, room)])[..|log|] == log;
  }

  lemma SameRoomsLog(cs: Clients, cs': Clients, log: seq<Effect>)
    requires LogAgrees(cs, log) && forall p :: RoomOf(cs', p) == RoomOf(cs, p)
    ensures LogAgrees(cs', log)
  {
  }

  ghost predicate Agrees(cs: Clients, net: Net) {
    ViewsAgree(cs, net) && LogAgrees(cs, net.log)
  }

  // ---------------------------------------------------------- elementary changes

  /** Nothing an observer could know has changed. */
  ghost predicate SamePresence(cs: Clients, cs': Clients) {
    && cs.Keys == cs'.Keys
    && forall p :: p in cs ==> cs'[p].room == cs[p].room && SameProfile(cs'[p].info, cs[p].info)
  }

  lemma KeepsAgreement(cs: Clients, cs': Clients, net: Net)
    requires Agrees(cs, net) && SamePresence(cs, cs')
    ensures Agrees(cs', net)
  {
    hide Present, Orderly, ReadingOf, Info.HasProfile;
    forall o | o in net.live && cs'[o].room.Some?
      ensures Sees(cs', o, cs'[o].room.value, ReadingOf(net.inbox[o]))
    {
      assert Sees(cs, o, cs[o].room.value, ReadingOf(net.inbox[o]));
      assert forall p :: p in cs ==> (cs[p].info.HasProfile() <==> cs'[p].info.HasProfile()) by {
        ProfilesMatch(cs, cs');
      }
    }
    SameRoomsLog(cs, cs', net.log);
  }

  lemma ProfilesMatch(cs: Clients, cs': Clients)
    requires SamePresence(cs, cs')
    ensures forall p :: p in cs ==> (cs[p].info.HasProfile() <==> cs'[p].info.HasProfile())
  {
  }

  /** A client in no room may change in any way: no view holds it. */
  lemma OutsiderChanges(cs: Clients, id: Sid, rec: ClientRecord, net: Net)
    requires Agrees(cs, net) && rec.room.None? && id in cs && cs[id].room.None?
    ensures Agrees(cs[id := rec], net)
  {
    hide Present, Orderly, ReadingOf, Info.HasProfile;
    var cs' := cs[id := rec];
    forall o | o in net.live && cs'[o].room.Some?
      ensures Sees(cs', o, cs'[o].room.value, ReadingOf(net.inbox[o]))
    {
      assert Sees(cs, o, cs[o].room.value, ReadingOf(net.inbox[o]));
    }
    SameRoomsLog(cs, cs', net.log);
  }

  /** A new socket: its record is in no room and it has received nothing. */
  lemma Opens(cs: Clients, net: Net, id: Sid, rec: ClientRecord)
    requires Agrees(cs, net) && rec.room.None? && id !in cs && id !in net.inbox
    ensures Agrees(cs[id := rec], net.(live := net.live + {id}, inbox := net.inbox[id := []]))
  {
    hide Present, Orderly, ReadingOf, Info.HasProfile;
    var cs' := cs[id := rec];
    var net' := net.(live := net.live + {id}, inbox := net.inbox[id := []]);
    forall o | o in net'.live && cs'[o].room.Some?
      ensures Sees(cs', o, cs'[o].room.value, ReadingOf(net'.inbox[o]))
    {
      assert Sees(cs, o, cs[o].room.value, ReadingOf(net.inbox[o]));
    }
    SameRoomsLog(cs, cs', net.log);
  }

  lemma OutsiderVanishes(cs: Clients, id: Sid, net: Net)
    requires Agrees(cs, net) && RoomOf(cs, id).None? && id !in net.live
    ensures Agrees(cs - {id}, net)
  {
    hide Present, Orderly, ReadingOf, Info.HasProfile;
    var cs' := cs - {id};
    forall o | o in net.live && cs'[o].room.Some?
      ensures Sees(cs', o, cs'[o].room.value, ReadingOf(net.inbox[o]))
    {
      assert Sees(cs, o, cs[o].room.value, ReadingOf(net.inbox[o]));
    }
    SameRoomsLog(cs, cs', net.log);
  }

  /** Events that change no view: told to anybody, at any time. */
  lemma Tells(cs: Clients, net: Net, id: Sid, e: Event)
    requires Agrees(cs, net) && (e.PresenceSuperseded? || e.PresenceReady? || e.RoomAccess?)
    ensures Agrees(cs, Perform(net, Emit(Only(id), e)))
  {
    hide Present, Orderly, ReadingOf, Sees, LogAgrees;
    forall o | o in net.live && cs[o].room.Some?
      ensures Sees(cs, o, cs[o].room.value, ReadingOf(Perform(net, Emit(Only(id), e)).inbox[o]))
    {
      ReadingSnoc(net.inbox[o], e);
      assert Sees(cs, o, cs[o].room.value, ReadingOf(net.inbox[o]));
    }
    SilentLog(cs, net.log, Emit(Only(id), e));
  }

  /** A removal: the client leaves the adapter room and everybody who stays is told. */
  lemma Detaches(cs: Clients, net: Net, id: Sid, rec: ClientRecord, room: RoomId, dest: Dest)
    requires Agrees(cs, net) && RoomOf(cs, id) == Some(room) && rec.room.None?
    requires dest == Within(room) || dest == Others(room, id)
    ensures Agrees(cs[id := rec], Perform(Perform(net, Leave(id, room)), Emit(dest, Delete(id))))
  {
    hide Present, Orderly, ReadingOf, Info.HasProfile, LogAgrees;
    var cs' := cs[id := rec];
    var mid := Perform(net, Leave(id, room));
    var net' := Perform(mid, Emit(dest, Delete(id)));
    forall o | o in net'.live && cs'[o].room.Some?
      ensures Sees(cs', o, cs'[o].room.value, ReadingOf(net'.inbox[o]))
    {
      ReadingSnoc(net.inbox[o], Delete(id));
      assert Sees(cs, o, cs[o].room.value, ReadingOf(net.inbox[o]));
      assert Hears(mid, dest, o) <==> cs[o].room == Some(room);
    }
    SilentLog(cs, net.log, Leave(id, room));
    RemovalLog(cs, cs', mid.log, id, room, dest);
  }

  /** The same for a socket that is already closed and whose record is dropped. */
  lemma Vanishes(cs: Clients, net: Net, id: Sid, room: RoomId)
    requires Agrees(cs, net) && RoomOf(cs, id) == Some(room) && id !in net.live
    ensures Agrees(cs - {id}, Perform(net, Emit(Within(room), Delete(id))))
  {
    hide Present, Orderly, ReadingOf, Info.HasProfile, LogAgrees;
    var cs' := cs - {id};
    var net' := Perform(net, Emit(Within(room), Delete(id)));
    forall o | o in net'.live && cs'[o].room.Some?
      ensures Sees(cs', o, cs'[o].room.value, ReadingOf(net'.inbox[o]))
    {
      ReadingSnoc(net.inbox[o], Delete(id));
      assert Sees(cs, o, cs[o].room.value, ReadingOf(net.inbox[o]));
      assert Hears(net, Within(room), o) <==> cs[o].room == Some(room);
    }
    RemovalLog(cs, cs', net.log, id, room, Within(room));
  }

  /** A member's `new user` broadcast, carrying its (possibly new) profile. */
  lemma Announces(cs: Clients, net: Net, id: Sid, rec: ClientRecord, room: RoomId, info: Info)
    requires Agrees(cs, net) && RoomOf(cs, id) == Some(room) && rec.room == Some(room) && SameProfile(info, rec.info)
    ensures Agrees(cs[id := rec], Perform(net, Emit(Others(room, id), NewUser(id, info))))
  {
    hide Present, Orderly, ReadingOf, Info.HasProfile, LogAgrees;
    var cs' := cs[id := rec];
    var e := NewUser(id, info);
    var net' := Perform(net, Emit(Others(room, id), e));
    forall o | o in net'.live && cs'[o].room.Some?
      ensures Sees(cs', o, cs'[o].room.value, ReadingOf(net'.inbox[o]))
    {
      ReadingSnoc(net.inbox[o], e);
      assert Sees(cs, o, cs[o].room.value, ReadingOf(net.inbox[o]));
      assert Hears(net, Others(room, id), o) <==> cs[o].room == Some(room) && o != id;
    }
    SameRoomsLog(cs, cs', net.log);
    ActivityLog(cs', net.log, Emit(Others(room, id), e));
  }

  /** A member's `move` or `chat message` broadcast. */
  lemma Broadcasts(cs: Clients, net: Net, id: Sid, room: RoomId, e: Event)
    requires Agrees(cs, net) && RoomOf(cs, id) == Some(room)
    requires e.Moved? || e.ChatMessage?
    requires e.id == id && (e.Moved? ==> SameProfile(e.info, cs[id].info))
    ensures Agrees(cs, Perform(net, Emit(Within(room), e)))
  {
    hide Present, Orderly, ReadingOf, LogAgrees;
    var net' := Perform(net, Emit(Within(room), e));
    forall o | o in net'.live && cs[o].room.Some?
      ensures Sees(cs, o, cs[o].room.value, ReadingOf(net'.inbox[o]))
    {
      ReadingSnoc(net.inbox[o], e);
      assert Sees(cs, o, cs[o].room.value, ReadingOf(net.inbox[o]));
      assert Hears(net, Within(room), o) <==> cs[o].room == Some(room);
    }
    ActivityLog(cs, net.log, Emit(Within(room), e));
  }

  /** Adapter join, snapshot of the table as it now is, and confirmation. */
  function Welcome(net: Net, id: Sid, room: RoomId, claim: Option<nat>, snapshot: map<Sid, Info>): Net {
    Perform(Perform(Perform(net, Join(id, room)),
                    Emit(Only(id), ExistingClients(snapshot))),
            Emit(Only(id), PresenceReady(room, claim)))
  }

  lemma HearsRoom(cs: Clients, net: Net, dest: Dest, room: RoomId, o: Sid)
    requires MembershipAgrees(cs, net) && o in net.live
    requires dest == Within(room) || (dest.Others? && dest.room == room)
    ensures Hears(net, dest, o) <==> cs[o].room == Some(room) && (dest.Others? ==> o != dest.sender)
  {
  }

  lemma WelcomeMembership(cs: Clients, net: Net, id: Sid, rec: ClientRecord, room: RoomId, claim: Option<nat>,
                          snapshot: map<Sid, Info>)
    requires MembershipAgrees(cs, net) && id in cs && rec.room == Some(room)
    requires cs[id].room.None? || cs[id].room == Some(room)
    ensures MembershipAgrees(cs[id := rec], Welcome(net, id, room, claim, snapshot))
  {
  }

  lemma EmitMembership(cs: Clients, net: Net, dest: Dest, e: Event)
    requires MembershipAgrees(cs, net)
    ensures MembershipAgrees(cs, Perform(net, Emit(dest, e)))
  {
  }

  lemma WelcomeLog(cs: Clients, net: Net, id: Sid, rec: ClientRecord, room: RoomId, claim: Option<nat>,
                   snapshot: map<Sid, Info>)
    requires LogAgrees(cs, net.log) && id in cs && rec.room == Some(room)
    requires cs[id].room.None? || cs[id].room == Some(room)
    ensures LogAgrees(cs[id := rec], Welcome(net, id, room, claim, snapshot).log)
  {
    hide LogAgrees;
    var cs' := cs[id := rec];
    JoinLog(cs, cs', net.log, id, room);
    SilentLog(cs', net.log + [Join(id, room)], Emit(Only(id), ExistingClients(snapshot)));
    SilentLog(cs', net.log + [Join(id, room)] + [Emit(Only(id), ExistingClients(snapshot))],
              Emit(Only(id), PresenceReady(room, claim)));
  }

  /** What everybody knows after the welcome: the newcomer all of it, the others all but the newcomer. */
  lemma WelcomeViews(cs: Clients, net: Net, id: Sid, rec: ClientRecord, room: RoomId, claim: Option<nat>, o: Sid)
    requires ViewsAgree(cs, net) && id in cs && rec.room == Some(room) && SameProfile(rec.info, cs[id].info)
    requires cs[id].room.None? || cs[id].room == Some(room)
    requires o in net.live && cs[id := rec][o].room.Some?
    ensures var cs' := cs[id := rec];
            var r := ReadingOf(Welcome(net, id, room, claim, Snapshot(cs', room)).inbox[o]);
            && (o == id ==> r == Read(ReadingOf(net.inbox[o]), ExistingClients(Snapshot(cs', room))))
            && (o != id ==> cs[o].room.Some? && Sees(cs, o, cs[o].room.value, r))
  {
    hide ReadingOf, Sees, Snapshot;
    var snapshot := Snapshot(cs[id := rec], room);
    if o == id {
      ReadingSnoc(net.inbox[o], ExistingClients(snapshot));
      ReadingSnoc(net.inbox[o] + [ExistingClients(snapshot)], PresenceReady(room, claim));
    }
  }

  /** Entering a room without a profile: nobody needs to be told. */
  lemma ArrivesUnknown(cs: Clients, net: Net, id: Sid, rec: ClientRecord, room: RoomId, claim: Option<nat>)
    requires Agrees(cs, net) && id in cs && rec.room == Some(room) && SameProfile(rec.info, cs[id].info)
    requires cs[id].room.None? || cs[id].room == Some(room)
    requires !rec.info.HasProfile()
    ensures Agrees(cs[id := rec], Welcome(net, id, room, claim, Snapshot(cs[id := rec], room)))
  {
    hide Present, Orderly, ReadingOf, LogAgrees, Welcome;
    var cs' := cs[id := rec];
    var net' := Welcome(net, id, room, claim, Snapshot(cs', room));
    WelcomeMembership(cs, net, id, rec, room, claim, Snapshot(cs', room));
    assert net'.live == net.live by {
      WelcomeAudience(net, id, room, claim, Snapshot(cs', room));
    }
    forall o | o in net'.live && cs'[o].room.Some?
      ensures Sees(cs', o, cs'[o].room.value, ReadingOf(net'.inbox[o]))
    {
      WelcomeViews(cs, net, id, rec, room, claim, o);
    }
    WelcomeLog(cs, net, id, rec, room, claim, Snapshot(cs', room));
  }

  lemma WelcomeAudience(net: Net, id: Sid, room: RoomId, claim: Option<nat>, snapshot: map<Sid, Info>)
    ensures Welcome(net, id, room, claim, snapshot).live == net.live
  {
  }

  /** What everybody knows once the newcomer is announced as well. */
  lemma AnnouncedViews(cs: Clients, net: Net, id: Sid, rec: ClientRecord, room: RoomId, claim: Option<nat>, o: Sid)
    requires ViewsAgree(cs, net) && id in cs && rec.room == Some(room) && SameProfile(rec.info, cs[id].info)
    requires cs[id].room.None? || cs[id].room == Some(room)
    requires o in net.live && cs[id := rec][o].room.Some?
    ensures var cs' := cs[id := rec];
            var net' := Perform(Welcome(net, id, room, claim, Snapshot(cs', room)),
                                Emit(Others(room, id), NewUser(id, rec.info)));
            o in net'.inbox && Sees(cs', o, cs'[o].room.value, ReadingOf(net'.inbox[o]))
  {
    hide ReadingOf, Info.HasProfile, Welcome, Hears, ViewsAgree, MembershipAgrees;
    var cs' := cs[id := rec];
    var mid := Welcome(net, id, room, claim, Snapshot(cs', room));
    AgreeingMembership(cs, net);
    WelcomeMembership(cs, net, id, rec, room, claim, Snapshot(cs', room));
    WelcomeAudience(net, id, room, claim, Snapshot(cs', room));
    WelcomeViews(cs, net, id, rec, room, claim, o);
    LiveIsKnown(cs', mid, o);
    ReadingSnoc(mid.inbox[o], NewUser(id, rec.info));
    HearsRoom(cs', mid, Others(room, id), room, o);
  }

  lemma AgreeingMembership(cs: Clients, net: Net)
    requires ViewsAgree(cs, net)
    ensures MembershipAgrees(cs, net)
  {
  }

  lemma LiveIsKnown(cs: Clients, net: Net, o: Sid)
    requires MembershipAgrees(cs, net) && o in net.live
    ensures o in cs && o in net.inbox
  {
  }

  /** Entering a room with a profile: the newcomer gets the snapshot, the others the newcomer. */
  lemma ArrivesKnown(cs: Clients, net: Net, id: Sid, rec: ClientRecord, room: RoomId, claim: Option<nat>)
    requires Agrees(cs, net) && id in cs && rec.room == Some(room) && SameProfile(rec.info, cs[id].info)
    requires cs[id].room.None? || cs[id].room == Some(room)
    ensures Agrees(cs[id := rec], Perform(Welcome(net, id, room, claim, Snapshot(cs[id := rec], room)),
                                          Emit(Others(room, id), NewUser(id, rec.info))))
  {
    hide ReadingOf, LogAgrees, Info.HasProfile, Welcome, Hears, Sees, MembershipAgrees, Snapshot;
    var cs' := cs[id := rec];
    var mid := Welcome(net, id, room, claim, Snapshot(cs', room));
    var e := NewUser(id, rec.info);
    var net' := Perform(mid, Emit(Others(room, id), e));
    WelcomeMembership(cs, net, id, rec, room, claim, Snapshot(cs', room));
    EmitMembership(cs', mid, Others(room, id), e);
    WelcomeAudience(net, id, room, claim, Snapshot(cs', room));
    forall o | o in net'.live && cs'[o].room.Some?
      ensures Sees(cs', o, cs'[o].room.value, ReadingOf(net'.inbox[o]))
    {
      AnnouncedViews(cs, net, id, rec, room, claim, o);
    }
    WelcomeLog(cs, net, id, rec, room, claim, Snapshot(cs', room));
    ActivityLog(cs', mid.log, Emit(Others(room, id), e));
  }
}
