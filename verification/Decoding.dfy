/** When an observer can read what it is told. `on_goto` lets a non-finite rotation into the table; in
    JSON it becomes `null`, which the observer's `f32` does not accept: a snapshot that holds one is
    dropped whole, an announcement enters as a blank entry. Here is exactly when views converge. */
module Decoding {
  import opened Common
  import opened Motion
  import opened Presence
  import opened Network
  import opened Views
  import opened Protocol
  import opened Convergence
  import opened Movement
  import Navigation

  // -------------------------------------------------------- finite rotations

  lemma FinitePayloadsDecode(r: Reading, e: Event)
    requires EventInWorld(e, true) && !r.lost && r.blurred == {}
    ensures !Read(r, e).lost && Read(r, e).blurred == {}
  {
  }

  lemma {:induction false} EverythingDecodes(received: seq<Event>)
    requires HeardInWorld(received, true)
    ensures !ReadingOf(received).lost && ReadingOf(received).blurred == {}
  {
    hide Read, EventInWorld;
    if received != [] {
      var n := |received| - 1;
      EverythingDecodes(received[..n]);
      FinitePayloadsDecode(ReadingOf(received[..n]), received[n]);
    }
  }

  /** Views converge, with no ghosts, in every run whose `goto` events carry a finite rotation or none: for
      every live client `o` in a room, the fold of the events it received holds `o` itself, every member
      with a nickname or avatar, nobody outside the room, and shows everybody else under the name and
      avatar of the client table. */
  lemma ViewsConverge(steps: seq<Step>, o: Sid, room: RoomId)
    requires FiniteGotos(steps)
    requires o in Run(steps).net.live && RoomOf(Run(steps).clients, o) == Some(room)
    ensures o in Run(steps).net.inbox && Converged(Run(steps), o, room, ViewOf(Run(steps).net.inbox[o]))
  {
    hide Run, ReadingOf, EventInWorld, TableInWorld;
    ViewsConvergeExactly(steps, o, room);
    RunStaysInWorld(steps);
    EverythingDecodes(Run(steps).net.inbox[o]);
  }

  // ---------------------------------------------------------- the last word

  /** The event says something about `p`: a snapshot that decodes speaks of everybody. */
  ghost predicate About(e: Event, p: Sid) {
    match e
    case ExistingClients(clients) => forall q :: q in clients ==> clients[q].rotation.Fin?
    case NewUser(id, _) => id == p
    case Delete(id) => id == p
    case Moved(id, _, _, _) => id == p
    case _ => false
  }

  /** What an observer that knew `before` knows of `p` after an event about it. */
  ghost predicate KnownAfter(before: View, e: Event, p: Sid, after: View)
    requires About(e, p)
  {
    match e
    case ExistingClients(clients) =>
      (p in after <==> p in clients) && (p in clients ==> after[p] == Plain(clients[p]))
    case NewUser(_, info) =>
      p in after && after[p] == if info.rotation.Fin? then Plain(info) else Known(None, 0.0, "", "")
    case Delete(_) => p !in after
    case Moved(_, info, _, _) =>
      && p in after && after[p].position == Some(info.position)
      && after[p].rotation == (match info.rotation case Fin(r) => r case _ => 0.0)
      && (info.avatar != "" ==> after[p].avatar == info.avatar)
      && (info.nickname != "" ==> after[p].nickname == info.nickname)
      && (info.avatar == "" ==> after[p].avatar == if p in before then before[p].avatar else "")
      && (info.nickname == "" ==> after[p].nickname == if p in before then before[p].nickname else "")
    case _ => false
  }

  function Plain(info: Info): Known {
    Known(Some(info.position), match info.rotation case Fin(r) => r case _ => 0.0, info.avatar, info.nickname)
  }

  lemma SaysOfItsOwn(view: View, e: Event, p: Sid)
    requires About(e, p)
    ensures KnownAfter(view, e, p, Fold(view, e))
  {
  }

  lemma LeavesOthers(view: View, e: Event, p: Sid)
    requires !About(e, p)
    ensures p in Fold(view, e) <==> p in view
    ensures p in view ==> Fold(view, e)[p] == view[p]
  {
  }

  /** The last word counts: what a view shows of `p`, its place and turn included, is what the last event
      about `p` said, whatever came since about others. */
  lemma {:induction false} LastWordCounts(received: seq<Event>, e: Event, later: seq<Event>, p: Sid)
    requires About(e, p) && forall i :: 0 <= i < |later| ==> !About(later[i], p)
    ensures KnownAfter(ViewOf(received), e, p, ViewOf(received + [e] + later))
    decreases |later|
  {
    hide Fold, About;
    if later == [] {
      assert received + [e] + later == received + [e];
      assert (received + [e])[..|received|] == received;
      SaysOfItsOwn(ViewOf(received), e, p);
    } else {
      var n := |later| - 1;
      var all := received + [e] + later;
      assert all[..|all| - 1] == received + [e] + later[..n];
      LastWordCounts(received, e, later[..n], p);
      LeavesOthers(ViewOf(received + [e] + later[..n]), later[n], p);
    }
  }

  // ------------------------------------------------------ what a joiner hears

  /** Nothing that a client outside `room` hears of, apart from what is sent to it alone. */
  ghost predicate Unheard(e: Effect, o: Sid, room: RoomId) {
    match e
    case Leave(_, _) => true
    case Join(_, _) => false
    case Emit(Within(r), _) => r == room
    case Emit(Others(_, sender), _) => sender == o
    case Emit(Only(id), _) => id != o
  }

  /** Nothing but removals. */
  ghost predicate Removes(e: Effect) {
    match e
    case Leave(_, _) => true
    case Join(_, _) => false
    case Emit(_, event) => event.Delete? || event.PresenceSuperseded?
  }

  lemma {:induction false} NothingHeard(net: Net, es: seq<Effect>, o: Sid, room: RoomId)
    requires o in net.inbox && (o, room) !in net.joined && forall i :: 0 <= i < |es| ==> Unheard(es[i], o, room)
    ensures var net' := PerformAll(net, es);
            o in net'.inbox && net'.inbox[o] == net.inbox[o] && (o, room) !in net'.joined && net'.live == net.live
  {
    if es != [] {
      NothingHeard(net, es[..|es| - 1], o, room);
    }
  }

  /** Entries may be gone, but none is new or changed. */
  ghost predicate Shrunk(small: View, large: View) {
    forall p :: p in small ==> p in large && small[p] == large[p]
  }

  lemma {:induction false} NothingLearned(net: Net, es: seq<Effect>, o: Sid)
    requires o in net.inbox && forall i :: 0 <= i < |es| ==> Removes(es[i])
    ensures var net' := PerformAll(net, es);
            && o in net'.inbox && net'.live == net.live
            && Shrunk(ReadingOf(net'.inbox[o]).view, ReadingOf(net.inbox[o]).view)
            && ReadingOf(net'.inbox[o]).lost == ReadingOf(net.inbox[o]).lost
  {
    hide ReadingOf;
    if es != [] {
      var n := |es| - 1;
      NothingLearned(net, es[..n], o);
      if es[n].Emit? {
        ReadingSnoc(PerformAll(net, es[..n]).inbox[o], es[n].event);
      }
    }
  }

  lemma {:induction false} EvictionIsQuiet(room: RoomId, displaced: seq<Sid>, o: Sid)
    requires o !in displaced
    ensures forall e :: e in Goodbyes(room, displaced) ==> Removes(e) && Unheard(e, o, room)
    ensures forall e :: e in Removals(room, displaced) ==> Removes(e) && Unheard(e, o, room)
  {
    if displaced != [] {
      EvictionIsQuiet(room, displaced[..|displaced| - 1], o);
    }
  }

  lemma LeavingIsQuiet(id: Sid, room: Option<RoomId>, target: RoomId)
    ensures forall e :: e in LeaveEffects(id, room) ==> Removes(e) && Unheard(e, id, target)
  {
  }

  lemma MakingRoomIsQuiet(id: Sid, previous: Option<RoomId>, room: RoomId, displaced: seq<Sid>)
    requires id !in displaced
    ensures var es := LeaveEffects(id, previous) + EvictEffects(room, displaced);
            forall i :: 0 <= i < |es| ==> Removes(es[i]) && Unheard(es[i], id, room)
  {
    hide Removes, Unheard, LeaveEffects, Goodbyes, Removals;
    LeavingIsQuiet(id, previous, room);
    EvictionIsQuiet(room, displaced, id);
    var es := LeaveEffects(id, previous) + EvictEffects(room, displaced);
    forall i | 0 <= i < |es| ensures Removes(es[i]) && Unheard(es[i], id, room) {
      assert es[i] in LeaveEffects(id, previous) || es[i] in Goodbyes(room, displaced)
          || es[i] in Removals(room, displaced);
    }
  }

  lemma ArrivalHeard(net: Net, id: Sid, room: RoomId, claim: Option<nat>, snapshot: map<Sid, Info>, info: Info)
    requires id in net.live && id in net.inbox
    ensures var net' := PerformAll(net, ArriveEffects(id, room, claim, snapshot, info));
            && id in net'.live && id in net'.inbox
            && net'.inbox[id] == net.inbox[id] + [ExistingClients(snapshot)] + [PresenceReady(room, claim)]
  {
    hide Info.HasProfile, PerformAll, ArriveEffects;
    ArrivalPerformed(net, id, room, claim, snapshot, info);
  }

  // ------------------------------------------------------------ the join step

  predicate AllFinite(cs: Clients, room: RoomId) {
    forall p :: p in cs && cs[p].room == Some(room) ==> cs[p].info.rotation.Fin?
  }

  lemma SnapshotDecodesExactly(cs: Clients, room: RoomId)
    ensures SnapshotDecodes(Snapshot(cs, room)) <==> AllFinite(cs, room)
  {
    var snapshot := Snapshot(cs, room);
    if SnapshotDecodes(snapshot) {
      forall p | p in cs && cs[p].room == Some(room) ensures cs[p].info.rotation.Fin? {
        assert p in snapshot;
      }
    }
  }

  /** What the committing socket has read when the join is over. */
  lemma JoinerReads(w: World, j: PendingJoin, displaced: seq<Sid>)
    requires Consistent(w) && j.id in w.clients && j.id in w.net.live
    requires Enumerates(displaced, CommitDuplicates(w.clients, j.id, j.room, j.token))
    ensures var snapshot := Snapshot(CommitRoom(w.clients, j.id, j.room, j.token), j.room);
            var net' := PerformAll(w.net, CommitEffects(w.clients, j, displaced));
            && j.id in w.net.inbox && j.id in net'.live && j.id in net'.inbox
            && var before, after := ReadingOf(w.net.inbox[j.id]), ReadingOf(net'.inbox[j.id]);
               if SnapshotDecodes(snapshot) then after == Reading(DecodeSnapshot(snapshot), false, {})
               else
                 && Shrunk(after.view, before.view)
                 && (w.clients[j.id].room != Some(j.room) ==> after.view == before.view)
  {
    hide ReadingOf, ViewsAgree, LogAgrees, OnePresence, GuardsOwe, PerformAll, ArriveEffects, EvictEffects,
         LeaveEffects, Snapshot, CommitRoom, SnapshotDecodes;
    JoinerIsKnown(w, j.id, j.room);
    var previous := if w.clients[j.id].room == Some(j.room) then None else w.clients[j.id].room;
    var quiet := LeaveEffects(j.id, previous) + EvictEffects(j.room, displaced);
    var snapshot := Snapshot(CommitRoom(w.clients, j.id, j.room, j.token), j.room);
    MakingRoomIsQuiet(j.id, previous, j.room, displaced);
    var mid := PerformAll(w.net, quiet);
    PerformConcat(w.net, quiet, ArriveEffects(j.id, j.room, j.claim, snapshot, w.clients[j.id].info));
    NothingLearned(w.net, quiet, j.id);
    if w.clients[j.id].room != Some(j.room) {
      NothingHeard(w.net, quiet, j.id, j.room);
    }
    ArrivalHeard(mid, j.id, j.room, j.claim, snapshot, w.clients[j.id].info);
    ReadingSnoc(mid.inbox[j.id], ExistingClients(snapshot));
    ReadingSnoc(mid.inbox[j.id] + [ExistingClients(snapshot)], PresenceReady(j.room, j.claim));
  }

  lemma JoinerIsKnown(w: World, o: Sid, room: RoomId)
    requires Consistent(w) && o in w.net.live
    ensures o in w.clients && o in w.net.inbox && ((o, room) in w.net.joined <==> w.clients[o].room == Some(room))
  {
    hide LogAgrees, OnePresence, GuardsOwe;
  }

  /** The join step, exactly. After any run, when a join commits: if every member of the room has a finite
      rotation then the newcomer's view is the room; otherwise its snapshot is dropped, and it keeps the
      view it had, ghosts of its last room included. So a socket that has no view yet sees the room if
      and only if every member has a finite rotation, and otherwise it sees nobody. */
  lemma JoinConvergesExactly(steps: seq<Step>, join: nat, total: nat, displaced: seq<Sid>)
    requires var step := JoinCommit(join, total, displaced);
             Possible(Run(steps), step) && Commits(Run(steps), join, total)
    requires Run(steps).joins[join].id in Run(steps).net.live
    ensures var w, step := Run(steps), JoinCommit(join, total, displaced);
            var (j, w') := (w.joins[join], Apply(w, step));
            && j.id in w.net.inbox && j.id in w'.net.inbox && RoomOf(w'.clients, j.id) == Some(j.room)
            && var before, after := ViewOf(w.net.inbox[j.id]), ViewOf(w'.net.inbox[j.id]);
               && (AllFinite(w'.clients, j.room) ==> Converged(w', j.id, j.room, after))
               && (!AllFinite(w'.clients, j.room) && w.clients[j.id].room != Some(j.room) ==> after == before)
               && (before == map[] ==> (Converged(w', j.id, j.room, after) <==> AllFinite(w'.clients, j.room)))
               && (before == map[] && !AllFinite(w'.clients, j.room) ==> after == map[])
  {
    hide Consistent, ReadingOf, CommitEffects, CommitRoom, AllFinite, PerformAll, Snapshot, Run;
    var w, step := Run(steps), JoinCommit(join, total, displaced);
    var j := w.joins[join];
    RunIsConsistent(steps);
    JoinerReads(w, j, displaced);
    var w' := Apply(w, step);
    SnapshotDecodesExactly(w'.clients, j.room);
    ReadingHasView(w.net.inbox[j.id]);
    ReadingHasView(w'.net.inbox[j.id]);
    CommittedRoom(w.clients, j);
    RunSnoc(steps, step);
    ViewsConvergeExactly(steps + [step], j.id, j.room);
  }

  lemma CommittedRoom(cs: Clients, j: PendingJoin)
    requires j.id in cs
    ensures RoomOf(CommitRoom(cs, j.id, j.room, j.token), j.id) == Some(j.room)
  {
  }

  lemma RunSnoc(steps: seq<Step>, step: Step)
    ensures Run(steps + [step]) == Apply(Run(steps), step)
  {
    hide Apply;
    assert (steps + [step])[..|steps|] == steps;
  }

  // -------------------------------------------------------- the profile step

  /** What a member that stays has read when a profile change is over. */
  lemma MemberReads(w: World, id: Sid, data: UserData, displaced: seq<Sid>, o: Sid)
    requires Consistent(w) && id in w.clients && w.clients[id].room.Some?
    requires Enumerates(displaced, ProfileDuplicates(w.clients, id, data))
    requires o in w.net.live && o != id && RoomOf(CommitProfile(w.clients, id, data), o) == w.clients[id].room
    ensures var info := CommitProfile(w.clients, id, data)[id].info;
            var net' := PerformAll(w.net, ProfileEffects(w.clients[id].room.value, id, info, displaced));
            && o in w.net.inbox && o in net'.live && o in net'.inbox
            && var before, after := ReadingOf(w.net.inbox[o]), ReadingOf(net'.inbox[o]);
               && after.lost == before.lost && id in after.view && (id in after.blurred <==> !Decodes(info))
  {
    hide ReadingOf, Agrees, OnePresence, GuardsOwe, Enumerates, EvictEffects, WithProfile;
    var room := w.clients[id].room.value;
    var gone := ProfileDuplicates(w.clients, id, data);
    var info := WithProfile(w.clients[id], data).info;
    var quiet := EvictEffects(room, displaced);
    JoinerIsKnown(w, o, room);
    AtMostOneDuplicate(w.clients, id, room, ApplyToken(w.clients[id].token, data.token), displaced);
    EvictionAgrees(w.clients, w.net, room, displaced, gone);
    EvictionOnlyRemoves(room, displaced);
    NothingLearned(w.net, quiet, o);
    var mid := PerformAll(w.net, quiet);
    StillJoined(Evict(w.clients, gone), mid, o, room);
    var e := NewUser(id, info);
    PerformConcat(w.net, quiet, [Emit(Others(room, id), e)]);
    PerformOne(mid, Emit(Others(room, id), e));
    ReadingSnoc(mid.inbox[o], e);
  }

  lemma {:induction false} EvictionOnlyRemoves(room: RoomId, displaced: seq<Sid>)
    ensures forall i :: 0 <= i < |Goodbyes(room, displaced)| ==> Removes(Goodbyes(room, displaced)[i])
    ensures forall i :: 0 <= i < |Removals(room, displaced)| ==> Removes(Removals(room, displaced)[i])
    ensures forall i :: 0 <= i < |EvictEffects(room, displaced)| ==> Removes(EvictEffects(room, displaced)[i])
  {
    if displaced != [] {
      EvictionOnlyRemoves(room, displaced[..|displaced| - 1]);
    }
  }

  lemma StillJoined(cs: Clients, net: Net, o: Sid, room: RoomId)
    requires Agrees(cs, net) && o in net.live && RoomOf(cs, o) == Some(room)
    ensures (o, room) in net.joined
  {
    hide LogAgrees;
  }

  /** The profile step, exactly. After any run, when a member changes its profile, another member whose own
      snapshot decoded shows the new profile if and only if the rotation of the changed record is finite
      or the new profile is empty. */
  lemma ProfileConvergesExactly(steps: seq<Step>, id: Sid, data: UserData, displaced: seq<Sid>, o: Sid)
    requires var step := SetUserData(id, data, displaced);
             && Possible(Run(steps), step) && RoomOf(Run(steps).clients, id).Some?
             && RoomOf(Apply(Run(steps), step).clients, o) == RoomOf(Run(steps).clients, id)
    requires o in Run(steps).net.live && o != id && o in Run(steps).net.inbox
    requires !ReadingOf(Run(steps).net.inbox[o]).lost
    ensures var w' := Apply(Run(steps), SetUserData(id, data, displaced));
            && id in w'.clients && o in w'.net.inbox && id in ViewOf(w'.net.inbox[o])
            && (ShowsProfile(ViewOf(w'.net.inbox[o])[id], w'.clients[id].info)
                <==> w'.clients[id].info.rotation.Fin? || !w'.clients[id].info.HasProfile())
  {
    hide Consistent, ReadingOf, ProfileEffects, PerformAll, Run, Info.HasProfile, ProfileDuplicates, WithProfile;
    var w, step := Run(steps), SetUserData(id, data, displaced);
    RunIsConsistent(steps);
    MemberReads(w, id, data, displaced, o);
    ReadingHasView(Apply(w, step).net.inbox[o]);
    RunSnoc(steps, step);
    ViewsConvergeExactly(steps + [step], o, w.clients[id].room.value);
  }

  // ------------------------------------------------------------- the witness

  const HERE := [Fin(0.0), Fin(0.0), Fin(0.0)]

  /** One client joins room 7 and turns by an infinite angle; then a second one connects and joins. */
  function Blinding(): seq<Step> {
    [Connect(1), JoinBegin(0, 1, 7, None, None), JoinCommit(0, 7, []), Goto(1, HERE, None, Some(PosInf)),
     Connect(2), JoinBegin(1, 2, 7, None, None)]
  }

  lemma ConnectStep(w: World, id: Sid)
    requires id !in w.net.inbox && id !in w.clients
    ensures Apply(w, Connect(id))
            == w.(clients := w.clients[id := NEW_RECORD],
                  net := w.net.(live := w.net.live + {id}, inbox := w.net.inbox[id := []]))
  {
  }

  /** Phase 1 of a first join only leaves its request behind. */
  lemma FirstJoinStep(w: World, join: nat, id: Sid, room: RoomId)
    requires WriteFree(w) && join !in w.joins && id in w.clients && w.clients[id] == NEW_RECORD
    ensures Apply(w, JoinBegin(join, id, room, None, None))
            == w.(joins := w.joins[join := PendingJoin(id, room, None, None)])
  {
    assert PerformAll(w.net, LeaveEffects(id, None)) == w.net;
    assert w.clients[id := NEW_RECORD] == w.clients;
  }

  /** Phase 2 without a token displaces nobody. */
  lemma PlainCommitStep(w: World, join: nat, id: Sid, room: RoomId)
    requires WriteFree(w) && join in w.joins && w.joins[join] == PendingJoin(id, room, None, None)
    requires room >= 1 && id in w.clients && w.clients[id] == NEW_RECORD
    ensures var w' := Apply(w, JoinCommit(join, room, []));
            && Possible(w, JoinCommit(join, room, [])) && Commits(w, join, room)
            && w'.clients == w.clients[id := NEW_RECORD.(room := Some(room))]
            && w'.joins == w.joins - {join} && w'.readers == map[]
            && w'.net.inbox.Keys == w.net.inbox.Keys && w'.net.live == w.net.live
  {
    hide CommitEffects, PerformAll;
    assert CommitDuplicates(w.clients, id, room, None) == {};
    assert Evict(w.clients, {}) == w.clients;
    Navigation.PerformKeepsIds(w.net, CommitEffects(w.clients, w.joins[join], []));
  }

  lemma TurnStep(w: World, id: Sid, rotation: F32)
    requires RoomOf(w.clients, id).Some?
    ensures var w' := Apply(w, Goto(id, HERE, None, Some(rotation)));
            && w' == w.(clients := w.clients[id := w'.clients[id]])
            && w'.clients[id].room == w.clients[id].room && w'.clients[id].info.rotation == rotation
  {
  }

  /** The world before the second client commits. */
  lemma BlindingPrefix()
    ensures var w := Run(Blinding());
            && w.readers == map[] && 1 in w.joins && w.joins[1] == PendingJoin(2, 7, None, None)
            && w.clients.Keys == {1, 2} && 2 in w.net.live && 2 in w.net.inbox && w.net.inbox[2] == []
            && w.clients[1].room == Some(7) && w.clients[1].info.rotation == PosInf
            && w.clients[2] == NEW_RECORD
  {
    hide Apply, Commits;
    var s1 := [Connect(1)];
    var s2 := s1 + [JoinBegin(0, 1, 7, None, None)];
    var s3 := s2 + [JoinCommit(0, 7, [])];
    var s4 := s3 + [Goto(1, HERE, None, Some(PosInf))];
    var s5 := s4 + [Connect(2)];
    assert s5 + [JoinBegin(1, 2, 7, None, None)] == Blinding();
    assert [] + [Connect(1)] == s1;
    RunSnoc([], Connect(1));
    ConnectStep(START, 1);
    RunSnoc(s1, JoinBegin(0, 1, 7, None, None));
    FirstJoinStep(Run(s1), 0, 1, 7);
    RunSnoc(s2, JoinCommit(0, 7, []));
    PlainCommitStep(Run(s2), 0, 1, 7);
    RunSnoc(s3, Goto(1, HERE, None, Some(PosInf)));
    TurnStep(Run(s3), 1, PosInf);
    RunSnoc(s4, Connect(2));
    ConnectStep(Run(s4), 2);
    RunSnoc(s5, JoinBegin(1, 2, 7, None, None));
    FirstJoinStep(Run(s5), 1, 2, 7);
  }

  /** Convergence fails without that condition: the second client is in room 7 and has received its
      snapshot, and sees neither the first client nor itself. */
  lemma InfiniteRotationBlindsJoiner()
    ensures var w := Run(Blinding() + [JoinCommit(1, 7, [])]);
            && 2 in w.net.live && RoomOf(w.clients, 1) == RoomOf(w.clients, 2) == Some(7)
            && 2 in w.net.inbox && ViewOf(w.net.inbox[2]) == map[]
            && !Converged(w, 2, 7, ViewOf(w.net.inbox[2]))
  {
    hide Run, Apply, Possible, Commits, Blinding;
    BlindingPrefix();
    var w, w' := Run(Blinding()), Apply(Run(Blinding()), JoinCommit(1, 7, []));
    PlainCommitStep(w, 1, 2, 7);
    RunSnoc(Blinding(), JoinCommit(1, 7, []));
    assert w'.clients[1].room == Some(7) && !AllFinite(w'.clients, 7);
    JoinConvergesExactly(Blinding(), 1, 7, []);
  }
}
