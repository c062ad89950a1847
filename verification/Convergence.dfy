/** The presence invariant: in every reachable world each observer's view is true to the client table,
    adapter rooms and records agree, a browser is present once per room, and every broadcast still owed
    by a read guard is about a client that is still in that room. */
module Convergence {
  import opened Common
  import opened Motion
  import opened Presence
  import opened Network
  import opened Views
  import opened Protocol

  // No two distinct clients share both a room and a presence token.
  ghost predicate OnePresence(cs: Clients) {
    forall p, q :: p in cs && q in cs && p != q && cs[p].room.Some? && cs[p].token.Some? ==>
      !(cs[q].room == cs[p].room && cs[q].token == cs[p].token)
  }

  /** A queued broadcast is about a client that is in that room now, under its present profile. */
  ghost predicate Owed(cs: Clients, e: Effect) {
    match e
    case Emit(Within(room), Moved(p, info, _, _)) => RoomOf(cs, p) == Some(room) && SameProfile(info, cs[p].info)
    case Emit(Within(room), ChatMessage(p, _, _, _)) => RoomOf(cs, p) == Some(room)
    case Emit(Others(room, s), NewUser(p, info)) => s == p && RoomOf(cs, p) == Some(room) && SameProfile(info, cs[p].info)
    case Emit(Only(_), e) => e.RoomAccess?
    case _ => false
  }

  ghost predicate GuardsOwe(cs: Clients, readers: map<nat, seq<Effect>>) {
    forall g, i :: g in readers && 0 <= i < |readers[g]| ==> Owed(cs, readers[g][i])
  }

  ghost predicate Consistent(w: World) {
    Agrees(w.clients, w.net) && OnePresence(w.clients) && GuardsOwe(w.clients, w.readers)
  }

  // -------------------------------------------------------- one browser, one presence

  lemma AtMostOneDuplicate(cs: Clients, id: Sid, room: RoomId, token: Option<Token>, displaced: seq<Sid>)
    requires OnePresence(cs) && Enumerates(displaced, Duplicates(cs, id, room, token))
    ensures |displaced| <= 1
  {
    EnumerateAtMostOne(displaced, Duplicates(cs, id, room, token));
  }

  lemma CommitKeepsOnePresence(cs: Clients, id: Sid, room: RoomId, raw: Option<string>)
    requires OnePresence(cs) && id in cs
    ensures OnePresence(CommitRoom(cs, id, room, raw))
  {
  }

  lemma ProfileKeepsOnePresence(cs: Clients, id: Sid, data: UserData)
    requires OnePresence(cs) && id in cs
    ensures OnePresence(CommitProfile(cs, id, data))
  {
  }

  /** Tables that differ only in ways neither rooms nor tokens see. */
  lemma SameTokensKeepOnePresence(cs: Clients, cs': Clients)
    requires OnePresence(cs) && cs'.Keys <= cs.Keys
    requires forall p :: p in cs' ==> cs'[p].token == cs[p].token && (cs'[p].room == cs[p].room || cs'[p].room.None?)
    ensures OnePresence(cs')
  {
  }

  lemma OwedStays(cs: Clients, cs': Clients, readers: map<nat, seq<Effect>>)
    requires GuardsOwe(cs, readers)
    requires forall p :: p in cs ==> p in cs' && cs'[p].room == cs[p].room && SameProfile(cs'[p].info, cs[p].info)
    ensures GuardsOwe(cs', readers)
  {
  }

  // ------------------------------------------------------------- write sections

  /** Leaving whatever room the client is in. */
  lemma LeavingAgrees(cs: Clients, net: Net, id: Sid, rec: ClientRecord)
    requires Agrees(cs, net) && id in cs && rec.room.None?
    ensures Agrees(cs[id := rec], PerformAll(net, LeaveEffects(id, cs[id].room)))
  {
    hide Agrees;
    if cs[id].room.None? {
      OutsiderChanges(cs, id, rec, net);
    } else {
      var room := cs[id].room.value;
      PerformTwo(net, Leave(id, room), Emit(Others(room, id), Delete(id)));
      Detaches(cs, net, id, rec, room, Others(room, id));
    }
  }

  lemma EvictOne(room: RoomId, d: Sid)
    ensures EvictEffects(room, [d])
            == [Emit(Only(d), PresenceSuperseded(room))] + [Leave(d, room), Emit(Within(room), Delete(d))]
  {
    assert [d][..|[d]| - 1] == [];
    assert Goodbyes(room, [d]) == [] + [Emit(Only(d), PresenceSuperseded(room)), Leave(d, room)];
    assert Removals(room, [d]) == [] + [Emit(Within(room), Delete(d))];
  }

  lemma EvictionAgrees(cs: Clients, net: Net, room: RoomId, displaced: seq<Sid>, gone: set<Sid>)
    requires Agrees(cs, net) && Enumerates(displaced, gone) && |displaced| <= 1
    requires forall d :: d in gone ==> RoomOf(cs, d) == Some(room)
    ensures Agrees(Evict(cs, gone), PerformAll(net, EvictEffects(room, displaced)))
  {
    hide Agrees;
    if displaced == [] {
      assert gone == {};
      assert Evict(cs, gone) == cs;
    } else {
      var d := displaced[0];
      assert displaced == [d];
      assert d in displaced;
      assert gone == {d};
      assert Evict(cs, gone) == cs[d := Roomless(cs[d])];
      EvictOne(room, d);
      PerformConcat(net, [Emit(Only(d), PresenceSuperseded(room))], [Leave(d, room), Emit(Within(room), Delete(d))]);
      PerformOne(net, Emit(Only(d), PresenceSuperseded(room)));
      var told := Perform(net, Emit(Only(d), PresenceSuperseded(room)));
      PerformTwo(told, Leave(d, room), Emit(Within(room), Delete(d)));
      Tells(cs, net, d, PresenceSuperseded(room));
      Detaches(cs, told, d, Roomless(cs[d]), room, Within(room));
    }
  }

  lemma ArrivalAgrees(cs: Clients, net: Net, id: Sid, rec: ClientRecord, room: RoomId, claim: Option<nat>)
    requires Agrees(cs, net) && id in cs && rec.room == Some(room) && rec.info == cs[id].info
    requires cs[id].room.None? || cs[id].room == Some(room)
    ensures Agrees(cs[id := rec],
                   PerformAll(net, ArriveEffects(id, room, claim, Snapshot(cs[id := rec], room), rec.info)))
  {
    hide Agrees, PerformAll, ArriveEffects, Perform;
    ArrivalPerformed(net, id, room, claim, Snapshot(cs[id := rec], room), rec.info);
    if rec.info.HasProfile() {
      ArrivesKnown(cs, net, id, rec, room, claim);
    } else {
      ArrivesUnknown(cs, net, id, rec, room, claim);
    }
  }

  /** Phase 2 of a join as three elementary changes: leave the previous room, evict, arrive. */
  lemma CommitAgrees(cs: Clients, net: Net, j: PendingJoin, displaced: seq<Sid>)
    requires Agrees(cs, net) && OnePresence(cs) && j.id in cs
    requires Enumerates(displaced, CommitDuplicates(cs, j.id, j.room, j.token))
    ensures Agrees(CommitRoom(cs, j.id, j.room, j.token), PerformAll(net, CommitEffects(cs, j, displaced)))
  {
    hide Agrees, Enumerates, ArriveEffects, EvictEffects, LeaveEffects;
    var id, room := j.id, j.room;
    var gone := CommitDuplicates(cs, id, room, j.token);
    var rec := EnterRoom(cs[id], room, j.token);
    AtMostOneDuplicate(cs, id, room, ApplyToken(cs[id].token, j.token), displaced);

    var stays := cs[id].room == Some(room);
    var leaving := LeaveEffects(id, if stays then None else cs[id].room);
    var cs1 := if stays then cs else cs[id := cs[id].(room := None)];
    var net1 := PerformAll(net, leaving);
    if stays {
      NoLeaving(id);
    } else {
      LeavingAgrees(cs, net, id, cs[id].(room := None));
    }
    var cs2 := Evict(cs1, gone);
    var net2 := PerformAll(net1, EvictEffects(room, displaced));
    EvictionAgrees(cs1, net1, room, displaced, gone);
    var cs3 := CommitRoom(cs, id, room, j.token);
    assert cs3 == cs2[id := rec];
    ArrivalAgrees(cs2, net2, id, rec, room, j.claim);
    var arriving := ArriveEffects(id, room, j.claim, Snapshot(cs3, room), cs[id].info);
    PerformConcat(net, leaving, EvictEffects(room, displaced));
    PerformConcat(net, leaving + EvictEffects(room, displaced), arriving);
  }

  lemma NoLeaving(id: Sid)
    ensures LeaveEffects(id, None) == []
  {
  }

  lemma ProfileAgrees(cs: Clients, net: Net, id: Sid, data: UserData, displaced: seq<Sid>)
    requires Agrees(cs, net) && OnePresence(cs) && id in cs && cs[id].room.Some?
    requires Enumerates(displaced, ProfileDuplicates(cs, id, data))
    ensures var cs' := CommitProfile(cs, id, data);
            Agrees(cs', PerformAll(net, ProfileEffects(cs[id].room.value, id, cs'[id].info, displaced)))
  {
    hide Agrees, Enumerates, EvictEffects;
    var room := cs[id].room.value;
    var gone := ProfileDuplicates(cs, id, data);
    var rec := WithProfile(cs[id], data);
    AtMostOneDuplicate(cs, id, room, ApplyToken(cs[id].token, data.token), displaced);
    EvictionAgrees(cs, net, room, displaced, gone);
    var cs1, net1 := Evict(cs, gone), PerformAll(net, EvictEffects(room, displaced));
    Announces(cs1, net1, id, rec, room, rec.info);
    assert CommitProfile(cs, id, data) == cs1[id := rec];
    PerformConcat(net, EvictEffects(room, displaced), [Emit(Others(room, id), NewUser(id, rec.info))]);
    PerformOne(net1, Emit(Others(room, id), NewUser(id, rec.info)));
  }

  // ----------------------------------------------------------------- every step

  lemma SamePresenceKeepsAll(w: World, w': World)
    requires Consistent(w) && w'.net == w.net && SamePresence(w.clients, w'.clients)
    requires forall p :: p in w.clients ==> w'.clients[p].token == w.clients[p].token
    ensures Agrees(w'.clients, w'.net) && OnePresence(w'.clients) && GuardsOwe(w'.clients, w.readers)
  {
    hide Agrees;
    KeepsAgreement(w.clients, w'.clients, w.net);
    SameTokensKeepOnePresence(w.clients, w'.clients);
    OwedStays(w.clients, w'.clients, w.readers);
  }

  lemma ConnectKeeps(w: World, step: Step)
    requires Consistent(w) && step.Connect? && Possible(w, step)
    ensures Consistent(Next(w, step))
  {
    hide Agrees;
    Opens(w.clients, w.net, step.id, NEW_RECORD);
    OwedStays(w.clients, Next(w, step).clients, w.readers);
  }

  lemma CloseKeeps(w: World, step: Step)
    requires Consistent(w) && step.Close?
    ensures Consistent(Next(w, step))
  {
    var w' := Next(w, step);
    forall o | o in w'.net.live && w'.clients[o].room.Some?
      ensures Sees(w'.clients, o, w'.clients[o].room.value, ReadingOf(w'.net.inbox[o]))
    {
      assert Sees(w.clients, o, w.clients[o].room.value, ReadingOf(w.net.inbox[o]));
    }
  }

  lemma NothingOwed(cs: Clients)
    ensures GuardsOwe(cs, map[])
  {
  }

  lemma JoinBeginKeeps(w: World, step: Step)
    requires Consistent(w) && step.JoinBegin? && Possible(w, step)
    ensures Consistent(Next(w, step))
  {
    hide Agrees, OnePresence, GuardsOwe, CommitEffects, CommitRoom, ProfileEffects, CommitProfile,
         TickClients, TickEffects, Measures, Enumerates, PerformAll, LeaveEffects;
    var cs, id := w.clients, step.id;
    var noted := NoteClaim(cs, id, step.claim);
    KeepsAgreement(cs, noted, w.net);
    LeavingAgrees(noted, w.net, id, Roomless(noted[id]));
    SameTokensKeepOnePresence(cs, Next(w, step).clients);
    NothingOwed(Next(w, step).clients);
  }

  lemma LeaveSpaceKeeps(w: World, step: Step)
    requires Consistent(w) && step.LeaveSpace? && Possible(w, step)
    ensures Consistent(Next(w, step))
  {
    hide Agrees, OnePresence, GuardsOwe, CommitEffects, CommitRoom, ProfileEffects, CommitProfile,
         TickClients, TickEffects, Measures, Enumerates, PerformAll, LeaveEffects;
    var cs, id := w.clients, step.id;
    var noted := NoteClaim(cs, id, step.claim);
    KeepsAgreement(cs, noted, w.net);
    LeavingAgrees(noted, w.net, id, Roomless(noted[id]));
    SameTokensKeepOnePresence(cs, Next(w, step).clients);
    NothingOwed(Next(w, step).clients);
  }

  lemma JoinCommitKeeps(w: World, step: Step)
    requires Consistent(w) && step.JoinCommit? && Possible(w, step)
    ensures Consistent(Next(w, step))
  {
    hide Agrees, CommitEffects, CommitRoom, CommitDuplicates;
    if Commits(w, step.join, step.totalSpaces) {
      var j := w.joins[step.join];
      CommitAgrees(w.clients, w.net, j, step.displaced);
      CommitKeepsOnePresence(w.clients, j.id, j.room, j.token);
    }
  }

  lemma SetUserDataKeeps(w: World, step: Step)
    requires Consistent(w) && step.SetUserData? && Possible(w, step)
    ensures Consistent(Next(w, step))
  {
    hide Agrees, ProfileEffects;
    var cs, id := w.clients, step.id;
    ProfileKeepsOnePresence(cs, id, step.data);
    if cs[id].room.None? {
      var rec := WithProfile(cs[id], step.data);
      OutsiderChanges(cs, id, rec, w.net);
      assert Next(w, step).clients == cs[id := rec];
    } else {
      ProfileAgrees(cs, w.net, id, step.data, step.displaced);
    }
  }

  lemma DisconnectKeeps(w: World, step: Step)
    requires Consistent(w) && step.Disconnect? && Possible(w, step)
    ensures Consistent(Next(w, step))
  {
    hide Agrees;
    var cs, id := w.clients, step.id;
    if RoomOf(cs, id).None? {
      OutsiderVanishes(cs, id, w.net);
    } else {
      Vanishes(cs, w.net, id, cs[id].room.value);
    }
    SameTokensKeepOnePresence(cs, cs - {id});
  }

  lemma GuardTaken(w: World, guard: nat, owed: seq<Effect>)
    requires Consistent(w) && guard !in w.readers
    requires forall i :: 0 <= i < |owed| ==> Owed(w.clients, owed[i])
    ensures Consistent(TakeGuard(w, guard, owed))
  {
    hide Agrees, Owed;
  }

  lemma MoveBeginKeeps(w: World, step: Step)
    requires Consistent(w) && step.MoveBegin? && Possible(w, step)
    ensures Consistent(Next(w, step))
  {
    hide Agrees, Consistent, CommitEffects, CommitRoom, ProfileEffects, CommitProfile, TickClients,
         TickEffects, Measures, Enumerates, PerformAll;
    var id := step.id;
    var rec := MoveRecord(w.clients[id], ToVec3(step.position).value, OrZero(step.rotation), step.clientSeq);
    var w' := w.(clients := w.clients[id := rec]);
    SamePresenceKeepsAll(w, w');
    ConsistentIf(w');
    GuardTaken(w', step.guard, [MoveEffect(w'.clients, id, step.clientSeq)]);
  }

  lemma ConsistentIf(w: World)
    requires Agrees(w.clients, w.net) && OnePresence(w.clients) && GuardsOwe(w.clients, w.readers)
    ensures Consistent(w)
  {
  }

  lemma GotoKeeps(w: World, step: Step)
    requires Consistent(w) && step.Goto? && Possible(w, step)
    ensures Consistent(Next(w, step))
  {
    hide Agrees;
    SamePresenceKeepsAll(w, Next(w, step));
  }

  lemma {:induction false} TickEffectAt(cs: Clients, moved: seq<Sid>, i: nat)
    requires forall p :: p in moved ==> p in cs && cs[p].room.Some?
    requires i < |moved|
    ensures TickEffects(cs, moved)[i] == MoveEffect(cs, moved[i], None)
  {
    var n := |moved| - 1;
    if i < n {
      TickEffectAt(cs, moved[..n], i);
    }
  }

  lemma TickKeepsPresence(cs: Clients, dist: map<Sid, real>)
    requires forall p :: p in dist ==> 0.0 <= dist[p]
    ensures SamePresence(cs, TickClients(cs, dist))
    ensures forall p :: p in cs ==> TickClients(cs, dist)[p].token == cs[p].token
  {
    hide NextPosition;
  }

  lemma TickOwes(cs: Clients, moved: seq<Sid>)
    requires forall p :: p in moved ==> p in cs && cs[p].room.Some?
    ensures forall i :: 0 <= i < |TickEffects(cs, moved)| ==> Owed(cs, TickEffects(cs, moved)[i])
  {
    hide TickEffects;
    forall i | 0 <= i < |TickEffects(cs, moved)| ensures Owed(cs, TickEffects(cs, moved)[i]) {
      TickEffectAt(cs, moved, i);
      assert moved[i] in moved;
    }
  }

  lemma TickBeginKeeps(w: World, step: Step)
    requires Consistent(w) && step.TickBegin? && Possible(w, step)
    ensures Consistent(Next(w, step))
  {
    hide Agrees, Consistent, Measures, OnePresence, GuardsOwe, Owed, TickClients, TickEffects, CommitEffects,
         CommitRoom, ProfileEffects, CommitProfile, PerformAll;
    var w' := w.(clients := TickClients(w.clients, step.dist));
    TickKeepsPresence(w.clients, step.dist);
    SamePresenceKeepsAll(w, w');
    ConsistentIf(w');
    assert forall p :: p in step.moved ==> p in w'.clients && w'.clients[p].room.Some?;
    TickOwes(w'.clients, step.moved);
    GuardTaken(w', step.guard, TickEffects(w'.clients, step.moved));
  }

  lemma EmitNextKeeps(w: World, step: Step)
    requires Consistent(w) && step.EmitNext? && Possible(w, step)
    ensures Consistent(Next(w, step))
  {
    hide Agrees;
    var cs, owed := w.clients, w.readers[step.guard];
    assert Owed(cs, owed[0]);
    match owed[0] {
      case Emit(Within(room), e) => Broadcasts(cs, w.net, e.id, room, e);
      case Emit(Others(room, s), NewUser(p, info)) =>
        Announces(cs, w.net, p, cs[p], room, info);
        assert cs[p := cs[p]] == cs;
      case Emit(Only(p), e) => Tells(cs, w.net, p, e);
    }
    assert forall i :: 0 <= i < |owed[1..]| ==> owed[1..][i] == owed[i + 1];
  }

  lemma StepKeeps(w: World, step: Step)
    requires Consistent(w)
    ensures Consistent(Apply(w, step))
  {
    hide Consistent, Possible, Next;
    if Possible(w, step) {
      match step {
        case Connect(_) => ConnectKeeps(w, step);
        case Close(_) => CloseKeeps(w, step);
        case Authenticate(_, _) => AuthenticateKeeps(w, step);
        case JoinAbort(_) => JoinAbortKeeps(w, step);
        case JoinBegin(_, _, _, _, _) => JoinBeginKeeps(w, step);
        case JoinCommit(_, _, _) => JoinCommitKeeps(w, step);
        case LeaveSpace(_, _, _) => LeaveSpaceKeeps(w, step);
        case SetUserData(_, _, _) => SetUserDataKeeps(w, step);
        case Disconnect(_) => DisconnectKeeps(w, step);
        case MoveBegin(_, _, _, _, _) => MoveBeginKeeps(w, step);
        case Goto(_, _, _, _) => GotoKeeps(w, step);
        case ChatBegin(_, _, _) => ChatBeginKeeps(w, step);
        case WalletBegin(_, _, _, _) => WalletBeginKeeps(w, step);
        case TickBegin(_, _, _) => TickBeginKeeps(w, step);
        case EmitNext(_) => EmitNextKeeps(w, step);
      }
    }
  }

  lemma AuthenticateKeeps(w: World, step: Step)
    requires Consistent(w) && step.Authenticate? && Possible(w, step)
    ensures Consistent(Next(w, step))
  {
    hide Agrees;
    SamePresenceKeepsAll(w, Next(w, step));
  }

  lemma JoinAbortKeeps(w: World, step: Step)
    requires Consistent(w) && step.JoinAbort? && Possible(w, step)
    ensures Consistent(Next(w, step))
  {
    hide Agrees;
  }

  lemma ChatBeginKeeps(w: World, step: Step)
    requires Consistent(w) && step.ChatBegin? && Possible(w, step)
    ensures Consistent(Next(w, step))
  {
    hide Agrees, Consistent;
    var id := step.id;
    GuardTaken(w, step.guard, [ChatEffect(w.clients, id, step.text)]);
  }

  lemma WalletBeginKeeps(w: World, step: Step)
    requires Consistent(w) && step.WalletBegin? && Possible(w, step)
    ensures Consistent(Next(w, step))
  {
    hide Agrees, Consistent;
    GuardTaken(w, step.guard, WalletEffects(w.clients, step.id, step.room, step.access));
  }

  // ------------------------------------------------------------------- every run

  /** The invariant holds in every reachable world, whatever the interleaving. */
  lemma {:induction false} RunIsConsistent(steps: seq<Step>)
    ensures Consistent(Run(steps))
  {
    hide Apply, Consistent;
    if steps == [] {
      StartIsConsistent();
    } else {
      RunIsConsistent(steps[..|steps| - 1]);
      StepKeeps(Run(steps[..|steps| - 1]), steps[|steps| - 1]);
    }
  }

  lemma StartIsConsistent()
    ensures Consistent(START)
  {
  }

  ghost predicate ShowsProfile(known: Known, info: Info) {
    known.avatar == info.avatar && known.nickname == info.nickname
  }

  /** The view of `o` is true to its room: it holds `o` itself, every member with a nickname or avatar and
      nobody from outside, and shows everybody else under the name and avatar of the client table. */
  ghost predicate Converged(w: World, o: Sid, room: RoomId, view: View) {
    && o in view
    && view.Keys <= Members(w.clients, room)
    && (forall p :: p in Members(w.clients, room) && w.clients[p].info.HasProfile() ==> p in view)
    && (forall p :: p in view && p != o ==> ShowsProfile(view[p], w.clients[p].info))
  }

  /** What every view is worth, after any run. A live client `o` in a room whose newest snapshot decoded
      sees itself, every member with a profile and nobody from outside; and it sees another member `p`
      under the right name and avatar if and only if the newest announcement of `p` decoded, or a `move`
      came since, or `p` has no profile to show. */
  lemma ViewsConvergeExactly(steps: seq<Step>, o: Sid, room: RoomId)
    requires o in Run(steps).net.live && RoomOf(Run(steps).clients, o) == Some(room)
    ensures o in Run(steps).net.inbox
    ensures var w := Run(steps);
            var r := ReadingOf(w.net.inbox[o]);
            && r.view == ViewOf(w.net.inbox[o])
            && (!r.lost ==>
                  && o in r.view
                  && r.view.Keys <= Members(w.clients, room)
                  && (forall p :: p in Members(w.clients, room) && w.clients[p].info.HasProfile() ==> p in r.view)
                  && (forall p :: p in r.view && p != o ==>
                        (ShowsProfile(r.view[p], w.clients[p].info)
                         <==> !(p in r.blurred && w.clients[p].info.HasProfile()))))
  {
    RunIsConsistent(steps);
    var w := Run(steps);
    assert Sees(w.clients, o, room, ReadingOf(w.net.inbox[o]));
    ReadingHasView(w.net.inbox[o]);
  }

  /** Logical and adapter membership agree: a live socket has joined exactly its record's room. */
  lemma AdapterAgrees(steps: seq<Step>, o: Sid)
    requires o in Run(steps).net.live
    ensures var w := Run(steps);
            && o in w.clients
            && (set q | q in w.net.joined && q.0 == o)
               == match w.clients[o].room case None => {} case Some(r) => {(o, r)}
  {
    RunIsConsistent(steps);
    var w := Run(steps);
    forall q | q in w.net.joined && q.0 == o
      ensures w.clients[o].room == Some(q.1)
    {
      assert (o, q.1) in w.net.joined;
    }
  }

  /** One presence per browser. */
  lemma OneBrowserOnePresence(steps: seq<Step>, p: Sid, q: Sid)
    requires p in Run(steps).clients && q in Run(steps).clients && p != q
    requires Run(steps).clients[p].room.Some? && Run(steps).clients[p].token.Some?
    ensures Run(steps).clients[p].room != Run(steps).clients[q].room
            || Run(steps).clients[p].token != Run(steps).clients[q].token
  {
    RunIsConsistent(steps);
  }

  // ------------------------------------------------------ no activity after removal

  predicate IsRemoval(e: Effect, room: RoomId, p: Sid) {
    e.Emit? && e.event == Delete(p) && (e.dest == Within(room) || (e.dest.Others? && e.dest.room == room))
  }

  lemma {:induction false} AbsentUntilJoin(log: seq<Effect>, room: RoomId, p: Sid, i: nat, j: nat)
    requires i < j <= |log| && IsRemoval(log[i], room, p)
    requires forall k :: i < k < j ==> log[k] != Join(p, room)
    ensures p !in Present(log[..j], room)
    decreases j
  {
    assert log[..j][..j - 1] == log[..j - 1];
    if i < j - 1 {
      AbsentUntilJoin(log, room, p, i, j - 1);
    }
  }

  lemma {:induction false} OrderlyAt(log: seq<Effect>, j: nat)
    requires Orderly(log) && j < |log| && Activity(log[j]).Some?
    ensures Activity(log[j]).value.1 in Present(log[..j], Activity(log[j]).value.0)
  {
    var n := |log| - 1;
    if j < n {
      OrderlyAt(log[..n], j);
      assert log[..n][..j] == log[..j];
    }
  }

  /** No activity after removal: in everything the server ever sent, between a `delete p` to a room and a
      later `move`, `chat message` or `new user` of `p` in that room, `p` joined the room again. */
  lemma NoActivityAfterRemoval(steps: seq<Step>, room: RoomId, p: Sid, i: nat, j: nat)
    requires i < j < |Run(steps).net.log|
    requires IsRemoval(Run(steps).net.log[i], room, p)
    requires Activity(Run(steps).net.log[j]) == Some((room, p))
    ensures exists k :: i < k < j && Run(steps).net.log[k] == Join(p, room)
  {
    RunIsConsistent(steps);
    var log := Run(steps).net.log;
    OrderlyAt(log, j);
    if forall k :: i < k < j ==> log[k] != Join(p, room) {
      AbsentUntilJoin(log, room, p, i, j);
    }
  }
}
