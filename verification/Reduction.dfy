/** Why a write section may be taken as one step although `insert_default` and `authenticate` do not take
    its lock. A section is split at the point where such a step can land, between its first access to the
    client table and the rest; whatever lands there might as well come after the section: the table is
    the same, and everything sent differs at most in wallets, which no observer keeps. */
module Reduction {
  import opened Common
  import opened Motion
  import opened Presence
  import opened Network
  import opened Views
  import opened Protocol
  import opened Convergence
  import opened Movement
  import opened Decoding
  import Navigation

  // ------------------------------------------------------ equal but for wallets

  function BareEvent(e: Event): Event {
    match e
    case ExistingClients(clients) => ExistingClients(map p | p in clients :: WithoutWallet(clients[p]))
    case NewUser(id, info) => NewUser(id, WithoutWallet(info))
    case ChatMessage(_, _, _, _) => e.(wallet := None)
    case _ => e
  }

  function BareEffect(e: Effect): Effect {
    if e.Emit? then Emit(e.dest, BareEvent(e.event)) else e
  }

  ghost predicate AlikeEvents(a: seq<Event>, b: seq<Event>) {
    |a| == |b| && forall i :: 0 <= i < |a| ==> BareEvent(a[i]) == BareEvent(b[i])
  }

  ghost predicate AlikeEffects(a: seq<Effect>, b: seq<Effect>) {
    |a| == |b| && forall i :: 0 <= i < |a| ==> BareEffect(a[i]) == BareEffect(b[i])
  }

  ghost predicate AlikeNets(a: Net, b: Net) {
    && a.live == b.live && a.joined == b.joined && a.inbox.Keys == b.inbox.Keys
    && (forall o :: o in a.inbox ==> AlikeEvents(a.inbox[o], b.inbox[o]))
    && AlikeEffects(a.log, b.log)
  }

  /** The same world, except that wallets in what was sent may differ. */
  ghost predicate Alike(w: World, v: World) {
    && w.clients == v.clients && w.joins == v.joins && w.readers == v.readers
    && AlikeNets(w.net, v.net)
  }

  lemma AlikeTrans(u: World, v: World, w: World)
    requires Alike(u, v) && Alike(v, w)
    ensures Alike(u, w)
  {
    hide BareEvent, BareEffect;
  }

  lemma PerformAlike(a: Net, b: Net, e: Effect, f: Effect)
    requires AlikeNets(a, b) && BareEffect(e) == BareEffect(f)
    ensures AlikeNets(Perform(a, e), Perform(b, f))
  {
    hide BareEvent;
  }

  lemma {:induction false} PerformAllAlike(a: Net, b: Net, es: seq<Effect>, fs: seq<Effect>)
    requires AlikeNets(a, b) && AlikeEffects(es, fs)
    ensures AlikeNets(PerformAll(a, es), PerformAll(b, fs))
  {
    hide AlikeNets, BareEffect, Perform;
    if es != [] {
      var n := |es| - 1;
      PerformAllAlike(a, b, es[..n], fs[..n]);
      PerformAlike(PerformAll(a, es[..n]), PerformAll(b, fs[..n]), es[n], fs[n]);
    }
  }

  lemma AlikeToItself(es: seq<Effect>)
    ensures AlikeEffects(es, es)
  {
  }

  lemma PossibleAlike(w: World, v: World, step: Step)
    requires Alike(w, v)
    ensures Possible(w, step) <==> Possible(v, step)
    ensures step.JoinCommit? ==> (Commits(w, step.join, step.totalSpaces) <==> Commits(v, step.join, step.totalSpaces))
  {
    hide AlikeEvents, AlikeEffects, Measures, Enumerates, CommitDuplicates, ProfileDuplicates, Movers, CleanMessage;
  }

  /** Steps do not look at what was sent. */
  lemma StepsAlike(w: World, v: World, step: Step)
    requires Alike(w, v)
    ensures Alike(Apply(w, step), Apply(v, step))
  {
    hide AlikeNets, Perform, PerformAll, LeaveEffects, CommitEffects, ProfileEffects, TickEffects, TickClients,
         ChatEffect, WalletEffects, MoveEffect, CommitRoom, CommitProfile, Possible, Commits, TakeRoom, NoteClaim,
         SetWalletOf, MoveRecord, GotoRecord, ClearsRoom;
    PossibleAlike(w, v, step);
    forall es: seq<Effect> ensures AlikeNets(PerformAll(w.net, es), PerformAll(v.net, es)) {
      AlikeToItself(es);
      PerformAllAlike(w.net, v.net, es, es);
    }
    forall e: Effect ensures AlikeNets(Perform(w.net, e), Perform(v.net, e)) {
      PerformAlike(w.net, v.net, e, e);
    }
    if step.Connect? {
      OpensAlike(w.net, v.net, step.id);
    } else if step.Close? {
      ClosesAlike(w.net, v.net, step.id);
    } else if step.EmitNext? && Possible(w, step) {
      SomethingIsOwed(w, step);
    }
  }

  lemma SomethingIsOwed(w: World, step: Step)
    requires step.EmitNext? && Possible(w, step)
    ensures step.guard in w.readers && w.readers[step.guard] != []
  {
  }

  lemma OpensAlike(a: Net, b: Net, id: Sid)
    requires AlikeNets(a, b)
    ensures AlikeNets(a.(live := a.live + {id}, inbox := a.inbox[id := []]),
                      b.(live := b.live + {id}, inbox := b.inbox[id := []]))
  {
    hide AlikeEffects;
    NothingReceivedAlike();
  }

  lemma ClosesAlike(a: Net, b: Net, id: Sid)
    requires AlikeNets(a, b)
    ensures AlikeNets(a.(live := a.live - {id}, joined := set q | q in a.joined && q.0 != id),
                      b.(live := b.live - {id}, joined := set q | q in b.joined && q.0 != id))
  {
    hide AlikeEffects, AlikeEvents;
    SameRest(a, b, id);
  }

  lemma SameRest(a: Net, b: Net, id: Sid)
    requires a.joined == b.joined
    ensures (set q | q in a.joined && q.0 != id) == (set q | q in b.joined && q.0 != id)
  {
  }

  lemma NothingReceivedAlike()
    ensures AlikeEvents([], [])
  {
  }

  // -------------------------------------------------------- observers see no wallet

  /** A fold erases exactly the wallet and the height scale of a payload that decodes. */
  lemma FoldErasesWallets(view: View, id: Sid, a: Info, b: Info)
    requires Decodes(a) && Decodes(b)
    ensures Fold(view, NewUser(id, a)) == Fold(view, NewUser(id, b))
            <==> WithoutWallet(a).(heightScale := None) == WithoutWallet(b).(heightScale := None)
  {
    assert Fold(view, NewUser(id, a))[id] == Decode(a);
    assert Fold(view, NewUser(id, b))[id] == Decode(b);
  }

  lemma SnapshotsAlike(a: map<Sid, Info>, b: map<Sid, Info>)
    requires BareEvent(ExistingClients(a)) == BareEvent(ExistingClients(b))
    ensures SnapshotDecodes(a) <==> SnapshotDecodes(b)
    ensures SnapshotDecodes(a) ==> DecodeSnapshot(a) == DecodeSnapshot(b)
  {
    var x := BareEvent(ExistingClients(a)).clients;
    assert x.Keys == a.Keys == b.Keys;
    assert forall p :: p in a ==> x[p] == WithoutWallet(a[p]) == WithoutWallet(b[p]);
  }

  lemma ReadsAlike(r: Reading, a: Event, b: Event)
    requires BareEvent(a) == BareEvent(b)
    ensures Read(r, a) == Read(r, b)
  {
    if a.ExistingClients? {
      SnapshotsAlike(a.clients, b.clients);
    }
  }

  /** Two histories that differ only in wallets leave the same view. */
  lemma {:induction false} ReadingsAlike(a: seq<Event>, b: seq<Event>)
    requires AlikeEvents(a, b)
    ensures ReadingOf(a) == ReadingOf(b)
  {
    hide Read, BareEvent;
    if a != [] {
      var n := |a| - 1;
      ReadingsAlike(a[..n], b[..n]);
      ReadsAlike(ReadingOf(a[..n]), a[n], b[n]);
    }
  }

  lemma {:induction false} StreamsAlike(a: seq<Effect>, b: seq<Effect>, room: RoomId)
    requires AlikeEffects(a, b)
    ensures Present(a, room) == Present(b, room)
  {
    if a != [] {
      var n := |a| - 1;
      StreamsAlike(a[..n], b[..n], room);
      assert BareEffect(a[n]) == BareEffect(b[n]);
    }
  }

  lemma {:induction false} OrderAlike(a: seq<Effect>, b: seq<Effect>)
    requires AlikeEffects(a, b) && Orderly(b)
    ensures Orderly(a)
  {
    hide Present;
    if a != [] {
      var n := |a| - 1;
      OrderAlike(a[..n], b[..n]);
      assert BareEffect(a[n]) == BareEffect(b[n]);
      if Activity(a[n]).Some? {
        StreamsAlike(a[..n], b[..n], Activity(a[n]).value.0);
      }
    }
  }

  /** So the invariant cannot tell such worlds apart. */
  lemma ConsistentAlike(w: World, v: World)
    requires Alike(w, v) && Consistent(v)
    ensures Consistent(w)
  {
    hide BareEvent, BareEffect, ReadingOf, Sees, OnePresence, GuardsOwe, Present, Orderly;
    forall o | o in w.net.live && w.clients[o].room.Some?
      ensures Sees(w.clients, o, w.clients[o].room.value, ReadingOf(w.net.inbox[o]))
    {
      ReadingsAlike(w.net.inbox[o], v.net.inbox[o]);
    }
    OrderAlike(w.net.log, v.net.log);
    forall room: RoomId ensures Present(w.net.log, room) == Present(v.net.log, room) {
      StreamsAlike(w.net.log, v.net.log, room);
    }
  }

  // ---------------------------------------------------------- sections, split

  predicate IsWriteSection(step: Step) {
    step.JoinBegin? || step.JoinCommit? || step.LeaveSpace? || step.SetUserData? || step.Disconnect?
  }

  /** The steps that touch the table without the presence lock. */
  predicate IsLockFree(step: Step) {
    step.Connect? || step.Authenticate?
  }

  /** A section up to its first access to the table. */
  ghost function First(w: World, step: Step): World
    requires IsWriteSection(step) && Possible(w, step)
  {
    match step
    case JoinBegin(_, id, _, _, claim) => w.(clients := NoteClaim(w.clients, id, claim))
    case JoinCommit(join, total, _) =>
      var (j, w') := (w.joins[join], w.(joins := w.joins - {join}));
      if Commits(w, join, total) then w'.(clients := CommitRoom(w.clients, j.id, j.room, j.token)) else w'
    case LeaveSpace(id, _, claim) => w.(clients := NoteClaim(w.clients, id, claim))
    case SetUserData(id, data, _) => w.(clients := CommitProfile(w.clients, id, data))
    case Disconnect(id) => w.(clients := w.clients - {id})
  }

  /** The rest of the section that began in `w`, with the table and the sockets as they are in `x` by then.
      What the first access returned comes from `w`: in a join the newcomer's payload was cloned by
      `set_room`, while the snapshot is only taken now. */
  ghost function Rest(w: World, step: Step, x: World): World
    requires IsWriteSection(step) && Possible(w, step)
  {
    match step
    case JoinBegin(join, id, room, token, claim) =>
      x.(clients := TakeRoom(x.clients, id), net := PerformAll(x.net, LeaveEffects(id, RoomOf(x.clients, id))),
         joins := x.joins[join := PendingJoin(id, room, token, claim)])
    case JoinCommit(join, total, displaced) =>
      if Commits(w, join, total) then
        var j := w.joins[join];
        x.(net := PerformAll(x.net, ArrivalEffects(w.clients, j, displaced, Snapshot(x.clients, j.room))))
      else x
    case LeaveSpace(id, room, claim) =>
      if ClearsRoom(x.clients, id, room, claim) then
        x.(clients := TakeRoom(x.clients, id), net := PerformAll(x.net, LeaveEffects(id, Some(room))))
      else x
    case SetUserData(id, data, displaced) =>
      if w.clients[id].room.None? then x
      else
        var info := CommitProfile(w.clients, id, data)[id].info;
        x.(net := PerformAll(x.net, ProfileEffects(w.clients[id].room.value, id, info, displaced)))
    case Disconnect(id) =>
      if RoomOf(w.clients, id).None? then x
      else x.(net := Perform(x.net, Emit(Within(w.clients[id].room.value), Delete(id))))
  }

  /** The effects of a committing join, for whatever snapshot is taken. */
  ghost function ArrivalEffects(cs: Clients, j: PendingJoin, displaced: seq<Sid>, snapshot: map<Sid, Info>): seq<Effect>
    requires j.id in cs
  {
    LeaveEffects(j.id, if cs[j.id].room == Some(j.room) then None else cs[j.id].room)
    + EvictEffects(j.room, displaced)
    + ArriveEffects(j.id, j.room, j.claim, snapshot, cs[j.id].info)
  }

  /** A step during which some others land. */
  ghost function During(w: World, step: Step, landed: seq<Step>): World {
    if IsWriteSection(step) && Possible(w, step) then Rest(w, step, Exec(First(w, step), landed))
    else Exec(Apply(w, step), landed)
  }

  /** With nothing in between the two halves are the step. */
  lemma HalvesMakeTheStep(w: World, step: Step)
    requires IsWriteSection(step) && Possible(w, step)
    ensures Rest(w, step, First(w, step)) == Next(w, step)
  {
    hide PerformAll, LeaveEffects, EvictEffects, ArriveEffects, ProfileEffects, CommitRoom, CommitProfile, Enumerates,
         Snapshot, ApplyToken;
    if step.JoinBegin? || step.LeaveSpace? {
      NotingKeepsRoom(w.clients, step.id, step.claim);
    }
  }

  lemma NotingKeepsRoom(cs: Clients, id: Sid, claim: Option<nat>)
    ensures RoomOf(NoteClaim(cs, id, claim), id) == RoomOf(cs, id)
  {
  }

  // ------------------------------------------------------- a new socket lands

  function Opened(net: Net, id: Sid): Net {
    net.(live := net.live + {id}, inbox := net.inbox[id := []])
  }

  predicate Addresses(e: Effect, id: Sid) {
    (e.Join? && e.id == id) || (e.Emit? && e.dest == Only(id))
  }

  ghost predicate Stranger(net: Net, id: Sid) {
    id !in net.inbox && forall r: RoomId :: (id, r) !in net.joined
  }

  lemma PerformOpened(net: Net, e: Effect, id: Sid)
    requires Stranger(net, id) && !Addresses(e, id)
    ensures Stranger(Perform(net, e), id) && Perform(Opened(net, id), e) == Opened(Perform(net, e), id)
  {
  }

  lemma {:induction false} PerformAllOpened(net: Net, es: seq<Effect>, id: Sid)
    requires Stranger(net, id) && forall e :: e in es ==> !Addresses(e, id)
    ensures Stranger(PerformAll(net, es), id) && PerformAll(Opened(net, id), es) == Opened(PerformAll(net, es), id)
  {
    hide Stranger, Opened, Perform, Addresses;
    if es != [] {
      var n := |es| - 1;
      assert forall e :: e in es[..n] ==> e in es;
      PerformAllOpened(net, es[..n], id);
      assert es[n] in es;
      PerformOpened(PerformAll(net, es[..n]), es[n], id);
    }
  }

  lemma {:induction false} GoodbyesAddress(room: RoomId, displaced: seq<Sid>, id: Sid)
    requires id !in displaced
    ensures forall e :: e in Goodbyes(room, displaced) ==> !Addresses(e, id)
    ensures forall e :: e in Removals(room, displaced) ==> !Addresses(e, id)
  {
    if displaced != [] {
      GoodbyesAddress(room, displaced[..|displaced| - 1], id);
    }
  }

  lemma EvictionAddresses(room: RoomId, displaced: seq<Sid>, id: Sid)
    requires id !in displaced
    ensures forall e :: e in EvictEffects(room, displaced) ==> !Addresses(e, id)
  {
    hide Goodbyes, Removals, Addresses;
    GoodbyesAddress(room, displaced, id);
  }

  lemma ArrivalAddresses(cs: Clients, j: PendingJoin, displaced: seq<Sid>, snapshot: map<Sid, Info>, id: Sid)
    requires j.id in cs && id != j.id && id !in displaced
    ensures forall e :: e in ArrivalEffects(cs, j, displaced, snapshot) ==> !Addresses(e, id)
  {
    hide EvictEffects;
    EvictionAddresses(j.room, displaced, id);
  }

  lemma ProfileAddresses(room: RoomId, p: Sid, info: Info, displaced: seq<Sid>, id: Sid)
    requires id !in displaced
    ensures forall e :: e in ProfileEffects(room, p, info, displaced) ==> !Addresses(e, id)
  {
    hide EvictEffects;
    EvictionAddresses(room, displaced, id);
  }

  /** What holds between the halves: nobody is gone, except in a disconnect, and no unknown socket has
      joined an adapter room. */
  ghost predicate Between(w: World, step: Step, x: World) {
    && (step.Disconnect? || w.clients.Keys <= x.clients.Keys)
    && forall q :: q in x.net.joined ==> q.0 in x.net.inbox
  }

  lemma FirstIsBetween(w: World, step: Step)
    requires IsWriteSection(step) && Possible(w, step) && forall q :: q in w.net.joined ==> q.0 in w.net.inbox
    ensures Between(w, step, First(w, step))
  {
  }

  lemma RestKeepsIds(w: World, step: Step, x: World)
    requires IsWriteSection(step) && Possible(w, step)
    ensures Rest(w, step, x).clients.Keys == x.clients.Keys
    ensures Rest(w, step, x).net.inbox.Keys == x.net.inbox.Keys
  {
    hide PerformAll, LeaveEffects, ArrivalEffects, ProfileEffects, CommitProfile, Enumerates;
    forall es ensures PerformAll(x.net, es).inbox.Keys == x.net.inbox.Keys {
      Navigation.PerformKeepsIds(x.net, es);
    }
  }

  lemma StrangerSnapshot(cs: Clients, id: Sid, room: RoomId)
    requires id !in cs
    ensures Snapshot(cs[id := NEW_RECORD], room) == Snapshot(cs, room)
  {
  }

  lemma StrangerLeaves(cs: Clients, id: Sid, p: Sid)
    requires id !in cs && p in cs
    ensures TakeRoom(cs[id := NEW_RECORD], p) == TakeRoom(cs, p)[id := NEW_RECORD]
  {
  }

  lemma ConnectLands(w: World, step: Step, x: World, id: Sid)
    requires IsWriteSection(step) && Possible(w, step) && Between(w, step, x)
    requires Possible(x, Connect(id))
    ensures Rest(w, step, Apply(x, Connect(id))) == Apply(Rest(w, step, x), Connect(id))
  {
    hide PerformAll, LeaveEffects, ArrivalEffects, ProfileEffects, CommitProfile, TakeRoom, Snapshot, Addresses;
    RestKeepsIds(w, step, x);
    assert Stranger(x.net, id);
    match step {
      case JoinBegin(_, p, _, _, _) =>
        LeavingAddresses(p, RoomOf(x.clients, p), id);
        PerformAllOpened(x.net, LeaveEffects(p, RoomOf(x.clients, p)), id);
        StrangerLeaves(x.clients, id, p);
      case LeaveSpace(p, room, _) =>
        LeavingAddresses(p, Some(room), id);
        PerformAllOpened(x.net, LeaveEffects(p, Some(room)), id);
        StrangerLeaves(x.clients, id, p);
      case JoinCommit(join, total, displaced) =>
        if Commits(w, join, total) {
          var j := w.joins[join];
          StrangerSnapshot(x.clients, id, j.room);
          ArrivalAddresses(w.clients, j, displaced, Snapshot(x.clients, j.room), id);
          PerformAllOpened(x.net, ArrivalEffects(w.clients, j, displaced, Snapshot(x.clients, j.room)), id);
        }
      case SetUserData(p, data, displaced) =>
        if w.clients[p].room.Some? {
          ProfileKeepsRecord(w.clients, p, data);
          var info := CommitProfile(w.clients, p, data)[p].info;
          ProfileAddresses(w.clients[p].room.value, p, info, displaced, id);
          PerformAllOpened(x.net, ProfileEffects(w.clients[p].room.value, p, info, displaced), id);
        }
      case Disconnect(p) =>
        if RoomOf(w.clients, p).Some? {
          var e := Emit(Within(w.clients[p].room.value), Delete(p));
          assert !Addresses(e, id) by { RemovalAddresses(w.clients[p].room.value, p, id); }
          PerformOpened(x.net, e, id);
        }
    }
  }

  lemma RemovalAddresses(room: RoomId, p: Sid, id: Sid)
    ensures !Addresses(Emit(Within(room), Delete(p)), id)
  {
  }

  lemma LeavingAddresses(p: Sid, room: Option<RoomId>, id: Sid)
    ensures forall e :: e in LeaveEffects(p, room) ==> !Addresses(e, id)
  {
  }

  // ------------------------------------------------------------ a login lands

  lemma SnapshotsBarelyDiffer(cs: Clients, id: Sid, wallet: Wallet, room: RoomId)
    ensures BareEvent(ExistingClients(Snapshot(SetWalletOf(cs, id, wallet), room)))
            == BareEvent(ExistingClients(Snapshot(cs, room)))
  {
  }

  lemma ArrivalsAlike(cs: Clients, j: PendingJoin, displaced: seq<Sid>, a: map<Sid, Info>, b: map<Sid, Info>)
    requires j.id in cs && BareEvent(ExistingClients(a)) == BareEvent(ExistingClients(b))
    ensures AlikeEffects(ArrivalEffects(cs, j, displaced, a), ArrivalEffects(cs, j, displaced, b))
  {
    hide EvictEffects, LeaveEffects, BareEvent, Info.HasProfile;
  }

  lemma WalletLeaves(cs: Clients, id: Sid, wallet: Wallet, p: Sid)
    ensures TakeRoom(SetWalletOf(cs, id, wallet), p) == SetWalletOf(TakeRoom(cs, p), id, wallet)
    ensures RoomOf(SetWalletOf(cs, id, wallet), p) == RoomOf(cs, p)
  {
  }

  lemma AuthenticateIsSetWallet(w: World, id: Sid, wallet: Wallet)
    ensures Apply(w, Authenticate(id, wallet)) == w.(clients := SetWalletOf(w.clients, id, wallet))
  {
  }

  lemma AlikeSelf(net: Net)
    ensures AlikeNets(net, net)
  {
  }

  lemma LoginLands(w: World, step: Step, x: World, id: Sid, wallet: Wallet)
    requires IsWriteSection(step) && Possible(w, step)
    ensures Alike(Rest(w, step, Apply(x, Authenticate(id, wallet))), Apply(Rest(w, step, x), Authenticate(id, wallet)))
  {
    hide PerformAll, LeaveEffects, ArrivalEffects, ProfileEffects, CommitProfile, TakeRoom, Snapshot, SetWalletOf,
         AlikeNets, Apply, BareEvent;
    AuthenticateIsSetWallet(x, id, wallet);
    AuthenticateIsSetWallet(Rest(w, step, x), id, wallet);
    AlikeSelf(Rest(w, step, x).net);
    match step {
      case JoinBegin(_, p, _, _, _) => WalletLeaves(x.clients, id, wallet, p);
      case LeaveSpace(p, _, _) =>
        WalletLeaves(x.clients, id, wallet, p);
        WalletClears(x.clients, id, wallet, step);
      case JoinCommit(join, total, displaced) =>
        if Commits(w, join, total) {
          var j := w.joins[join];
          var a, b := Snapshot(SetWalletOf(x.clients, id, wallet), j.room), Snapshot(x.clients, j.room);
          SnapshotsBarelyDiffer(x.clients, id, wallet, j.room);
          ArrivalsAlike(w.clients, j, displaced, a, b);
          AlikeSelf(x.net);
          PerformAllAlike(x.net, x.net, ArrivalEffects(w.clients, j, displaced, a),
                          ArrivalEffects(w.clients, j, displaced, b));
        }
      case SetUserData(_, _, _) =>
      case Disconnect(_) =>
    }
  }

  lemma WalletClears(cs: Clients, id: Sid, wallet: Wallet, step: Step)
    requires step.LeaveSpace?
    ensures ClearsRoom(SetWalletOf(cs, id, wallet), step.id, step.room, step.claim)
            <==> ClearsRoom(cs, step.id, step.room, step.claim)
  {
  }

  // -------------------------------------------------------------- the reduction

  lemma OneLands(w: World, step: Step, x: World, l: Step)
    requires IsWriteSection(step) && Possible(w, step) && Between(w, step, x) && IsLockFree(l)
    ensures Alike(Rest(w, step, Apply(x, l)), Apply(Rest(w, step, x), l))
    ensures Between(w, step, Apply(x, l))
  {
    hide Rest, Alike, AlikeNets, Possible;
    if l.Authenticate? {
      LoginLands(w, step, x, l.id, l.wallet);
      AuthenticateIsSetWallet(x, l.id, l.wallet);
    } else if Possible(x, l) {
      ConnectLands(w, step, x, l.id);
      AlikeWorld(Rest(w, step, Apply(x, l)));
      ConnectKeepsBetween(w, step, x, l.id);
    } else {
      RestKeepsIds(w, step, x);
      KnownStays(x, Rest(w, step, x), l);
      AlikeWorld(Rest(w, step, x));
    }
  }

  lemma AlikeWorld(w: World)
    ensures Alike(w, w)
  {
  }

  lemma ConnectKeepsBetween(w: World, step: Step, x: World, id: Sid)
    requires Between(w, step, x) && Possible(x, Connect(id))
    ensures Between(w, step, Apply(x, Connect(id)))
  {
  }

  lemma KnownStays(x: World, y: World, l: Step)
    requires l.Connect? && !Possible(x, l) && y.clients.Keys == x.clients.Keys && y.net.inbox.Keys == x.net.inbox.Keys
    ensures Apply(x, l) == x && Apply(y, l) == y
  {
  }

  /** Whatever lands inside a write section may as well come after it. */
  lemma {:induction false} LandingsCommute(w: World, step: Step, landed: seq<Step>)
    requires IsWriteSection(step) && Possible(w, step) && forall q :: q in w.net.joined ==> q.0 in w.net.inbox
    requires forall l :: l in landed ==> IsLockFree(l)
    ensures Between(w, step, Exec(First(w, step), landed))
    ensures Alike(Rest(w, step, Exec(First(w, step), landed)), Exec(Next(w, step), landed))
    decreases |landed|
  {
    hide First, Rest, Next, Possible, Alike, Between, Apply, IsLockFree;
    if landed == [] {
      FirstIsBetween(w, step);
      HalvesMakeTheStep(w, step);
      AlikeWorld(Next(w, step));
    } else {
      var n := |landed| - 1;
      var before, l := landed[..n], landed[n];
      assert forall l :: l in before ==> l in landed;
      LandingsCommute(w, step, before);
      assert l in landed;
      var x, after := Exec(First(w, step), before), Exec(Next(w, step), before);
      OneLands(w, step, x, l);
      StepsAlike(Rest(w, step, x), after, l);
      AlikeTrans(Rest(w, step, Apply(x, l)), Apply(Rest(w, step, x), l), Apply(after, l));
    }
  }

  // ----------------------------------------------------------- a login before

  lemma WalletDuplicates(cs: Clients, id: Sid, wallet: Wallet, p: Sid, room: RoomId, token: Option<Token>)
    ensures Duplicates(SetWalletOf(cs, id, wallet), p, room, token) == Duplicates(cs, p, room, token)
  {
  }

  lemma WalletCommits(cs: Clients, id: Sid, wallet: Wallet, j: PendingJoin)
    requires j.id in cs
    ensures var cs' := SetWalletOf(cs, id, wallet);
            && j.id in cs'
            && CommitDuplicates(cs', j.id, j.room, j.token) == CommitDuplicates(cs, j.id, j.room, j.token)
            && CommitRoom(cs', j.id, j.room, j.token) == SetWalletOf(CommitRoom(cs, j.id, j.room, j.token), id, wallet)
  {
    hide ApplyToken;
    WalletDuplicates(cs, id, wallet, j.id, j.room, ApplyToken(cs[j.id].token, j.token));
  }

  lemma WalletProfiles(cs: Clients, id: Sid, wallet: Wallet, p: Sid, data: UserData)
    requires p in cs
    ensures var cs' := SetWalletOf(cs, id, wallet);
            && p in cs'
            && ProfileDuplicates(cs', p, data) == ProfileDuplicates(cs, p, data)
            && CommitProfile(cs', p, data) == SetWalletOf(CommitProfile(cs, p, data), id, wallet)
  {
    hide ApplyToken, Truncate, Trim, SanitizeHeightScale;
    if cs[p].room.Some? {
      WalletDuplicates(cs, id, wallet, p, cs[p].room.value, ApplyToken(cs[p].token, data.token));
    }
  }

  lemma WalletKeepsRecord(cs: Clients, id: Sid, wallet: Wallet, p: Sid)
    ensures var cs' := SetWalletOf(cs, id, wallet);
            && cs'.Keys == cs.Keys && RoomOf(cs', p) == RoomOf(cs, p)
            && (p in cs ==>
                  && cs'[p].latestClaim == cs[p].latestClaim && cs'[p].room == cs[p].room
                  && WithoutWallet(cs'[p].info) == WithoutWallet(cs[p].info))
  {
  }

  lemma LoginKeepsPossible(w: World, step: Step, id: Sid, wallet: Wallet)
    requires IsWriteSection(step)
    ensures Possible(Apply(w, Authenticate(id, wallet)), step) <==> Possible(w, step)
    ensures step.JoinCommit? ==>
      (Commits(Apply(w, Authenticate(id, wallet)), step.join, step.totalSpaces) <==> Commits(w, step.join, step.totalSpaces))
  {
    hide Apply, SetWalletOf, CommitDuplicates, ProfileDuplicates, Enumerates, CommitRoom, CommitProfile;
    AuthenticateIsSetWallet(w, id, wallet);
    match step {
      case JoinBegin(_, p, _, _, _) => WalletKeepsRecord(w.clients, id, wallet, p);
      case LeaveSpace(p, _, _) => WalletKeepsRecord(w.clients, id, wallet, p);
      case SetUserData(p, data, _) =>
        WalletKeepsRecord(w.clients, id, wallet, p);
        if p in w.clients {
          WalletProfiles(w.clients, id, wallet, p, data);
        }
      case JoinCommit(join, _, _) =>
        if join in w.joins {
          WalletKeepsRecord(w.clients, id, wallet, w.joins[join].id);
          if w.joins[join].id in w.clients {
            WalletCommits(w.clients, id, wallet, w.joins[join]);
          }
        }
      case Disconnect(_) =>
    }
  }

  lemma WalletNotes(cs: Clients, id: Sid, wallet: Wallet, p: Sid, claim: Option<nat>)
    ensures NoteClaim(SetWalletOf(cs, id, wallet), p, claim) == SetWalletOf(NoteClaim(cs, p, claim), id, wallet)
  {
  }

  lemma LoginThenFirst(w: World, step: Step, id: Sid, wallet: Wallet)
    requires var v := Apply(w, Authenticate(id, wallet));
             IsWriteSection(step) && Possible(w, step) && Possible(v, step)
    ensures var v := Apply(w, Authenticate(id, wallet));
            First(v, step) == Apply(First(w, step), Authenticate(id, wallet))
  {
    hide Apply, SetWalletOf, Possible, Commits, CommitRoom, CommitProfile, NoteClaim;
    LoginKeepsPossible(w, step, id, wallet);
    AuthenticateIsSetWallet(w, id, wallet);
    AuthenticateIsSetWallet(First(w, step), id, wallet);
    CommitterIsKnown(w, step);
    match step {
      case JoinBegin(_, p, _, _, claim) => WalletNotes(w.clients, id, wallet, p, claim);
      case LeaveSpace(p, _, claim) => WalletNotes(w.clients, id, wallet, p, claim);
      case SetUserData(p, data, _) => WalletProfiles(w.clients, id, wallet, p, data);
      case JoinCommit(join, total, _) =>
        if Commits(w, join, total) {
          WalletCommits(w.clients, id, wallet, w.joins[join]);
        }
      case Disconnect(p) =>
        assert SetWalletOf(w.clients, id, wallet) - {p} == SetWalletOf(w.clients - {p}, id, wallet) by {
          WalletRemoves(w.clients, id, wallet, p);
        }
    }
  }

  lemma WalletRemoves(cs: Clients, id: Sid, wallet: Wallet, p: Sid)
    ensures SetWalletOf(cs, id, wallet) - {p} == SetWalletOf(cs - {p}, id, wallet)
  {
  }

  lemma CommitterIsKnown(w: World, step: Step)
    requires Possible(w, step)
    ensures step.SetUserData? ==> step.id in w.clients
    ensures step.JoinCommit? ==> step.join in w.joins
    ensures step.JoinCommit? && Commits(w, step.join, step.totalSpaces) ==> w.joins[step.join].id in w.clients
  {
  }

  lemma ArrivalOfBare(cs: Clients, cs': Clients, j: PendingJoin, displaced: seq<Sid>, snapshot: map<Sid, Info>)
    requires j.id in cs && j.id in cs' && cs'[j.id].room == cs[j.id].room
    requires WithoutWallet(cs'[j.id].info) == WithoutWallet(cs[j.id].info)
    ensures AlikeEffects(ArrivalEffects(cs', j, displaced, snapshot), ArrivalEffects(cs, j, displaced, snapshot))
  {
    hide EvictEffects, LeaveEffects;
  }

  lemma ProfileOfBare(room: RoomId, p: Sid, a: Info, b: Info, displaced: seq<Sid>)
    requires WithoutWallet(a) == WithoutWallet(b)
    ensures AlikeEffects(ProfileEffects(room, p, a, displaced), ProfileEffects(room, p, b, displaced))
  {
    hide EvictEffects;
  }

  lemma LoginThenRest(w: World, step: Step, x: World, id: Sid, wallet: Wallet)
    requires var v := Apply(w, Authenticate(id, wallet));
             IsWriteSection(step) && Possible(w, step) && Possible(v, step)
    ensures Alike(Rest(Apply(w, Authenticate(id, wallet)), step, x), Rest(w, step, x))
  {
    hide Apply, SetWalletOf, Possible, Commits, CommitProfile, AlikeNets, ArrivalEffects, ProfileEffects, PerformAll,
         LeaveEffects, TakeRoom, Perform;
    LoginKeepsPossible(w, step, id, wallet);
    AuthenticateIsSetWallet(w, id, wallet);
    CommitterIsKnown(w, step);
    AlikeSelf(x.net);
    AlikeSelf(Rest(w, step, x).net);
    match step {
      case JoinBegin(_, _, _, _, _) =>
      case LeaveSpace(_, _, _) =>
      case JoinCommit(join, total, displaced) =>
        if Commits(w, join, total) {
          var j, snapshot := w.joins[join], Snapshot(x.clients, w.joins[join].room);
          WalletKeepsRecord(w.clients, id, wallet, j.id);
          ArrivalOfBare(w.clients, SetWalletOf(w.clients, id, wallet), j, displaced, snapshot);
          PerformAllAlike(x.net, x.net, ArrivalEffects(SetWalletOf(w.clients, id, wallet), j, displaced, snapshot),
                          ArrivalEffects(w.clients, j, displaced, snapshot));
        }
      case SetUserData(p, data, displaced) =>
        WalletKeepsRecord(w.clients, id, wallet, p);
        if w.clients[p].room.Some? {
          var room, cs, cs' := w.clients[p].room.value, w.clients, SetWalletOf(w.clients, id, wallet);
          WalletProfiles(cs, id, wallet, p, data);
          ProfileKeepsRecord(cs, p, data);
          ProfileKeepsRecord(cs', p, data);
          var a, b := CommitProfile(cs', p, data)[p].info, CommitProfile(cs, p, data)[p].info;
          WalletKeepsRecord(CommitProfile(cs, p, data), id, wallet, p);
          ProfileOfBare(room, p, a, b, displaced);
          PerformAllAlike(x.net, x.net, ProfileEffects(room, p, a, displaced), ProfileEffects(room, p, b, displaced));
        }
      case Disconnect(p) => WalletKeepsRecord(w.clients, id, wallet, p);
    }
  }

  lemma ProfileKeepsRecord(cs: Clients, p: Sid, data: UserData)
    requires p in cs
    ensures p in CommitProfile(cs, p, data)
  {
  }

  lemma LoginBefore(w: World, step: Step, id: Sid, wallet: Wallet)
    requires IsWriteSection(step) && Possible(w, step)
    ensures Alike(Apply(Apply(w, Authenticate(id, wallet)), step), Apply(Apply(w, step), Authenticate(id, wallet)))
  {
    hide Apply, First, Rest, Next, Possible, Alike, AlikeNets;
    var l := Authenticate(id, wallet);
    var v := Apply(w, l);
    LoginKeepsPossible(w, step, id, wallet);
    AppliesPossible(w, step);
    AppliesPossible(v, step);
    HalvesMakeTheStep(w, step);
    HalvesMakeTheStep(v, step);
    LoginThenFirst(w, step, id, wallet);
    LoginThenRest(w, step, First(v, step), id, wallet);
    LoginLands(w, step, First(w, step), id, wallet);
    AlikeTrans(Next(v, step), Rest(w, step, First(v, step)), Apply(Next(w, step), l));
  }

  /** `authenticate` commutes with every write section: a login that lands before, inside or after it leaves
      the same table, joins and guards, and everything sent is the same but for wallets. */
  lemma AuthenticateCommutes(w: World, step: Step, id: Sid, wallet: Wallet)
    requires IsWriteSection(step) && forall q :: q in w.net.joined ==> q.0 in w.net.inbox
    ensures var after := Apply(Apply(w, step), Authenticate(id, wallet));
            && Alike(During(w, step, [Authenticate(id, wallet)]), after)
            && Alike(Apply(Apply(w, Authenticate(id, wallet)), step), after)
  {
    hide Rest, First, Next, Possible, Alike, AlikeNets, Apply;
    var l := Authenticate(id, wallet);
    ExecOne(Apply(w, step), l);
    AlikeWorld(Apply(Apply(w, step), l));
    LoginKeepsPossible(w, step, id, wallet);
    if Possible(w, step) {
      LandingsCommute(w, step, [l]);
      AppliesPossible(w, step);
      LoginBefore(w, step, id, wallet);
    } else {
      ImpossibleIsNothing(w, step);
      ImpossibleIsNothing(Apply(w, l), step);
    }
  }

  lemma AppliesPossible(w: World, step: Step)
    requires Possible(w, step)
    ensures Apply(w, step) == Next(w, step)
  {
  }

  lemma ImpossibleIsNothing(w: World, step: Step)
    requires !Possible(w, step)
    ensures Apply(w, step) == w
  {
  }

  lemma ExecOne(w: World, step: Step)
    ensures Exec(w, [step]) == Apply(w, step)
  {
    hide Apply;
    assert [step][..0] == [];
  }

  // ------------------------------------------------------------------ whole runs

  /** A step and what lands while it runs. */
  datatype Act = Act(step: Step, landed: seq<Step>)

  ghost function Play(w: World, acts: seq<Act>): World {
    if acts == [] then w else During(Play(w, acts[..|acts| - 1]), acts[|acts| - 1].step, acts[|acts| - 1].landed)
  }

  /** The run of whole steps, with everything that landed in a step put after it. */
  function Flatten(acts: seq<Act>): seq<Step> {
    if acts == [] then []
    else Flatten(acts[..|acts| - 1]) + [acts[|acts| - 1].step] + acts[|acts| - 1].landed
  }

  predicate OnlyLockFree(acts: seq<Act>) {
    forall i, l :: 0 <= i < |acts| && l in acts[i].landed ==> IsLockFree(l)
  }

  lemma {:induction false} ExecConcat(w: World, a: seq<Step>, b: seq<Step>)
    ensures Exec(w, a + b) == Exec(Exec(w, a), b)
    decreases |b|
  {
    hide Apply;
    if b == [] {
      assert a + b == a;
    } else {
      var n := |b| - 1;
      assert (a + b)[..|a + b| - 1] == a + b[..n];
      ExecConcat(w, a, b[..n]);
    }
  }

  lemma {:induction false} ExecAlike(w: World, v: World, steps: seq<Step>)
    requires Alike(w, v)
    ensures Alike(Exec(w, steps), Exec(v, steps))
  {
    hide Apply, Alike;
    if steps != [] {
      var n := |steps| - 1;
      ExecAlike(w, v, steps[..n]);
      StepsAlike(Exec(w, steps[..n]), Exec(v, steps[..n]), steps[n]);
    }
  }

  lemma JoinedAreKnown(w: World, v: World)
    requires Alike(w, v) && Consistent(v)
    ensures forall q :: q in w.net.joined ==> q.0 in w.net.inbox
  {
  }

  lemma DuringIsAfter(w: World, step: Step, landed: seq<Step>)
    requires forall q :: q in w.net.joined ==> q.0 in w.net.inbox
    requires forall l :: l in landed ==> IsLockFree(l)
    ensures Alike(During(w, step, landed), Exec(Apply(w, step), landed))
  {
    hide Rest, First, Next, Possible, Alike, Apply, IsLockFree, IsWriteSection;
    if IsWriteSection(step) && Possible(w, step) {
      LandingsCommute(w, step, landed);
      AppliesPossible(w, step);
    } else {
      AlikeWorld(Exec(Apply(w, step), landed));
    }
  }

  /** The reduction, over whole runs: a run in which sockets connect and logins succeed at any point inside
      any write sections ends in the world of a run whose sections are whole, up to wallets in what was
      sent. */
  lemma {:induction false} RunsReduce(acts: seq<Act>)
    requires OnlyLockFree(acts)
    ensures Alike(Play(START, acts), Run(Flatten(acts)))
  {
    hide During, Alike, Exec, IsLockFree;
    if acts == [] {
      AlikeWorld(START);
      assert Exec(START, []) == START by { NothingDone(START); }
    } else {
      var n := |acts| - 1;
      var (before, step, landed) := (acts[..n], acts[n].step, acts[n].landed);
      RunsReduce(before);
      var w, v := Play(START, before), Run(Flatten(before));
      RunIsConsistent(Flatten(before));
      JoinedAreKnown(w, v);
      DuringIsAfter(w, step, landed);
      ExecConcat(START, Flatten(before), [step] + landed);
      ExecConcat(v, [step], landed);
      ExecOne(v, step);
      assert Flatten(before) + ([step] + landed) == Flatten(acts);
      ExecAlike(w, v, [step] + landed);
      ExecConcat(w, [step], landed);
      ExecOne(w, step);
      AlikeTrans(During(w, step, landed), Exec(Apply(w, step), landed), Run(Flatten(acts)));
    }
  }

  lemma NothingDone(w: World)
    ensures Exec(w, []) == w
  {
  }

  /** So the invariant of the protocol, and with it membership and the order of every stream, holds in those
      runs too; and views converge in them under the same condition. */
  lemma InterruptedRunsConverge(acts: seq<Act>, o: Sid, room: RoomId)
    requires OnlyLockFree(acts)
    ensures Consistent(Play(START, acts))
    ensures FiniteGotos(Flatten(acts)) && o in Play(START, acts).net.live
            && RoomOf(Play(START, acts).clients, o) == Some(room) ==>
              && o in Play(START, acts).net.inbox
              && Converged(Play(START, acts), o, room, ViewOf(Play(START, acts).net.inbox[o]))
  {
    hide Play, Flatten, OnlyLockFree, Consistent, Run, AlikeEvents, ReadingOf, FiniteGotos;
    RunsReduce(acts);
    var w, v := Play(START, acts), Run(Flatten(acts));
    RunIsConsistent(Flatten(acts));
    ConsistentAlike(w, v);
    if FiniteGotos(Flatten(acts)) && o in w.net.live && RoomOf(w.clients, o) == Some(room) {
      ViewsConverge(Flatten(acts), o, room);
      ReadingsAlike(w.net.inbox[o], v.net.inbox[o]);
      ReadingHasView(w.net.inbox[o]);
      ReadingHasView(v.net.inbox[o]);
    }
  }
}
