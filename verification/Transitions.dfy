/** What the events that move clients between rooms, or change how they are known, do: to the record of the
    client, to every other record, and to what every socket receives, said of every reachable world and
    without the functions that compute it. */
module Transitions {
  import opened Common
  import opened Motion
  import opened Presence
  import opened Network
  import opened Views
  import opened Protocol
  import opened Convergence
  import opened Decoding
  import opened Movement
  import opened Payloads

  /** A live socket in `room`. */
  ghost predicate LiveIn(w: World, o: Sid, room: RoomId) {
    o in w.net.live && o in w.clients && w.clients[o].room == Some(room)
  }

  /** Another live socket in the room `id` is in. */
  ghost predicate Neighbour(w: World, id: Sid, o: Sid) {
    o != id && id in w.clients && w.clients[id].room.Some? && LiveIn(w, o, w.clients[id].room.value)
  }

  /** Between `w` and `w'` the socket `o` received exactly `events`. */
  ghost predicate Told(w: World, w': World, o: Sid, events: seq<Event>) {
    o in w.net.inbox && o in w'.net.inbox && w'.net.inbox[o] == w.net.inbox[o] + events
  }

  ghost predicate OthersAsBefore(w: World, w': World, id: Sid) {
    forall p :: p != id ==> (p in w'.clients <==> p in w.clients) && (p in w.clients ==> w'.clients[p] == w.clients[p])
  }

  /** No guard is held and the claim is not older than the latest one of the socket; without a claim there
      must not have been any. */
  ghost predicate Admits(w: World, id: Sid, claim: Option<nat>) {
    && w.readers == map[] && id in w.clients
    && match claim
       case Some(c) => w.clients[id].latestClaim <= c
       case None => w.clients[id].latestClaim == 0
  }

  function LatestAfter(latest: nat, claim: Option<nat>): nat {
    if claim.Some? then claim.value else latest
  }

  // ------------------------------------------------------------- what is heard

  lemma JoinedIsMember(w: World, o: Sid, room: RoomId)
    requires Consistent(w)
    ensures o in w.net.live ==> o in w.clients && o in w.net.inbox && ((o, room) in w.net.joined <==> LiveIn(w, o, room))
    ensures o in w.clients ==> o in w.net.inbox
  {
    hide LogAgrees, OnePresence, GuardsOwe, Sees;
  }

  lemma DepartureTold(net: Net, id: Sid, room: Option<RoomId>, o: Sid)
    requires o in net.inbox
    ensures var net' := PerformAll(net, LeaveEffects(id, room));
            && net'.live == net.live && net'.inbox.Keys == net.inbox.Keys
            && net'.joined == (if room.Some? then net.joined - {(id, room.value)} else net.joined)
            && net'.inbox[o] == net.inbox[o]
                 + if room.Some? && o in net.live && o != id && (o, room.value) in net.joined then [Delete(id)] else []
  {
    if room.Some? {
      PerformTwo(net, Leave(id, room.value), Emit(Others(room.value, id), Delete(id)));
    }
  }

  function DeletesOf(displaced: seq<Sid>): seq<Event> {
    if displaced == [] then [] else [Delete(displaced[0])]
  }

  lemma EvictionTold(net: Net, room: RoomId, displaced: seq<Sid>, o: Sid)
    requires o in net.inbox && |displaced| <= 1
    ensures var net' := PerformAll(net, EvictEffects(room, displaced));
            && net'.live == net.live && net'.inbox.Keys == net.inbox.Keys
            && net'.joined == (if displaced == [] then net.joined else net.joined - {(displaced[0], room)})
            && net'.inbox[o] == net.inbox[o]
                 + if o !in net.live then []
                   else if o in displaced then [PresenceSuperseded(room)]
                   else if (o, room) in net.joined then DeletesOf(displaced) else []
  {
    if displaced == [] {
      assert EvictEffects(room, []) == [];
    } else {
      var d := displaced[0];
      assert displaced == [d];
      EvictOne(room, d);
      PerformConcat(net, [Emit(Only(d), PresenceSuperseded(room))], [Leave(d, room), Emit(Within(room), Delete(d))]);
      PerformOne(net, Emit(Only(d), PresenceSuperseded(room)));
      PerformTwo(Perform(net, Emit(Only(d), PresenceSuperseded(room))), Leave(d, room), Emit(Within(room), Delete(d)));
    }
  }

  lemma ArrivalTold(net: Net, id: Sid, room: RoomId, claim: Option<nat>, snapshot: map<Sid, Info>, info: Info, o: Sid)
    requires o in net.inbox
    ensures var net' := PerformAll(net, ArriveEffects(id, room, claim, snapshot, info));
            && net'.live == net.live && net'.inbox.Keys == net.inbox.Keys
            && net'.joined == net.joined + {(id, room)}
            && net'.inbox[o] == net.inbox[o]
                 + if o !in net.live then []
                   else if o == id then [ExistingClients(snapshot), PresenceReady(room, claim)]
                   else if (o, room) in net.joined && (info.nickname != "" || info.avatar != "") then [NewUser(id, info)]
                   else []
  {
    hide PerformAll, ArriveEffects;
    ArrivalPerformed(net, id, room, claim, snapshot, info);
  }

  // -------------------------------------------------------------- connecting

  /** A new socket has a record with nothing in it, and has heard nothing. */
  lemma ConnectAnswers(w: World, id: Sid)
    requires id !in w.net.inbox && id !in w.clients
    ensures var w' := Apply(w, Connect(id));
            && OthersAsBefore(w, w', id) && id in w'.clients
            && w'.clients[id] == ClientRecord(Info(Vec3(0.0, 0.0, 0.0), Fin(0.0), "", None, "", None),
                                              None, None, None, 0, 0, 0, None)
            && w'.net.live == w.net.live + {id} && w'.net.inbox == w.net.inbox[id := []]
            && w'.net.joined == w.net.joined && w'.joins == w.joins && w'.readers == w.readers
  {
  }

  // -------------------------------------------------------- beginning to join

  /** Phase 1 of a join, when admitted: the client is in no room, does not move, and remembers the claim; the
      request is kept as it was made; whoever was with the client in its room, and nobody else, is told.
      Otherwise nothing happens at all. */
  lemma JoinBeginAnswers(steps: seq<Step>, join: nat, id: Sid, room: RoomId, token: Option<string>, claim: Option<nat>)
    ensures var w, w' := Run(steps), Apply(Run(steps), JoinBegin(join, id, room, token, claim));
            if Admits(w, id, claim) && join !in w.joins then
              && id in w'.clients
              && w'.clients[id] == w.clients[id].(room := None, motion := None,
                                                  latestClaim := LatestAfter(w.clients[id].latestClaim, claim))
              && OthersAsBefore(w, w', id)
              && w'.joins == w.joins[join := PendingJoin(id, room, token, claim)] && w'.readers == map[]
              && (forall o :: o in w.net.inbox ==> Told(w, w', o, if Neighbour(w, id, o) then [Delete(id)] else []))
              && (forall r: RoomId :: id in w.net.live ==> (id, r) !in w'.net.joined)
            else w' == w
  {
    hide Run, Consistent, PerformAll, LeaveEffects;
    RunIsConsistent(steps);
    var w, w' := Run(steps), Apply(Run(steps), JoinBegin(join, id, room, token, claim));
    if Admits(w, id, claim) && join !in w.joins {
      forall o | o in w.net.inbox ensures Told(w, w', o, if Neighbour(w, id, o) then [Delete(id)] else []) {
        DepartureHeard(w, id, w.clients[id].room, o);
      }
      JoinedIsMember(w, id, 0);
      DepartureTold(w.net, id, w.clients[id].room, id);
      forall r: RoomId | id in w.net.live ensures (id, r) !in w'.net.joined {
        JoinedIsMember(w, id, r);
      }
    }
  }

  lemma DepartureHeard(w: World, id: Sid, room: Option<RoomId>, o: Sid)
    requires Consistent(w) && id in w.clients && w.clients[id].room == room && o in w.net.inbox
    ensures var net' := PerformAll(w.net, LeaveEffects(id, room));
            o in net'.inbox && net'.inbox[o] == w.net.inbox[o] + if Neighbour(w, id, o) then [Delete(id)] else []
  {
    hide Consistent, PerformAll, LeaveEffects;
    DepartureTold(w.net, id, room, o);
    if room.Some? {
      JoinedIsMember(w, o, room.value);
    }
  }

  // ------------------------------------------------------------------ leaving

  /** A leave, when admitted: it names the room the client is in, and then the client is in none, does not
      move, and its neighbours are told; or it names another, and only the claim is remembered. */
  lemma LeaveAnswers(steps: seq<Step>, id: Sid, room: RoomId, claim: Option<nat>)
    ensures var w, w' := Run(steps), Apply(Run(steps), LeaveSpace(id, room, claim));
            if Admits(w, id, claim) then
              && id in w'.clients && OthersAsBefore(w, w', id) && w'.joins == w.joins && w'.readers == map[]
              && var rec := w.clients[id].(latestClaim := LatestAfter(w.clients[id].latestClaim, claim));
                 if w.clients[id].room == Some(room) then
                   && w'.clients[id] == rec.(room := None, motion := None)
                   && (forall o :: o in w.net.inbox ==> Told(w, w', o, if Neighbour(w, id, o) then [Delete(id)] else []))
                   && (forall r: RoomId :: id in w.net.live ==> (id, r) !in w'.net.joined)
                 else w'.clients[id] == rec && w'.net == w.net
            else w' == w
  {
    hide Run, Consistent, PerformAll, LeaveEffects;
    RunIsConsistent(steps);
    var w, w' := Run(steps), Apply(Run(steps), LeaveSpace(id, room, claim));
    if Admits(w, id, claim) && w.clients[id].room == Some(room) {
      forall o | o in w.net.inbox ensures Told(w, w', o, if Neighbour(w, id, o) then [Delete(id)] else []) {
        DepartureHeard(w, id, Some(room), o);
      }
      JoinedIsMember(w, id, room);
      DepartureTold(w.net, id, Some(room), id);
      forall r: RoomId | id in w.net.live ensures (id, r) !in w'.net.joined {
        JoinedIsMember(w, id, r);
      }
    }
  }

  /** A disconnect of a closed socket drops the record and tells the room it was in. */
  lemma DisconnectAnswers(steps: seq<Step>, id: Sid)
    ensures var w, w' := Run(steps), Apply(Run(steps), Disconnect(id));
            if w.readers == map[] && id !in w.net.live then
              && id !in w'.clients && OthersAsBefore(w, w', id) && w'.joins == w.joins && w'.readers == map[]
              && (forall o :: o in w.net.inbox ==> Told(w, w', o, if Neighbour(w, id, o) then [Delete(id)] else []))
              && w'.net.joined == w.net.joined && w'.net.live == w.net.live
            else w' == w
  {
    hide Run, Consistent;
    RunIsConsistent(steps);
    var w, w' := Run(steps), Apply(Run(steps), Disconnect(id));
    if w.readers == map[] && id !in w.net.live {
      forall o | o in w.net.inbox ensures Told(w, w', o, if Neighbour(w, id, o) then [Delete(id)] else []) {
        if RoomOf(w.clients, id).Some? {
          JoinedIsMember(w, o, w.clients[id].room.value);
        }
      }
    }
  }

  // ------------------------------------------------------------ joining a room

  /** Each other member of `room` with the same token, once. */
  ghost predicate Duplicate(w: World, id: Sid, room: RoomId, token: Option<Token>, p: Sid) {
    && p in w.clients && p != id && w.clients[p].room == Some(room)
    && token.Some? && w.clients[p].token == token
  }

  ghost predicate ListsDuplicates(w: World, id: Sid, room: RoomId, token: Option<Token>, displaced: seq<Sid>) {
    && (forall p :: p in displaced <==> Duplicate(w, id, room, token, p))
    && (forall i, j :: 0 <= i < j < |displaced| ==> displaced[i] != displaced[j])
  }

  /** Phase 2 of `join` goes through: no guard is held, the room exists, the client is still there, and its
      latest claim is the one of this join. */
  ghost predicate GoesThrough(w: World, join: nat, total: nat) {
    && w.readers == map[] && join in w.joins && 1 <= w.joins[join].room <= total
    && w.joins[join].id in w.clients
    && var latest := w.clients[w.joins[join].id].latestClaim;
       match w.joins[join].claim
       case Some(c) => c == latest
       case None => latest == 0
  }

  /** The record a join leaves behind. */
  ghost predicate Entered(rec: ClientRecord, room: RoomId, token: Option<Token>, rec': ClientRecord) {
    var stays := rec.room == Some(room);
    rec' == rec.(room := Some(room), token := token,
                 lastClientSeq := if stays then rec.lastClientSeq else 0,
                 serverSeq := if stays then rec.serverSeq else 0)
  }

  ghost predicate Evicted(w: World, w': World, displaced: seq<Sid>) {
    forall p :: p in displaced ==>
      p in w.clients && p in w'.clients && w'.clients[p] == w.clients[p].(room := None, motion := None)
  }

  /** The commits of the protocol are exactly these, with the list of duplicates as it must be. */
  lemma CommitIsPossible(w: World, join: nat, total: nat, displaced: seq<Sid>, token: Option<Token>)
    requires join in w.joins && w.joins[join].id in w.clients
    requires TokenAfter(w.clients[w.joins[join].id].token, w.joins[join].token, token)
    ensures Possible(w, JoinCommit(join, total, displaced)) && Commits(w, join, total)
            <==> GoesThrough(w, join, total)
                 && ListsDuplicates(w, w.joins[join].id, w.joins[join].room, token, displaced)
    ensures ApplyToken(w.clients[w.joins[join].id].token, w.joins[join].token) == token
  {
    hide TokenAfter, ApplyToken;
    var j := w.joins[join];
    TokensApply(w.clients[j.id].token, j.token);
    TokenIsSettled(w.clients[j.id].token, j.token, token, ApplyToken(w.clients[j.id].token, j.token));
    forall p ensures p in CommitDuplicates(w.clients, j.id, j.room, j.token) <==> Duplicate(w, j.id, j.room, token, p) {
    }
  }

  lemma CommittedTable(cs: Clients, j: PendingJoin, displaced: seq<Sid>)
    requires j.id in cs && Enumerates(displaced, CommitDuplicates(cs, j.id, j.room, j.token))
    ensures var cs' := CommitRoom(cs, j.id, j.room, j.token);
            && j.id !in displaced && cs'.Keys == cs.Keys && cs'[j.id] == EnterRoom(cs[j.id], j.room, j.token)
            && (forall p :: p in displaced ==> p in cs && cs[p].room == Some(j.room) && cs'[p] == Roomless(cs[p]))
            && (forall p :: p in cs && p != j.id && p !in displaced ==> cs'[p] == cs[p])
  {
    hide ApplyToken;
  }

  /** A join that goes through. The client is in the room, with the token it sent; every other member with
      that token, and nobody else, is out of the room and of its adapter room; all other records stay. */
  lemma JoinCommitAnswers(steps: seq<Step>, join: nat, total: nat, displaced: seq<Sid>, token: Option<Token>)
    requires var w := Run(steps);
             && GoesThrough(w, join, total)
             && var j := w.joins[join];
                && TokenAfter(w.clients[j.id].token, j.token, token)
                && ListsDuplicates(w, j.id, j.room, token, displaced)
    ensures var w, w' := Run(steps), Apply(Run(steps), JoinCommit(join, total, displaced));
            var j := w.joins[join];
            && j.id in w'.clients && Entered(w.clients[j.id], j.room, token, w'.clients[j.id])
            && Evicted(w, w', displaced) && w'.clients.Keys == w.clients.Keys
            && (forall p :: p in w.clients && p != j.id && p !in displaced ==> w'.clients[p] == w.clients[p])
            && w'.joins == w.joins - {join} && w'.readers == map[] && w'.net.live == w.net.live
            && (forall p, r: RoomId :: p in displaced && p in w.net.live ==> (p, r) !in w'.net.joined)
            && (j.id in w.net.live ==> (j.id, j.room) in w'.net.joined)
  {
    hide Run, Consistent, PerformAll, CommitEffects, CommitRoom, CommitDuplicates, TokenAfter, ApplyToken;
    var w, step := Run(steps), JoinCommit(join, total, displaced);
    var j := w.joins[join];
    CommitIsPossible(w, join, total, displaced, token);
    CommittedTable(w.clients, j, displaced);
    var w' := Apply(w, step);
    RunSnoc(steps, step);
    RunIsConsistent(steps + [step]);
    KeepsSockets(w.net, CommitEffects(w.clients, j, displaced));
    forall p, r: RoomId | p in displaced && p in w.net.live ensures (p, r) !in w'.net.joined {
      JoinedIsMember(w', p, r);
    }
    JoinedIsMember(w', j.id, j.room);
  }

  lemma {:induction false} KeepsSockets(net: Net, es: seq<Effect>)
    ensures PerformAll(net, es).live == net.live
  {
    if es != [] {
      KeepsSockets(net, es[..|es| - 1]);
    }
  }

  /** A join that does not go through ends, and changes nothing else. */
  lemma JoinCommitRefused(w: World, join: nat, total: nat, displaced: seq<Sid>)
    requires !GoesThrough(w, join, total)
    ensures var w' := Apply(w, JoinCommit(join, total, displaced));
            && w'.clients == w.clients && w'.net == w.net && w'.readers == w.readers
            && w'.joins == if w.readers == map[] && join in w.joins && 1 <= w.joins[join].room <= total
                           then w.joins - {join} else w.joins
  {
    hide Enumerates, CommitRoom, CommitEffects;
  }

  /** What every socket hears of a join that goes through: the client's neighbours in the room it leaves, if
      it still was in another one, hear that it is gone; a displaced socket, that it was superseded; the
      client, the members of the room as they now are and the confirmation; the others in the room, who was
      displaced and, when there is a profile, who came. */
  ghost function CommitNews(w: World, j: PendingJoin, displaced: seq<Sid>, snapshot: map<Sid, Info>, o: Sid): seq<Event>
    requires j.id in w.clients
  {
    var info := w.clients[j.id].info;
    if o !in w.net.live then []
    else if o in displaced then [PresenceSuperseded(j.room)]
    else if o == j.id then
      (if LiveIn(w, o, j.room) then DeletesOf(displaced) else []) + [ExistingClients(snapshot), PresenceReady(j.room, j.claim)]
    else if LiveIn(w, o, j.room) then
      DeletesOf(displaced) + if info.nickname != "" || info.avatar != "" then [NewUser(j.id, info)] else []
    else if Neighbour(w, j.id, o) then [Delete(j.id)] else []
  }

  /** The same of the sockets alone: departure, eviction and arrival one after the other. */
  lemma CommitTold(net: Net, j: PendingJoin, leaving: Option<RoomId>, displaced: seq<Sid>, snapshot: map<Sid, Info>,
                   info: Info, o: Sid)
    requires o in net.inbox && |displaced| <= 1 && j.id !in displaced && leaving != Some(j.room)
    ensures var es := LeaveEffects(j.id, leaving) + EvictEffects(j.room, displaced)
                      + ArriveEffects(j.id, j.room, j.claim, snapshot, info);
            var net' := PerformAll(net, es);
            && o in net'.inbox
            && net'.inbox[o] == net.inbox[o]
                 + (if leaving.Some? && o in net.live && o != j.id && (o, leaving.value) in net.joined then [Delete(j.id)] else [])
                 + (if o !in net.live then []
                    else if o in displaced then [PresenceSuperseded(j.room)]
                    else if (o, j.room) in net.joined then DeletesOf(displaced) else [])
                 + (if o !in net.live || o in displaced then []
                    else if o == j.id then [ExistingClients(snapshot), PresenceReady(j.room, j.claim)]
                    else if (o, j.room) in net.joined && (info.nickname != "" || info.avatar != "") then [NewUser(j.id, info)]
                    else [])
  {
    hide PerformAll, LeaveEffects, EvictEffects, ArriveEffects, DeletesOf;
    var a, b, c := LeaveEffects(j.id, leaving), EvictEffects(j.room, displaced),
                   ArriveEffects(j.id, j.room, j.claim, snapshot, info);
    PerformConcat(net, a, b);
    PerformConcat(net, a + b, c);
    var net1 := PerformAll(net, a);
    DepartureTold(net, j.id, leaving, o);
    EvictionTold(net1, j.room, displaced, o);
    ArrivalTold(PerformAll(net1, b), j.id, j.room, j.claim, snapshot, info, o);
  }

  lemma CommitHeard(w: World, j: PendingJoin, displaced: seq<Sid>, snapshot: map<Sid, Info>, o: Sid)
    requires Consistent(w) && j.id in w.clients && |displaced| <= 1 && j.id !in displaced && o in w.net.inbox
    requires forall p :: p in displaced ==> p in w.clients && w.clients[p].room == Some(j.room)
    ensures var leaving := if w.clients[j.id].room == Some(j.room) then None else w.clients[j.id].room;
            var es := LeaveEffects(j.id, leaving) + EvictEffects(j.room, displaced)
                      + ArriveEffects(j.id, j.room, j.claim, snapshot, w.clients[j.id].info);
            && o in PerformAll(w.net, es).inbox
            && PerformAll(w.net, es).inbox[o] == w.net.inbox[o] + CommitNews(w, j, displaced, snapshot, o)
  {
    hide Consistent, PerformAll, LeaveEffects, EvictEffects, ArriveEffects, DeletesOf;
    var leaving := if w.clients[j.id].room == Some(j.room) then None else w.clients[j.id].room;
    CommitTold(w.net, j, leaving, displaced, snapshot, w.clients[j.id].info, o);
    JoinedIsMember(w, o, j.room);
    if leaving.Some? {
      JoinedIsMember(w, o, leaving.value);
    }
  }

  lemma JoinCommitNews(steps: seq<Step>, join: nat, total: nat, displaced: seq<Sid>, token: Option<Token>,
                       snapshot: map<Sid, Info>, o: Sid)
    requires var w := Run(steps);
             && GoesThrough(w, join, total)
             && var j := w.joins[join];
                && TokenAfter(w.clients[j.id].token, j.token, token)
                && ListsDuplicates(w, j.id, j.room, token, displaced)
    requires var w, w' := Run(steps), Apply(Run(steps), JoinCommit(join, total, displaced));
             && (forall p :: p in snapshot <==> p in w'.clients && w'.clients[p].room == Some(w.joins[join].room))
             && (forall p :: p in snapshot ==> snapshot[p] == w'.clients[p].info)
    requires o in Run(steps).net.inbox
    ensures var w, w' := Run(steps), Apply(Run(steps), JoinCommit(join, total, displaced));
            Told(w, w', o, CommitNews(w, w.joins[join], displaced, snapshot, o))
  {
    hide Run, Consistent, PerformAll, LeaveEffects, EvictEffects, ArriveEffects, CommitDuplicates, TokenAfter, ApplyToken,
         CommitRoom, ListsDuplicates, CommitNews, EnterRoom;
    RunIsConsistent(steps);
    var w, w' := Run(steps), Apply(Run(steps), JoinCommit(join, total, displaced));
    var j := w.joins[join];
    CommitIsPossible(w, join, total, displaced, token);
    CommittedTable(w.clients, j, displaced);
    OneDuplicate(w, j.id, j.room, token, displaced);
    assert snapshot == Snapshot(w'.clients, j.room);
    CommitHeard(w, j, displaced, snapshot, o);
  }

  lemma OneDuplicate(w: World, id: Sid, room: RoomId, token: Option<Token>, displaced: seq<Sid>)
    requires Consistent(w) && ListsDuplicates(w, id, room, token, displaced)
    ensures |displaced| <= 1
  {
    hide Agrees, GuardsOwe, OnePresence;
    forall p ensures p in Duplicates(w.clients, id, room, token) <==> Duplicate(w, id, room, token, p) {
    }
    AtMostOneDuplicate(w.clients, id, room, token, displaced);
  }

  // ------------------------------------------------------ changing the profile

  /** A profile change is possible exactly with no guard held, for a client that is there, and with the list
      of the others in its room that have the token it ends up with. */
  lemma ProfileIsPossible(w: World, id: Sid, data: UserData, displaced: seq<Sid>, token: Option<Token>)
    requires id in w.clients && TokenAfter(w.clients[id].token, data.token, token)
    ensures ApplyToken(w.clients[id].token, data.token) == token
    ensures Possible(w, SetUserData(id, data, displaced))
            <==> w.readers == map[]
                 && if w.clients[id].room.None? then displaced == []
                    else ListsDuplicates(w, id, w.clients[id].room.value, token, displaced)
  {
    hide TokenAfter, ApplyToken;
    TokensApply(w.clients[id].token, data.token);
    TokenIsSettled(w.clients[id].token, data.token, token, ApplyToken(w.clients[id].token, data.token));
    var duplicates := ProfileDuplicates(w.clients, id, data);
    if w.clients[id].room.None? {
      NothingListed(displaced);
    } else {
      forall p ensures p in duplicates <==> Duplicate(w, id, w.clients[id].room.value, token, p) {
      }
    }
  }

  lemma NothingListed(displaced: seq<Sid>)
    ensures Enumerates(displaced, {}) <==> displaced == []
  {
    if displaced != [] {
      assert displaced[0] in displaced;
    }
  }

  ghost predicate ChangesProfile(w: World, id: Sid, data: UserData, displaced: seq<Sid>, token: Option<Token>) {
    && w.readers == map[] && id in w.clients && TokenAfter(w.clients[id].token, data.token, token)
    && if w.clients[id].room.None? then displaced == []
       else ListsDuplicates(w, id, w.clients[id].room.value, token, displaced)
  }

  lemma ProfiledTable(cs: Clients, id: Sid, data: UserData, displaced: seq<Sid>)
    requires id in cs && Enumerates(displaced, ProfileDuplicates(cs, id, data))
    ensures var cs' := CommitProfile(cs, id, data);
            && id !in displaced && cs'.Keys == cs.Keys && cs'[id] == WithProfile(cs[id], data)
            && (forall p :: p in displaced ==> p in cs && cs[p].room == cs[id].room && cs'[p] == Roomless(cs[p]))
            && (forall p :: p in cs && p != id && p !in displaced ==> cs'[p] == cs[p])
  {
    hide ApplyToken, WithProfile;
  }

  /** What every socket hears of it: a displaced socket, that it was superseded; the room, who was displaced;
      and everybody in the room but the client itself, its new profile. */
  ghost function ProfileNews(w: World, id: Sid, displaced: seq<Sid>, info: Info, o: Sid): seq<Event>
    requires id in w.clients
  {
    if o !in w.net.live || w.clients[id].room.None? then []
    else if o in displaced then [PresenceSuperseded(w.clients[id].room.value)]
    else if LiveIn(w, o, w.clients[id].room.value) then DeletesOf(displaced) + if o == id then [] else [NewUser(id, info)]
    else []
  }

  /** A profile change: the record has the name, avatar, height scale and token that were sent and is otherwise
      as it was; the duplicates in its room are out; and what was sent is what the others are told. */
  lemma ProfileAnswers(steps: seq<Step>, id: Sid, data: UserData, displaced: seq<Sid>, token: Option<Token>, o: Sid)
    requires ChangesProfile(Run(steps), id, data, displaced, token) && o in Run(steps).net.inbox
    ensures var w, w' := Run(steps), Apply(Run(steps), SetUserData(id, data, displaced));
            && id in w'.clients && ProfileAfter(w.clients[id], data, w'.clients[id]) && w'.clients[id].token == token
            && Evicted(w, w', displaced) && w'.clients.Keys == w.clients.Keys
            && (forall p :: p in w.clients && p != id && p !in displaced ==> w'.clients[p] == w.clients[p])
            && w'.joins == w.joins && w'.readers == map[] && w'.net.live == w.net.live
            && (forall r: RoomId :: o in displaced && o in w.net.live ==> (o, r) !in w'.net.joined)
            && Told(w, w', o, ProfileNews(w, id, displaced, w'.clients[id].info, o))
  {
    hide Run, Consistent, PerformAll, EvictEffects, ProfileDuplicates, CommitProfile, WithProfile, ProfileAfter, TokenAfter,
         ApplyToken, ListsDuplicates;
    var w, step := Run(steps), SetUserData(id, data, displaced);
    RunIsConsistent(steps);
    ProfileIsPossible(w, id, data, displaced, token);
    var w' := Apply(w, step);
    ProfiledTable(w.clients, id, data, displaced);
    ProfilesApply(w.clients[id], data);
    TokenOfProfile(w.clients[id], data);
    RunSnoc(steps, step);
    RunIsConsistent(steps + [step]);
    if w.clients[id].room.Some? {
      var room, info := w.clients[id].room.value, w'.clients[id].info;
      OneDuplicate(w, id, room, token, displaced);
      var net1 := PerformAll(w.net, EvictEffects(room, displaced));
      EvictionTold(w.net, room, displaced, o);
      PerformConcat(w.net, EvictEffects(room, displaced), [Emit(Others(room, id), NewUser(id, info))]);
      PerformOne(net1, Emit(Others(room, id), NewUser(id, info)));
      JoinedIsMember(w, o, room);
      forall r: RoomId | o in displaced && o in w.net.live ensures (o, r) !in w'.net.joined {
        JoinedIsMember(w', o, r);
      }
    }
  }

  lemma TokenOfProfile(rec: ClientRecord, data: UserData)
    ensures WithProfile(rec, data).token == ApplyToken(rec.token, data.token)
  {
    hide ApplyToken, Trim;
  }

  /** So in every run whose `goto` rotations are finite, each other live member then sees the client under the
      very name and avatar that it sent, as far as they are kept. */
  lemma ProfileIsSeen(steps: seq<Step>, id: Sid, data: UserData, displaced: seq<Sid>, token: Option<Token>, o: Sid)
    requires ChangesProfile(Run(steps), id, data, displaced, token) && FiniteGotos(steps)
    requires Neighbour(Run(steps), id, o) && o !in displaced
    ensures var w' := Apply(Run(steps), SetUserData(id, data, displaced));
            && o in w'.net.inbox && id in ViewOf(w'.net.inbox[o])
            && NameAfter(data.nickname, ViewOf(w'.net.inbox[o])[id].nickname)
            && AvatarAfter(data.avatar, ViewOf(w'.net.inbox[o])[id].avatar)
  {
    hide Run, Consistent, ProfileEffects, TokenAfter, ListsDuplicates, NameAfter, AvatarAfter, ProfileDuplicates, FiniteGotos;
    var w, step := Run(steps), SetUserData(id, data, displaced);
    var room := w.clients[id].room.value;
    RunIsConsistent(steps);
    JoinedIsMember(w, o, room);
    ProfileAnswers(steps, id, data, displaced, token, o);
    var w' := Apply(w, step);
    ProfileIsPossible(w, id, data, displaced, token);
    ProfileKeepsFinite(steps, step);
    RunSnoc(steps, step);
    ViewsConverge(steps + [step], o, room);
    MemberReads(w, id, data, displaced, o);
    ReadingHasView(w'.net.inbox[o]);
  }

  lemma ProfileKeepsFinite(steps: seq<Step>, step: Step)
    requires FiniteGotos(steps) && !step.Goto?
    ensures FiniteGotos(steps + [step])
  {
  }
}
