/** What moves, gotos, ticks, chat messages and logins do: to the record of the client, to every other record,
    and to what is owed to whom, said without the functions that compute it. */
module Messages {
  import opened Common
  import opened Motion
  import opened Presence
  import opened Network
  import opened Views
  import opened Protocol
  import opened Convergence
  import opened Decoding
  import opened Movement
  import opened Payloads
  import opened Transitions

  ghost predicate InBox(x: real, y: real, z: real) {
    -2000.0 <= x <= 2000.0 && -500.0 <= y <= 500.0 && -2000.0 <= z <= 2000.0
  }

  /** The three numbers sent are finite and lie in the world box. */
  ghost predicate PlaceSent(position: seq<F32>, at: Vec3) {
    position == [Fin(at.x), Fin(at.y), Fin(at.z)] && InBox(at.x, at.y, at.z)
  }

  /** No such place was sent. */
  ghost predicate NoPlace(position: seq<F32>) {
    forall at :: !PlaceSent(position, at)
  }

  lemma PlacesAre(position: seq<F32>, at: Vec3)
    ensures PlaceSent(position, at)
            <==> ToVec3(position) == Some(at) && InWorldBounds(at)
  {
    if ToVec3(position) == Some(at) {
      assert position == [Fin(at.x), Fin(at.y), Fin(at.z)];
    }
  }

  lemma NoPlaceIs(position: seq<F32>)
    ensures NoPlace(position) <==> ToVec3(position).None? || !InWorldBounds(ToVec3(position).value)
  {
    hide InWorldBounds;
    forall at: Vec3 ensures PlaceSent(position, at) <==> ToVec3(position) == Some(at) && InWorldBounds(at) {
      PlacesAre(position, at);
    }
    if ToVec3(position).Some? && InWorldBounds(ToVec3(position).value) {
      assert PlaceSent(position, ToVec3(position).value);
    }
  }

  ghost predicate OnlyRecord(w: World, w': World, id: Sid, rec: ClientRecord) {
    && w'.clients.Keys == w.clients.Keys && id in w.clients && w'.clients[id] == rec
    && forall p :: p in w.clients && p != id ==> w'.clients[p] == w.clients[p]
  }

  function CountUp(n: nat): nat {
    if n < 0xFFFF_FFFF_FFFF_FFFF then n + 1 else n
  }

  // ---------------------------------------------------------------- moving

  /** A number is new when it exceeds the last one accepted. */
  ghost predicate NewNumber(rec: ClientRecord, clientSeq: Option<nat>) {
    clientSeq.Some? ==> rec.lastClientSeq < clientSeq.value
  }

  /** A move with a place in the world box, a finite rotation or none, and a new number or none, from a client
      in a room: the client stands there, turned as it said or to 0, its motion is over, both counters go
      on, and its room is owed exactly this. Any other move changes nothing. */
  lemma MoveAnswers(w: World, guard: nat, id: Sid, position: seq<F32>, rotation: Option<F32>, clientSeq: Option<nat>,
                    at: Vec3)
    requires guard !in w.readers
    ensures var w' := Apply(w, MoveBegin(guard, id, position, rotation, clientSeq));
            var turn := match rotation case Some(r) => r case None => Fin(0.0);
            && (PlaceSent(position, at) && turn.Fin? && id in w.clients && w.clients[id].room.Some?
                && NewNumber(w.clients[id], clientSeq) ==>
                  var rec := w.clients[id];
                  var sent := Info(at, turn, rec.info.avatar, rec.info.heightScale, rec.info.nickname, rec.info.wallet);
                  && OnlyRecord(w, w', id, rec.(info := sent, motion := None, serverSeq := CountUp(rec.serverSeq),
                                                lastClientSeq := match clientSeq case Some(n) => n case None => rec.lastClientSeq))
                  && w' == w.(clients := w'.clients,
                              readers := w.readers[guard := [Emit(Within(rec.room.value),
                                Moved(id, sent.(wallet := None), CountUp(rec.serverSeq), clientSeq))]]))
            && ((NoPlace(position) || !turn.Fin? || id !in w.clients || w.clients[id].room.None?
                 || !NewNumber(w.clients[id], clientSeq)) ==> w' == w)
  {
    hide InWorldBounds, PlaceSent;
    PlacesAre(position, at);
    NoPlaceIs(position);
  }

  /** A goto with a place in the world box from a client in a room: the client will move there at the speed it
      asked for, and turns if it said so; it stays where it is, and nobody is told. */
  lemma GotoAnswers(w: World, id: Sid, position: seq<F32>, speed: Option<F32>, rotation: Option<F32>, at: Vec3)
    ensures var w' := Apply(w, Goto(id, position, speed, rotation));
            && (PlaceSent(position, at) && id in w.clients && w.clients[id].room.Some? ==>
                  var rec := w.clients[id];
                  && id in w'.clients && w'.clients[id].motion.Some?
                  && w'.clients[id].motion.value.target == at && SpeedAfter(speed, w'.clients[id].motion.value.speed)
                  && OnlyRecord(w, w', id, rec.(motion := w'.clients[id].motion,
                       info := match rotation case Some(r) => rec.info.(rotation := r) case None => rec.info))
                  && w' == w.(clients := w'.clients))
            && (NoPlace(position) || id !in w.clients || w.clients[id].room.None? ==> w' == w)
  {
    hide InWorldBounds, PlaceSent, ClampSpeed;
    PlacesAre(position, at);
    NoPlaceIs(position);
    SpeedsApply(speed);
  }

  // ------------------------------------------------------------ a whole journey

  /** Enough ticks to cover the way. */
  ghost predicate Covered(dist: real, speed: real, ticks: nat) {
    ticks >= 1 && ticks as real * (0.05 * speed) >= dist
  }

  /** The way made in `n` ticks. */
  ghost function Travelled(n: nat, step: real): real {
    n as real * step
  }

  lemma TravelledGrows(a: nat, b: nat, step: real)
    requires a <= b && 0.0 < step
    ensures Travelled(a, step) <= Travelled(b, step)
  {
    MulMonotone(a as real, b as real, step);
  }

  lemma FirstToCover(dist: real, step: real)
    requires 0.0 <= dist && 0.0 < step
    ensures var n := TicksToArrive(dist, step);
            1 <= n && dist <= Travelled(n, step) && (n == 1 || Travelled(n - 1, step) < dist)
  {
    hide TicksToArrive;
    TicksToArriveIsFirst(dist, step);
    assert (TicksToArrive(dist, step) - 1) as real == TicksToArrive(dist, step) as real - 1.0;
  }

  lemma CoveredIsTravelled(dist: real, speed: real, ticks: nat)
    requires 0.1 <= speed
    ensures 0.0 < StepLength(speed)
    ensures Covered(dist, speed, ticks) <==> ticks >= 1 && Travelled(ticks, StepLength(speed)) >= dist
  {
    assert StepLength(speed) == 0.05 * speed;
  }

  lemma CoveredIsTicksToArrive(dist: real, speed: real, ticks: nat)
    requires 0.0 <= dist && 0.1 <= speed
    ensures 0.0 < StepLength(speed)
    ensures Covered(dist, speed, ticks) <==> ticks >= TicksToArrive(dist, StepLength(speed))
  {
    hide TicksToArrive, StepLength, Travelled, Covered;
    CoveredIsTravelled(dist, speed, ticks);
    var step := StepLength(speed);
    var n := TicksToArrive(dist, step);
    FirstToCover(dist, step);
    if ticks >= n {
      TravelledGrows(n, ticks, step);
    } else if n > 1 {
      TravelledGrows(ticks, n - 1, step);
    }
  }

  lemma SpeedIsProgress(sent: Option<F32>, speed: real)
    requires SpeedAfter(sent, speed) && sent != Some(NaN)
    ensures 0.1 <= speed <= 50.0 && 0.0001 < StepLength(speed)
  {
  }

  lemma DistanceIs(dist: real, a: Vec3, b: Vec3)
    requires 0.0 <= dist
    requires dist * dist == (b.x - a.x) * (b.x - a.x) + (b.y - a.y) * (b.y - a.y) + (b.z - a.z) * (b.z - a.z)
    ensures IsDistance(dist, a, b)
  {
  }

  /** From the request to the place asked for. After any run, a client in a room asks to go to `at`, `dist`
      away; then, whatever else happens, as long as only ticks touch its record: it stands at `at`, and its
      motion is over, exactly when at least one tick came and the ticks so far, at 0.05 seconds each, cover
      the way at the speed asked for; until then it is still on its way. */
  lemma GotoEndsThere(past: seq<Step>, id: Sid, position: seq<F32>, speed: Option<F32>, rotation: Option<F32>,
                      at: Vec3, dist: real, v: real, steps: seq<Step>)
    requires PlaceSent(position, at) && id in Run(past).clients && Run(past).clients[id].room.Some?
    requires speed != Some(NaN) && SpeedAfter(speed, v)
    requires var from := Run(past).clients[id].info.position;
             && 0.0 <= dist
             && dist * dist == (at.x - from.x) * (at.x - from.x) + (at.y - from.y) * (at.y - from.y)
                               + (at.z - from.z) * (at.z - from.z)
    requires Undisturbed(Apply(Run(past), Goto(id, position, speed, rotation)), steps, id)
    ensures var w := Apply(Run(past), Goto(id, position, speed, rotation));
            && id in Exec(w, steps).clients
            && var now, ticks := Exec(w, steps).clients[id], |DistancesMet(w, steps, id)|;
               if Covered(dist, v, ticks) then now.info.position == at && now.motion.None?
               else now.motion.Some? && now.motion.value.target == at && now.motion.value.speed == v
  {
    hide Run, Apply, Undisturbed, DistancesMet, Exec, PlaceSent, SpeedAfter, InWorld, IsDistance, StepLength, Covered,
         TicksToArrive, OnlyRecord;
    var w0, step := Run(past), Goto(id, position, speed, rotation);
    var w := Apply(w0, step);
    StartInWorld(false);
    ExecStaysInWorld(START, past, false);
    assert Exec(START, past) == w0 by { RunIsExec(past); }
    StepStaysInWorld(w0, step, false);
    GotoAnswers(w0, id, position, speed, rotation, at);
    OnlyRecordIs(w0, w, id, rotation);
    SpeedIsSettled(speed, v, w.clients[id].motion.value.speed);
    SpeedIsProgress(speed, v);
    DistanceIs(dist, w.clients[id].info.position, at);
    FlightInRun(w, steps, id, dist);
    CoveredIsTicksToArrive(dist, v, |DistancesMet(w, steps, id)|);
  }

  lemma RunIsExec(steps: seq<Step>)
    ensures Run(steps) == Exec(START, steps)
  {
  }

  lemma OnlyRecordIs(w: World, w': World, id: Sid, rotation: Option<F32>)
    requires id in w.clients && id in w'.clients
    requires OnlyRecord(w, w', id, w.clients[id].(motion := w'.clients[id].motion,
               info := match rotation case Some(r) => w.clients[id].info.(rotation := r) case None => w.clients[id].info))
    ensures w'.clients[id].info.position == w.clients[id].info.position
  {
  }

  lemma SpeedIsSettled(sent: Option<F32>, a: real, b: real)
    requires SpeedAfter(sent, a) && SpeedAfter(sent, b)
    ensures a == b
  {
  }

  // -------------------------------------------------------------------- ticks

  /** One record through one tick, at `d` from its target: with no motion, or in no room, it only stops; if the
      way is shorter than the step it is at its target, and otherwise a step along the straight line. */
  ghost predicate Ticked(rec: ClientRecord, d: real, rec': ClientRecord) {
    if rec.motion.None? then rec' == rec
    else if rec.room.None? then rec' == rec.(motion := None)
    else
      var (target, from, to) := (rec.motion.value.target, rec.info.position, rec'.info.position);
      var step := 0.05 * if rec.motion.value.speed > 0.0 then rec.motion.value.speed else 0.0;
      var ends := d <= 0.0001 || step <= 0.000001 || d <= step;
      && rec' == rec.(info := rec.info.(position := to), motion := if ends then None else rec.motion,
                      serverSeq := CountUp(rec.serverSeq))
      && if ends then to == target
         else
           && (to.x - from.x) * d == (target.x - from.x) * step
           && (to.y - from.y) * d == (target.y - from.y) * step
           && (to.z - from.z) * d == (target.z - from.z) * step
  }

  lemma StraightLine(a: real, b: real, d: real, step: real)
    requires d != 0.0
    ensures var inv := 1.0 / d; (a + (b - a) * inv * step - a) * d == (b - a) * step
  {
    var inv := 1.0 / d;
    assert inv * d == 1.0;
    MulAssociates(b - a, inv, step);
    MulAssociates(b - a, inv * step, d);
    assert inv * step * d == step;
  }

  lemma TicksApply(rec: ClientRecord, d: real)
    requires 0.0 <= d
    ensures Ticked(rec, d, TickRecord(rec, d))
  {
    if rec.motion.Some? && rec.room.Some? {
      var step, target, from := StepLength(rec.motion.value.speed), rec.motion.value.target, rec.info.position;
      if !Arrives(d, step) {
        StraightLine(from.x, target.x, d, step);
        StraightLine(from.y, target.y, d, step);
        StraightLine(from.z, target.z, d, step);
      }
    }
  }

  /** `moved` lists every client with a motion and a room, once, and `dist` has their distances. */
  ghost predicate TickTakes(w: World, moved: seq<Sid>, dist: map<Sid, real>) {
    && (forall p :: p in dist ==> 0.0 <= dist[p])
    && (forall p :: p in moved <==> p in w.clients && w.clients[p].motion.Some? && w.clients[p].room.Some?)
    && (forall i, j :: 0 <= i < j < |moved| ==> moved[i] != moved[j])
    && forall p :: p in moved ==>
         p in dist && IsDistance(dist[p], w.clients[p].info.position, w.clients[p].motion.value.target)
  }

  lemma TickIsPossible(w: World, guard: nat, moved: seq<Sid>, dist: map<Sid, real>)
    requires TickTakes(w, moved, dist) && guard !in w.readers
    ensures Possible(w, TickBegin(guard, moved, dist))
  {
    hide IsDistance;
  }

  /** A tick takes every record one tick on, and owes each moving client's room one move: the place it now has
      and what else it is, under its new number. */
  lemma TickAnswers(w: World, guard: nat, moved: seq<Sid>, dist: map<Sid, real>)
    requires TickTakes(w, moved, dist) && guard !in w.readers
    ensures var w' := Apply(w, TickBegin(guard, moved, dist));
            && w'.clients.Keys == w.clients.Keys
            && (forall p :: p in w.clients ==> Ticked(w.clients[p], if p in dist then dist[p] else 0.0, w'.clients[p]))
            && w'.net == w.net && w'.joins == w.joins
            && w'.readers.Keys == w.readers.Keys + (if moved == [] then {} else {guard})
            && (forall g :: g in w.readers ==> w'.readers[g] == w.readers[g])
            && (moved != [] ==>
                  && |w'.readers[guard]| == |moved|
                  && forall i :: 0 <= i < |moved| ==>
                       && moved[i] in w'.clients && w'.clients[moved[i]].room.Some?
                       && w'.readers[guard][i]
                          == Emit(Within(w'.clients[moved[i]].room.value),
                                  Moved(moved[i], w'.clients[moved[i]].info.(wallet := None),
                                        w'.clients[moved[i]].serverSeq, None)))
  {
    hide TickTakes, TickRecord, TickEffects, Ticked;
    TickIsPossible(w, guard, moved, dist);
    TickKeepsRooms(w.clients, dist);
    var ticked := TickClients(w.clients, dist);
    forall p | p in w.clients ensures Ticked(w.clients[p], if p in dist then dist[p] else 0.0, ticked[p]) {
      TicksApply(w.clients[p], if p in dist then dist[p] else 0.0);
    }
    assert forall p :: p in moved ==> p in ticked && ticked[p].room.Some?;
    forall i | 0 <= i < |moved| ensures TickEffects(ticked, moved)[i] == MoveEffect(ticked, moved[i], None) {
      assert moved[i] in moved;
      TickEffectAt(ticked, moved, i);
    }
    if moved == [] {
      assert TickEffects(ticked, moved) == [];
    }
  }

  // -------------------------------------------------------------- chat, logins

  /** A chat message from a client in a room, if it is more than white space: the room is owed the message, the
      white space around it left out, at most 500 characters, under the client's name and wallet. */
  lemma ChatAnswers(w: World, guard: nat, id: Sid, text: string)
    requires guard !in w.readers
    ensures var w' := Apply(w, ChatBegin(guard, id, text));
            if id in w.clients && w.clients[id].room.Some? && !Blank(text) then
              && guard in w'.readers && |w'.readers[guard]| == 1
              && var owed := w'.readers[guard][0];
                 && owed.Emit? && owed.event.ChatMessage? && MessageAfter(text, owed.event.message)
                 && owed == Emit(Within(w.clients[id].room.value),
                                 ChatMessage(id, w.clients[id].info.nickname, owed.event.message, w.clients[id].info.wallet))
                 && w' == w.(readers := w.readers[guard := [owed]])
            else w' == w
  {
    hide CleanMessage, MessageAfter, Blank;
    MessagesApply(text);
  }

  /** A successful login puts the wallet into the record and what others see of it, and changes nothing else. */
  lemma LoginAnswers(w: World, id: Sid, wallet: Wallet)
    ensures var w' := Apply(w, Authenticate(id, wallet));
            if id in w.clients then
              && OnlyRecord(w, w', id, w.clients[id].(wallet := Some(wallet),
                                                      info := w.clients[id].info.(wallet := Some(wallet))))
              && w' == w.(clients := w'.clients)
            else w' == w
  {
  }

  /** After a login in a room the client is still in: it is owed its access, and the others how it is now known. */
  lemma WalletAnswers(w: World, guard: nat, id: Sid, room: RoomId, access: Access)
    requires guard !in w.readers
    ensures var w' := Apply(w, WalletBegin(guard, id, room, access));
            if id in w.clients && w.clients[id].room == Some(room) then
              w' == w.(readers := w.readers[guard := [Emit(Only(id), RoomAccess(room, access)),
                                                      Emit(Others(room, id), NewUser(id, w.clients[id].info))]])
            else w' == w
  {
  }

  // ------------------------------------------------------------------ delivery

  /** Who gets an owed broadcast: every live socket in the room by the table, apart from the sender where it is
      meant for the others, and nobody else. */
  ghost predicate IsFor(w: World, dest: Dest, o: Sid) {
    match dest
    case Within(room) => LiveIn(w, o, room)
    case Others(room, sender) => LiveIn(w, o, room) && o != sender
    case Only(id) => o == id && o in w.net.live
  }

  /** In every reachable world the next broadcast a guard owes reaches exactly those it is for, once, and then
      the guard owes the rest, or is released. */
  lemma DeliveryAnswers(steps: seq<Step>, guard: nat)
    requires guard in Run(steps).readers && Run(steps).readers[guard] != []
    ensures var w, w', owed := Run(steps), Apply(Run(steps), EmitNext(guard)), Run(steps).readers[guard];
            && owed[0].Emit?
            && (forall o :: o in w.net.inbox ==> Told(w, w', o, if IsFor(w, owed[0].dest, o) then [owed[0].event] else []))
            && w'.clients == w.clients && w'.joins == w.joins
            && w'.net.live == w.net.live && w'.net.joined == w.net.joined
            && w'.readers == if |owed| == 1 then w.readers - {guard} else w.readers[guard := owed[1..]]
  {
    hide Run, Consistent;
    RunIsConsistent(steps);
    var w, w', owed := Run(steps), Apply(Run(steps), EmitNext(guard)), Run(steps).readers[guard];
    OwedIsEmit(w, guard, 0);
    forall o | o in w.net.inbox ensures Told(w, w', o, if IsFor(w, owed[0].dest, o) then [owed[0].event] else []) {
      match owed[0].dest {
        case Within(room) => JoinedIsMember(w, o, room);
        case Others(room, _) => JoinedIsMember(w, o, room);
        case Only(_) =>
      }
    }
  }

  lemma OwedIsEmit(w: World, guard: nat, i: nat)
    requires Consistent(w) && guard in w.readers && i < |w.readers[guard]|
    ensures w.readers[guard][i].Emit?
  {
    hide Agrees, OnePresence;
    assert Owed(w.clients, w.readers[guard][i]);
  }

  /** A move is seen. After any run, a move that is accepted and then sent on shows the client, to every live
      member of its room, itself included, at the place and turned as it said. */
  lemma MoveIsSeen(steps: seq<Step>, guard: nat, id: Sid, position: seq<F32>, rotation: real, clientSeq: Option<nat>,
                   at: Vec3, o: Sid)
    requires var w := Run(steps);
             && guard !in w.readers && PlaceSent(position, at) && id in w.clients && w.clients[id].room.Some?
             && NewNumber(w.clients[id], clientSeq) && LiveIn(w, o, w.clients[id].room.value)
    ensures var w' := Apply(Apply(Run(steps), MoveBegin(guard, id, position, Some(Fin(rotation)), clientSeq)), EmitNext(guard));
            && o in w'.net.inbox && id in ViewOf(w'.net.inbox[o])
            && ViewOf(w'.net.inbox[o])[id].position == Some(at) && ViewOf(w'.net.inbox[o])[id].rotation == rotation
  {
    hide Run, Apply, Consistent, ReadingOf, PlaceSent;
    var w, step := Run(steps), MoveBegin(guard, id, position, Some(Fin(rotation)), clientSeq);
    var mid := Apply(w, step);
    RunIsConsistent(steps);
    JoinedIsMember(w, o, w.clients[id].room.value);
    MoveAnswers(w, guard, id, position, Some(Fin(rotation)), clientSeq, at);
    RunSnoc(steps, step);
    DeliveryAnswers(steps + [step], guard);
    var w' := Apply(mid, EmitNext(guard));
    var e := mid.readers[guard][0].event;
    assert Told(mid, w', o, [e]);
    ViewSnoc(mid.net.inbox[o], e);
  }

  lemma ViewSnoc(received: seq<Event>, e: Event)
    ensures ViewOf(received + [e]) == Fold(ViewOf(received), e)
  {
    assert (received + [e])[..|received|] == received;
  }
}
