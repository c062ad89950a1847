/** Positions, motions and move numbers over whole runs. */
module Movement {
  import opened Common
  import opened Motion
  import opened Presence
  import opened Network
  import opened Protocol

  // ------------------------------------------------------------------ world box

  /** `on_goto` is the one handler that lets a rotation pass unchecked. */
  predicate FiniteGoto(step: Step) {
    step.Goto? && step.rotation.Some? ==> step.rotation.value.Fin?
  }

  predicate FiniteGotos(steps: seq<Step>) {
    forall i :: 0 <= i < |steps| ==> FiniteGoto(steps[i])
  }

  /** Positions are in the world box; and rotations are finite where that is asked for. */
  ghost predicate InfoInWorld(info: Info, finite: bool) {
    InWorldBounds(info.position) && (finite ==> info.rotation.Fin?)
  }

  /** So are targets, and a motion only exists inside a room. */
  ghost predicate RecordInWorld(rec: ClientRecord, finite: bool) {
    && InfoInWorld(rec.info, finite)
    && (rec.motion.Some? ==> rec.room.Some? && InWorldBounds(rec.motion.value.target))
  }

  ghost predicate TableInWorld(cs: Clients, finite: bool) {
    forall p :: p in cs ==> RecordInWorld(cs[p], finite)
  }

  ghost predicate EventInWorld(e: Event, finite: bool) {
    match e
    case ExistingClients(snapshot) => forall p :: p in snapshot ==> InfoInWorld(snapshot[p], finite)
    case NewUser(_, info) => InfoInWorld(info, finite)
    case Moved(_, info, _, _) => InfoInWorld(info, finite)
    case _ => true
  }

  ghost predicate EffectInWorld(e: Effect, finite: bool) {
    e.Emit? ==> EventInWorld(e.event, finite)
  }

  ghost predicate AllInWorld(es: seq<Effect>, finite: bool) {
    forall i :: 0 <= i < |es| ==> EffectInWorld(es[i], finite)
  }

  ghost predicate HeardInWorld(received: seq<Event>, finite: bool) {
    forall i :: 0 <= i < |received| ==> EventInWorld(received[i], finite)
  }

  ghost predicate NetInWorld(net: Net, finite: bool) {
    AllInWorld(net.log, finite) && forall o :: o in net.inbox ==> HeardInWorld(net.inbox[o], finite)
  }

  ghost predicate InWorld(w: World, finite: bool) {
    && TableInWorld(w.clients, finite)
    && NetInWorld(w.net, finite)
    && forall g :: g in w.readers ==> AllInWorld(w.readers[g], finite)
  }

  lemma AllInWorldConcat(a: seq<Effect>, b: seq<Effect>, finite: bool)
    requires AllInWorld(a, finite) && AllInWorld(b, finite)
    ensures AllInWorld(a + b, finite)
  {
  }

  lemma {:induction false} EvictionInWorld(room: RoomId, displaced: seq<Sid>, finite: bool)
    ensures AllInWorld(Goodbyes(room, displaced), finite) && AllInWorld(Removals(room, displaced), finite)
    ensures AllInWorld(EvictEffects(room, displaced), finite)
  {
    if displaced != [] {
      EvictionInWorld(room, displaced[..|displaced| - 1], finite);
    }
  }

  lemma PerformOneInWorld(net: Net, e: Effect, finite: bool)
    requires NetInWorld(net, finite) && EffectInWorld(e, finite)
    ensures NetInWorld(Perform(net, e), finite)
  {
    hide EventInWorld, Hears;
  }

  lemma {:induction false} PerformInWorld(net: Net, es: seq<Effect>, finite: bool)
    requires NetInWorld(net, finite) && AllInWorld(es, finite)
    ensures NetInWorld(PerformAll(net, es), finite)
  {
    hide NetInWorld, EffectInWorld, Perform;
    if es != [] {
      var n := |es| - 1;
      PerformInWorld(net, es[..n], finite);
      PerformOneInWorld(PerformAll(net, es[..n]), es[n], finite);
    }
  }

  lemma CommitInWorld(cs: Clients, j: PendingJoin, displaced: seq<Sid>, finite: bool)
    requires TableInWorld(cs, finite) && j.id in cs
    ensures TableInWorld(CommitRoom(cs, j.id, j.room, j.token), finite)
    ensures AllInWorld(CommitEffects(cs, j, displaced), finite)
  {
    hide InWorldBounds;
    var cs' := CommitRoom(cs, j.id, j.room, j.token);
    forall p | p in cs' ensures RecordInWorld(cs'[p], finite) {
      assert RecordInWorld(cs[p], finite);
    }
    assert RecordInWorld(cs[j.id], finite);
    EvictionInWorld(j.room, displaced, finite);
    var arriving := ArriveEffects(j.id, j.room, j.claim, Snapshot(cs', j.room), cs[j.id].info);
    assert AllInWorld(arriving, finite) by {
      var snapshot := Snapshot(cs', j.room);
      forall p | p in snapshot ensures InfoInWorld(snapshot[p], finite) {
        assert RecordInWorld(cs'[p], finite);
      }
    }
    var leaving := LeaveEffects(j.id, if cs[j.id].room == Some(j.room) then None else cs[j.id].room);
    AllInWorldConcat(leaving, EvictEffects(j.room, displaced), finite);
    AllInWorldConcat(leaving + EvictEffects(j.room, displaced), arriving, finite);
  }

  lemma ProfileInWorld(cs: Clients, step: Step, finite: bool)
    requires step.SetUserData? && TableInWorld(cs, finite) && step.id in cs
    ensures var cs' := CommitProfile(cs, step.id, step.data);
            && step.id in cs' && TableInWorld(cs', finite)
            && forall room :: AllInWorld(ProfileEffects(room, step.id, cs'[step.id].info, step.displaced), finite)
  {
    hide InWorldBounds;
    var cs' := CommitProfile(cs, step.id, step.data);
    forall p | p in cs' ensures RecordInWorld(cs'[p], finite) {
      assert RecordInWorld(cs[p], finite);
    }
    assert RecordInWorld(cs'[step.id], finite);
    forall room ensures AllInWorld(ProfileEffects(room, step.id, cs'[step.id].info, step.displaced), finite) {
      EvictionInWorld(room, step.displaced, finite);
    }
  }

  lemma TickInWorld(cs: Clients, dist: map<Sid, real>, finite: bool)
    requires TableInWorld(cs, finite) && forall p :: p in dist ==> 0.0 <= dist[p]
    ensures TableInWorld(TickClients(cs, dist), finite)
  {
    hide InWorldBounds;
    var cs' := TickClients(cs, dist);
    forall p | p in cs' ensures RecordInWorld(cs'[p], finite) {
      var rec := cs[p];
      assert RecordInWorld(rec, finite);
      if rec.motion.Some? {
        TickStaysInWorld(rec.info.position, rec.motion.value.target, if p in dist then dist[p] else 0.0,
                         StepLength(rec.motion.value.speed));
      }
    }
  }

  lemma {:induction false} TickEffectsInWorld(cs: Clients, moved: seq<Sid>, finite: bool)
    requires TableInWorld(cs, finite) && forall p :: p in moved ==> p in cs && cs[p].room.Some?
    ensures AllInWorld(TickEffects(cs, moved), finite)
  {
    if moved != [] {
      var n := |moved| - 1;
      TickEffectsInWorld(cs, moved[..n], finite);
      assert moved[n] in moved && RecordInWorld(cs[moved[n]], finite);
    }
  }

  lemma GuardInWorld(w: World, guard: nat, owed: seq<Effect>, finite: bool)
    requires InWorld(w, finite) && AllInWorld(owed, finite)
    ensures InWorld(TakeGuard(w, guard, owed), finite)
  {
  }

  lemma TickStepInWorld(w: World, step: Step, finite: bool)
    requires InWorld(w, finite) && step.TickBegin? && Possible(w, step)
    ensures InWorld(Next(w, step), finite)
  {
    hide RecordInWorld, TickRecord, Measures, TickEffects, AllInWorld;
    TickInWorld(w.clients, step.dist, finite);
    TickKeepsRooms(w.clients, step.dist);
    var w' := w.(clients := TickClients(w.clients, step.dist));
    assert forall p :: p in step.moved ==> p in w'.clients && w'.clients[p].room.Some?;
    TickEffectsInWorld(w'.clients, step.moved, finite);
    GuardInWorld(w', step.guard, TickEffects(w'.clients, step.moved), finite);
  }

  lemma MoveStepInWorld(w: World, step: Step, finite: bool)
    requires InWorld(w, finite) && step.MoveBegin? && Possible(w, step)
    ensures InWorld(Next(w, step), finite)
  {
    hide InWorldBounds;
    var id := step.id;
    var rec := MoveRecord(w.clients[id], ToVec3(step.position).value, OrZero(step.rotation), step.clientSeq);
    var w' := w.(clients := w.clients[id := rec]);
    GuardInWorld(w', step.guard, [MoveEffect(w'.clients, id, step.clientSeq)], finite);
  }

  lemma EmitStepInWorld(w: World, step: Step, finite: bool)
    requires InWorld(w, finite) && step.EmitNext? && Possible(w, step)
    ensures InWorld(Next(w, step), finite)
  {
    hide EffectInWorld, TableInWorld;
    var owed := w.readers[step.guard];
    assert EffectInWorld(owed[0], finite);
    PerformInWorld(w.net, [owed[0]], finite);
    PerformOne(w.net, owed[0]);
  }

  lemma GotoStepInWorld(w: World, step: Step, finite: bool)
    requires InWorld(w, finite) && step.Goto? && Possible(w, step) && (finite ==> FiniteGoto(step))
    ensures InWorld(Next(w, step), finite)
  {
    hide InWorldBounds, NetInWorld, AllInWorld;
    assert RecordInWorld(w.clients[step.id], finite);
  }

  lemma WalletStepInWorld(w: World, step: Step, finite: bool)
    requires InWorld(w, finite) && step.WalletBegin? && Possible(w, step)
    ensures InWorld(Next(w, step), finite)
  {
    hide InWorldBounds, NetInWorld;
    assert RecordInWorld(w.clients[step.id], finite);
    GuardInWorld(w, step.guard, WalletEffects(w.clients, step.id, step.room, step.access), finite);
  }

  lemma ChatStepInWorld(w: World, step: Step, finite: bool)
    requires InWorld(w, finite) && step.ChatBegin? && Possible(w, step)
    ensures InWorld(Next(w, step), finite)
  {
    hide InWorldBounds, NetInWorld;
    GuardInWorld(w, step.guard, [ChatEffect(w.clients, step.id, step.text)], finite);
  }

  lemma TickKeepsRooms(cs: Clients, dist: map<Sid, real>)
    requires forall p :: p in dist ==> 0.0 <= dist[p]
    ensures forall p :: p in cs ==> TickClients(cs, dist)[p].room == cs[p].room
  {
  }

  lemma OtherStepInWorld(w: World, step: Step, finite: bool)
    requires InWorld(w, finite) && Possible(w, step)
    requires step.Connect? || step.Close? || step.Authenticate? || step.JoinAbort? || step.JoinBegin?
          || step.JoinCommit? || step.LeaveSpace? || step.SetUserData? || step.Disconnect?
    ensures InWorld(Next(w, step), finite)
  {
    hide CommitEffects, CommitRoom, CommitProfile, ProfileEffects, AllInWorld, NetInWorld, RecordInWorld, PerformAll;
    match step {
      case Connect(id) =>
        NewRecordInWorld(finite);
        OpensInWorld(w.net, id, finite);
      case Close(id) =>
        assert NetInWorld(Next(w, step).net, finite) by { SameTrafficInWorld(w.net, Next(w, step).net, finite); }
      case Authenticate(id, wallet) =>
        WalletInWorld(w.clients[id], wallet, finite);
      case JoinAbort(_) =>
      case JoinBegin(_, id, _, _, claim) =>
        LeavingInWorld(w, id, claim, w.clients[id].room, finite);
      case JoinCommit(join, total, displaced) =>
        if Commits(w, join, total) {
          CommitInWorld(w.clients, w.joins[join], displaced, finite);
          PerformInWorld(w.net, CommitEffects(w.clients, w.joins[join], displaced), finite);
        }
      case LeaveSpace(id, room, claim) =>
        LeavingInWorld(w, id, claim, Some(room), finite);
      case SetUserData(id, _, displaced) =>
        ProfileInWorld(w.clients, step, finite);
        if w.clients[id].room.Some? {
          var info := CommitProfile(w.clients, id, step.data)[id].info;
          PerformInWorld(w.net, ProfileEffects(w.clients[id].room.value, id, info, displaced), finite);
        }
      case Disconnect(id) =>
        if RoomOf(w.clients, id).Some? {
          DeleteInWorld(w.net, w.clients[id].room.value, id, finite);
        }
    }
  }

  lemma NewRecordInWorld(finite: bool)
    ensures RecordInWorld(NEW_RECORD, finite)
  {
  }

  lemma RoomlessInWorld(rec: ClientRecord, rec': ClientRecord, finite: bool)
    requires RecordInWorld(rec, finite) && rec'.info == rec.info
    requires rec'.motion.None? || (rec'.motion == rec.motion && rec'.room == rec.room)
    ensures RecordInWorld(rec', finite)
  {
  }

  lemma WalletInWorld(rec: ClientRecord, wallet: Wallet, finite: bool)
    requires RecordInWorld(rec, finite)
    ensures RecordInWorld(WithWallet(rec, wallet), finite)
  {
  }

  lemma DeleteInWorld(net: Net, room: RoomId, id: Sid, finite: bool)
    requires NetInWorld(net, finite)
    ensures NetInWorld(Perform(net, Emit(Within(room), Delete(id))), finite)
  {
    hide NetInWorld;
    PerformOneInWorld(net, Emit(Within(room), Delete(id)), finite);
  }

  lemma SameTrafficInWorld(net: Net, net': Net, finite: bool)
    requires NetInWorld(net, finite) && net'.log == net.log && net'.inbox == net.inbox
    ensures NetInWorld(net', finite)
  {
  }

  lemma OpensInWorld(net: Net, id: Sid, finite: bool)
    requires NetInWorld(net, finite)
    ensures NetInWorld(net.(live := net.live + {id}, inbox := net.inbox[id := []]), finite)
  {
    hide EventInWorld;
  }

  lemma LeavingInWorld(w: World, id: Sid, claim: Option<nat>, room: Option<RoomId>, finite: bool)
    requires InWorld(w, finite) && NotesClaim(w.clients, id, claim)
    ensures TableInWorld(NoteClaim(w.clients, id, claim), finite)
    ensures TableInWorld(TakeRoom(NoteClaim(w.clients, id, claim), id), finite)
    ensures NetInWorld(PerformAll(w.net, LeaveEffects(id, room)), finite)
  {
    hide NetInWorld, AllInWorld, RecordInWorld, PerformAll;
    var noted := NoteClaim(w.clients, id, claim);
    RoomlessInWorld(w.clients[id], noted[id], finite);
    RoomlessInWorld(w.clients[id], Roomless(noted[id]), finite);
    LeaveEffectsInWorld(id, room, finite);
    PerformInWorld(w.net, LeaveEffects(id, room), finite);
  }

  lemma LeaveEffectsInWorld(id: Sid, room: Option<RoomId>, finite: bool)
    ensures AllInWorld(LeaveEffects(id, room), finite)
  {
  }

  lemma StepStaysInWorld(w: World, step: Step, finite: bool)
    requires InWorld(w, finite) && (finite ==> FiniteGoto(step))
    ensures InWorld(Apply(w, step), finite)
  {
    hide InWorld, Possible, Next;
    if Possible(w, step) {
      match step {
        case MoveBegin(_, _, _, _, _) => MoveStepInWorld(w, step, finite);
        case Goto(_, _, _, _) => GotoStepInWorld(w, step, finite);
        case ChatBegin(_, _, _) => ChatStepInWorld(w, step, finite);
        case WalletBegin(_, _, _, _) => WalletStepInWorld(w, step, finite);
        case TickBegin(_, _, _) => TickStepInWorld(w, step, finite);
        case EmitNext(_) => EmitStepInWorld(w, step, finite);
        case _ => OtherStepInWorld(w, step, finite);
      }
    }
  }

  lemma {:induction false} ExecStaysInWorld(w: World, steps: seq<Step>, finite: bool)
    requires InWorld(w, finite) && (finite ==> FiniteGotos(steps))
    ensures InWorld(Exec(w, steps), finite)
  {
    hide InWorld, Apply, FiniteGoto;
    if steps != [] {
      ExecStaysInWorld(w, steps[..|steps| - 1], finite);
      StepStaysInWorld(Exec(w, steps[..|steps| - 1]), steps[|steps| - 1], finite);
    }
  }

  /** World bounds are inductive: after any run every position in the table, every motion target, and
      every position ever broadcast or still owed, interpolated ones included, is inside the world box;
      a record with a motion has a room, so the roomless branch of the tick is never taken; and if all
      `goto` events carried a finite rotation or none, every rotation is finite, in the table and in
      everything ever received. */
  lemma RunStaysInWorld(steps: seq<Step>)
    ensures InWorld(Run(steps), FiniteGotos(steps))
  {
    StartInWorld(FiniteGotos(steps));
    ExecStaysInWorld(START, steps, FiniteGotos(steps));
  }

  lemma StartInWorld(finite: bool)
    ensures InWorld(START, finite)
  {
  }

  // --------------------------------------------------------------- goto arrival

  /** A record after ticks at which the server measured the distances `dists`, nothing else happening. */
  ghost function TickTimes(rec: ClientRecord, dists: seq<real>): ClientRecord
    requires forall i :: 0 <= i < |dists| ==> 0.0 <= dists[i]
  {
    if dists == [] then rec else TickRecord(TickTimes(rec, dists[..|dists| - 1]), dists[|dists| - 1])
  }

  /** Each of them is the distance that was left at its tick. */
  ghost predicate Measured(rec: ClientRecord, dists: seq<real>)
    requires forall i :: 0 <= i < |dists| ==> 0.0 <= dists[i]
  {
    forall i {:trigger dists[i]} :: 0 <= i < |dists| ==>
      var before := TickTimes(rec, dists[..i]);
      before.motion.Some? ==> IsDistance(dists[i], before.info.position, before.motion.value.target)
  }

  lemma MeasuredPrefix(rec: ClientRecord, dists: seq<real>)
    requires dists != [] && forall i :: 0 <= i < |dists| ==> 0.0 <= dists[i]
    requires Measured(rec, dists)
    ensures var n := |dists| - 1;
            var before := TickTimes(rec, dists[..n]);
            && Measured(rec, dists[..n])
            && (before.motion.Some? ==> IsDistance(dists[n], before.info.position, before.motion.value.target))
  {
    hide IsDistance, TickRecord;
    var n := |dists| - 1;
    assert forall i :: 0 <= i < n ==> dists[..n][i] == dists[i] && dists[..n][..i] == dists[..i];
  }

  /** A tick before the last one: a step closer, and the motion goes on. */
  lemma TickGoesOn(rec: ClientRecord, left: real)
    requires rec.motion.Some? && rec.room.Some? && 0.0001 < StepLength(rec.motion.value.speed)
    requires IsDistance(left, rec.info.position, rec.motion.value.target) && 0.0 <= left
    requires TicksToArrive(left, StepLength(rec.motion.value.speed)) > 1
    ensures var now, step := TickRecord(rec, left), StepLength(rec.motion.value.speed);
            && now.motion == rec.motion && now.room == rec.room
            && 0.0 <= left - step && IsDistance(left - step, now.info.position, rec.motion.value.target)
            && TicksToArrive(left - step, step) == TicksToArrive(left, step) - 1
  {
    hide TicksToArrive, IsDistance, NextPosition, StepLength;
    var step := StepLength(rec.motion.value.speed);
    OneTickLess(left, step);
    TickShrinksByStep(rec.info.position, rec.motion.value.target, left, step);
  }

  /** The last tick. */
  lemma TickArrives(rec: ClientRecord, left: real)
    requires rec.motion.Some? && rec.room.Some? && 0.0001 < StepLength(rec.motion.value.speed) && 0.0 <= left
    requires TicksToArrive(left, StepLength(rec.motion.value.speed)) == 1
    ensures TickRecord(rec, left).motion.None?
    ensures TickRecord(rec, left).info.position == rec.motion.value.target
  {
    hide TicksToArrive, StepLength;
    OneTickLess(left, StepLength(rec.motion.value.speed));
  }

  /** What is left of `dist` after `n` steps. */
  ghost function Left(dist: real, step: real, n: nat): real {
    dist - n as real * step
  }

  lemma LeftStep(dist: real, step: real, n: nat)
    ensures Left(dist, step, 0) == dist
    ensures Left(dist, step, n + 1) == Left(dist, step, n) - step
  {
  }

  /** While a flight lasts: after `|dists|` ticks exactly `|dists|` steps of the way are behind. */
  lemma {:induction false} FlightProgress(rec: ClientRecord, dist: real, dists: seq<real>)
    requires rec.motion.Some? && rec.room.Some? && 0.0001 < StepLength(rec.motion.value.speed)
    requires 0.0 <= dist && IsDistance(dist, rec.info.position, rec.motion.value.target)
    requires forall i :: 0 <= i < |dists| ==> 0.0 <= dists[i]
    requires Measured(rec, dists)
    requires |dists| < TicksToArrive(dist, StepLength(rec.motion.value.speed))
    ensures var step, now := StepLength(rec.motion.value.speed), TickTimes(rec, dists);
            var left := Left(dist, step, |dists|);
            && now.motion == rec.motion && now.room == rec.room
            && 0.0 <= left && IsDistance(left, now.info.position, rec.motion.value.target)
            && TicksToArrive(left, step) == TicksToArrive(dist, step) - |dists|
  {
    hide TicksToArrive, IsDistance, StepLength, TickRecord, Measured, Left;
    var step := StepLength(rec.motion.value.speed);
    if dists == [] {
      LeftStep(dist, step, 0);
    } else {
      var n := |dists| - 1;
      MeasuredPrefix(rec, dists);
      FlightProgress(rec, dist, dists[..n]);
      var before, left := TickTimes(rec, dists[..n]), Left(dist, step, n);
      DistanceIsUnique(left, dists[n], before.info.position, rec.motion.value.target);
      TickGoesOn(before, left);
      LeftStep(dist, step, n);
    }
  }

  /** Motion arrives exactly: an undisturbed goto over distance `dist` lands on its target, and stops,
      at tick number max(1, ceil(dist / step)) and, by the progress lemma, at no earlier one. */
  lemma GotoArrives(rec: ClientRecord, dist: real, dists: seq<real>)
    requires rec.motion.Some? && rec.room.Some? && 0.0001 < StepLength(rec.motion.value.speed)
    requires 0.0 <= dist && IsDistance(dist, rec.info.position, rec.motion.value.target)
    requires forall i :: 0 <= i < |dists| ==> 0.0 <= dists[i]
    requires Measured(rec, dists)
    requires |dists| == TicksToArrive(dist, StepLength(rec.motion.value.speed))
    ensures TickTimes(rec, dists).motion.None?
    ensures TickTimes(rec, dists).info.position == rec.motion.value.target
  {
    hide IsDistance, StepLength, TickRecord, Measured, Left;
    var step := StepLength(rec.motion.value.speed);
    var n := |dists| - 1;
    MeasuredPrefix(rec, dists);
    FlightProgress(rec, dist, dists[..n]);
    var before, left := TickTimes(rec, dists[..n]), Left(dist, step, n);
    DistanceIsUnique(left, dists[n], before.info.position, rec.motion.value.target);
    TickArrives(before, left);
  }

  /** And there it stays: further ticks leave the record alone. */
  lemma {:induction false} StaysArrived(rec: ClientRecord, dist: real, dists: seq<real>)
    requires rec.motion.Some? && rec.room.Some? && 0.0001 < StepLength(rec.motion.value.speed)
    requires 0.0 <= dist && IsDistance(dist, rec.info.position, rec.motion.value.target)
    requires forall i :: 0 <= i < |dists| ==> 0.0 <= dists[i]
    requires Measured(rec, dists)
    requires |dists| >= TicksToArrive(dist, StepLength(rec.motion.value.speed))
    ensures TickTimes(rec, dists).motion.None?
    ensures TickTimes(rec, dists).info.position == rec.motion.value.target
  {
    hide IsDistance, StepLength, Measured, TicksToArrive;
    if |dists| == TicksToArrive(dist, StepLength(rec.motion.value.speed)) {
      GotoArrives(rec, dist, dists);
    } else {
      MeasuredPrefix(rec, dists);
      StaysArrived(rec, dist, dists[..|dists| - 1]);
    }
  }

  /** Every speed `on_goto` admits makes such a step. */
  lemma AdmittedSpeedMakesProgress(speed: Option<F32>)
    requires speed != Some(NaN)
    ensures 0.1 <= ClampSpeed(speed) <= 50.0
    ensures 0.0001 < StepLength(ClampSpeed(speed))
  {
  }

  /** The distances `id`'s record met at the ticks among `steps`. */
  ghost function DistancesMet(w: World, steps: seq<Step>, id: Sid): seq<real> {
    if steps == [] then []
    else
      var n := |steps| - 1;
      DistancesMet(w, steps[..n], id)
      + if steps[n].TickBegin? && Possible(Exec(w, steps[..n]), steps[n])
        then [if id in steps[n].dist then steps[n].dist[id] else 0.0] else []
  }

  /** Nothing but ticks touches the record of `id`; everything else may happen in between. */
  ghost predicate Undisturbed(w: World, steps: seq<Step>, id: Sid) {
    if steps == [] then id in w.clients
    else
      var before, after := Exec(w, steps[..|steps| - 1]), Exec(w, steps);
      && Undisturbed(w, steps[..|steps| - 1], id)
      && id in before.clients && id in after.clients
      && (!steps[|steps| - 1].TickBegin? ==> after.clients[id] == before.clients[id])
  }

  lemma TickOnRecord(w: World, step: Step, id: Sid)
    requires InWorld(w, false) && step.TickBegin? && Possible(w, step) && id in w.clients
    ensures var d := if id in step.dist then step.dist[id] else 0.0;
            var rec := w.clients[id];
            && 0.0 <= d && id in Next(w, step).clients && Next(w, step).clients[id] == TickRecord(rec, d)
            && (rec.motion.Some? ==> IsDistance(d, rec.info.position, rec.motion.value.target))
  {
    hide TickRecord, IsDistance, InWorldBounds;
    assert RecordInWorld(w.clients[id], false);
  }

  lemma MeasuredSnoc(rec: ClientRecord, dists: seq<real>, d: real)
    requires 0.0 <= d && forall i :: 0 <= i < |dists| ==> 0.0 <= dists[i]
    requires Measured(rec, dists)
    requires var now := TickTimes(rec, dists);
             now.motion.Some? ==> IsDistance(d, now.info.position, now.motion.value.target)
    ensures Measured(rec, dists + [d])
    ensures TickTimes(rec, dists + [d]) == TickRecord(TickTimes(rec, dists), d)
  {
    hide TickRecord, IsDistance;
    var more := dists + [d];
    assert more[..|dists|] == dists;
    assert forall i :: 0 <= i < |dists| ==> more[i] == dists[i] && more[..i] == dists[..i];
  }

  /** The record in the run is the record after its ticks. */
  lemma {:induction false} TicksInRun(w: World, steps: seq<Step>, id: Sid)
    requires InWorld(w, false) && Undisturbed(w, steps, id)
    ensures forall i :: 0 <= i < |DistancesMet(w, steps, id)| ==> 0.0 <= DistancesMet(w, steps, id)[i]
    ensures id in w.clients && id in Exec(w, steps).clients
    ensures Exec(w, steps).clients[id] == TickTimes(w.clients[id], DistancesMet(w, steps, id))
    ensures Measured(w.clients[id], DistancesMet(w, steps, id))
  {
    hide TickRecord, IsDistance, InWorld, Measured, Possible, Next, TickTimes;
    if steps != [] {
      var n := |steps| - 1;
      TicksInRun(w, steps[..n], id);
      ExecStaysInWorld(w, steps[..n], false);
      var before, step := Exec(w, steps[..n]), steps[n];
      if step.TickBegin? && Possible(before, step) {
        TickOnRecord(before, step, id);
        MeasuredSnoc(w.clients[id], DistancesMet(w, steps[..n], id), if id in step.dist then step.dist[id] else 0.0);
      } else {
        assert DistancesMet(w, steps, id) == DistancesMet(w, steps[..n], id);
      }
    } else {
      NothingMeasured(w.clients[id]);
    }
  }

  lemma NothingMeasured(rec: ClientRecord)
    ensures Measured(rec, []) && TickTimes(rec, []) == rec
  {
  }

  lemma MotionHasRoom(w: World, id: Sid)
    requires InWorld(w, false) && id in w.clients && w.clients[id].motion.Some?
    ensures w.clients[id].room.Some?
  {
    assert RecordInWorld(w.clients[id], false);
  }

  /** A motion of `id` that starts in `w` at distance `dist` and makes progress. */
  ghost predicate Flying(w: World, id: Sid, dist: real) {
    && InWorld(w, false) && id in w.clients && w.clients[id].motion.Some?
    && 0.0001 < StepLength(w.clients[id].motion.value.speed)
    && 0.0 <= dist && IsDistance(dist, w.clients[id].info.position, w.clients[id].motion.value.target)
  }

  /** How many ticks it takes. */
  ghost function TicksOf(w: World, id: Sid, dist: real): nat
    requires Flying(w, id, dist)
  {
    TicksToArrive(dist, StepLength(w.clients[id].motion.value.speed))
  }

  /** Where the record is after some of the steps that follow. */
  lemma FlightInRun(w: World, steps: seq<Step>, id: Sid, dist: real)
    requires Flying(w, id, dist) && Undisturbed(w, steps, id)
    ensures id in Exec(w, steps).clients
    ensures var rec, now, ticks := w.clients[id], Exec(w, steps).clients[id], |DistancesMet(w, steps, id)|;
            && (ticks < TicksOf(w, id, dist) ==>
                  && now.motion == rec.motion && now.room == rec.room
                  && IsDistance(Left(dist, StepLength(rec.motion.value.speed), ticks),
                                now.info.position, rec.motion.value.target))
            && (ticks >= TicksOf(w, id, dist) ==>
                  now.motion.None? && now.info.position == rec.motion.value.target)
  {
    hide InWorld, IsDistance, StepLength, TicksToArrive, Measured, DistancesMet, TickTimes, Left, Exec, Undisturbed;
    TicksInRun(w, steps, id);
    MotionHasRoom(w, id);
    var rec, dists := w.clients[id], DistancesMet(w, steps, id);
    if |dists| < TicksOf(w, id, dist) {
      FlightProgress(rec, dist, dists);
    } else {
      StaysArrived(rec, dist, dists);
    }
  }

  // ------------------------------------------------ one broadcast for each tick

  /** The `move` broadcasts of `id` among some effects. */
  ghost function MovesOf(es: seq<Effect>, id: Sid): nat {
    if es == [] then 0
    else
      var e := es[|es| - 1];
      MovesOf(es[..|es| - 1], id) + if e.Emit? && e.event.Moved? && e.event.id == id then 1 else 0
  }

  /** How many of them the ticks among `steps` queue. */
  ghost function MovesQueued(w: World, steps: seq<Step>, id: Sid): nat {
    if steps == [] then 0
    else
      var n := |steps| - 1;
      var before := Exec(w, steps[..n]);
      MovesQueued(w, steps[..n], id)
      + if steps[n].TickBegin? && Possible(before, steps[n]) then MovesOf(QueuedByTick(before, steps[n]), id) else 0
  }

  ghost function QueuedByTick(w: World, step: Step): seq<Effect>
    requires step.TickBegin? && Possible(w, step)
  {
    TickKeepsRooms(w.clients, step.dist);
    TickEffects(TickClients(w.clients, step.dist), step.moved)
  }

  lemma MovesSnoc(es: seq<Effect>, e: Effect, id: Sid)
    ensures MovesOf(es + [e], id)
            == MovesOf(es, id) + if e.Emit? && e.event.Moved? && e.event.id == id then 1 else 0
  {
    assert (es + [e])[..|es|] == es;
  }

  lemma {:induction false} OneMoveEach(cs: Clients, moved: seq<Sid>, id: Sid)
    requires forall p :: p in moved ==> p in cs && cs[p].room.Some?
    requires forall i, j :: 0 <= i < j < |moved| ==> moved[i] != moved[j]
    ensures MovesOf(TickEffects(cs, moved), id) == if id in moved then 1 else 0
  {
    hide MovesOf;
    if moved == [] {
      assert MovesOf([], id) == 0 by { NoMoves(id); }
    } else {
      var n := |moved| - 1;
      OneMoveEach(cs, moved[..n], id);
      MovesSnoc(TickEffects(cs, moved[..n]), MoveEffect(cs, moved[n], None), id);
      assert id in moved <==> id in moved[..n] || id == moved[n];
    }
  }

  lemma NoMoves(id: Sid)
    ensures MovesOf([], id) == 0
  {
  }

  lemma TickQueuesOne(w: World, step: Step, id: Sid)
    requires step.TickBegin? && Possible(w, step) && id in w.clients
    requires w.clients[id].motion.Some? ==> w.clients[id].room.Some?
    ensures MovesOf(QueuedByTick(w, step), id) == if w.clients[id].motion.Some? then 1 else 0
  {
    hide TickRecord, Measures, TickEffects, MovesOf;
    TickKeepsRooms(w.clients, step.dist);
    OneMoveEach(TickClients(w.clients, step.dist), step.moved, id);
  }

  lemma TickCounts(w: World, steps: seq<Step>, id: Sid)
    requires steps != []
    ensures var n := |steps| - 1;
            var before := Exec(w, steps[..n]);
            if steps[n].TickBegin? && Possible(before, steps[n]) then
              && |DistancesMet(w, steps, id)| == |DistancesMet(w, steps[..n], id)| + 1
              && MovesQueued(w, steps, id)
                 == MovesQueued(w, steps[..n], id) + MovesOf(QueuedByTick(before, steps[n]), id)
            else
              && |DistancesMet(w, steps, id)| == |DistancesMet(w, steps[..n], id)|
              && MovesQueued(w, steps, id) == MovesQueued(w, steps[..n], id)
  {
    hide Possible, MovesOf, QueuedByTick, Exec;
  }

  /** Each tick of the flight queues one broadcast, and no later tick does. */
  lemma {:induction false} FlightIsBroadcast(w: World, steps: seq<Step>, id: Sid, dist: real)
    requires Flying(w, id, dist) && Undisturbed(w, steps, id)
    ensures var ticks := |DistancesMet(w, steps, id)|;
            MovesQueued(w, steps, id) == if ticks < TicksOf(w, id, dist) then ticks else TicksOf(w, id, dist)
  {
    hide Possible, Next, Flying, MovesOf, QueuedByTick, StepLength, Ceil;
    if steps != [] {
      hide MovesQueued, DistancesMet, TicksOf;
      var n := |steps| - 1;
      FlightIsBroadcast(w, steps[..n], id, dist);
      FlightInRun(w, steps[..n], id, dist);
      TickCounts(w, steps, id);
      var before := Exec(w, steps[..n]);
      if steps[n].TickBegin? && Possible(before, steps[n]) {
        FlyingHasRoom(w, id, dist);
        TickQueuesOne(before, steps[n], id);
      }
    }
  }

  lemma FlyingHasRoom(w: World, id: Sid, dist: real)
    requires Flying(w, id, dist)
    ensures w.clients[id].motion.Some? && w.clients[id].room.Some?
  {
    MotionHasRoom(w, id);
  }

  /** The same in a run: however the ticks interleave with everything else the server does, an undisturbed
      motion of `id` is still flying after fewer than max(1, ceil(dist / step)) ticks, with exactly the
      steps made behind it; it has arrived after that many and stays; and the ticks have queued exactly
      one `move` broadcast of `id` each until then, and none after. */
  lemma GotoArrivesInRun(past: seq<Step>, steps: seq<Step>, id: Sid, dist: real)
    requires Undisturbed(Run(past), steps, id) && id in Run(past).clients
    requires Run(past).clients[id].motion.Some?
    requires 0.0001 < StepLength(Run(past).clients[id].motion.value.speed)
    requires 0.0 <= dist
    requires IsDistance(dist, Run(past).clients[id].info.position, Run(past).clients[id].motion.value.target)
    ensures id in Exec(Run(past), steps).clients
    ensures var rec, now := Run(past).clients[id], Exec(Run(past), steps).clients[id];
            var step, ticks := StepLength(rec.motion.value.speed), |DistancesMet(Run(past), steps, id)|;
            && (ticks < TicksToArrive(dist, step) ==>
                  && now.motion == rec.motion
                  && IsDistance(Left(dist, step, ticks), now.info.position, rec.motion.value.target)
                  && MovesQueued(Run(past), steps, id) == ticks)
            && (ticks >= TicksToArrive(dist, step) ==>
                  && now.motion.None? && now.info.position == rec.motion.value.target
                  && MovesQueued(Run(past), steps, id) == TicksToArrive(dist, step))
  {
    hide InWorld, IsDistance, StepLength, TicksToArrive, DistancesMet, MovesQueued, Left, Exec, Undisturbed;
    StartInWorld(false);
    ExecStaysInWorld(START, past, false);
    FlightInRun(Run(past), steps, id, dist);
    FlightIsBroadcast(Run(past), steps, id, dist);
  }
}
