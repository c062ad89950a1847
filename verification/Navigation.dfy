/** Claim generations and move numbers: what orders the navigation of one socket over a whole run. */
module Navigation {
  import opened Common
  import opened Motion
  import opened Presence
  import opened Network
  import opened Protocol

  // ---------------------------------------------------------------- one step

  /** The handler reaches `note_presence_claim` for `id` with `claim`, whatever that answers. */
  ghost predicate Attempts(w: World, step: Step, id: Sid, claim: Option<nat>) {
    && WriteFree(w) && id in w.clients
    && match step
       case JoinBegin(join, p, _, _, c) => join !in w.joins && p == id && c == claim
       case LeaveSpace(p, _, c) => p == id && c == claim
       case _ => false
  }

  /** Phase 2 of a join of `id` with `claim` commits. */
  ghost predicate CommitsJoin(w: World, step: Step, id: Sid, claim: Option<nat>) {
    && step.JoinCommit? && Possible(w, step) && Commits(w, step.join, step.totalSpaces)
    && w.joins[step.join].id == id && w.joins[step.join].claim == claim
  }

  /** A handler without a claim acts on `id`: either phase of a join, or a leave. */
  ghost predicate ActsClaimless(w: World, step: Step, id: Sid) {
    match step
    case JoinBegin(_, p, _, _, c) => p == id && c.None?
    case LeaveSpace(p, _, c) => p == id && c.None?
    case JoinCommit(join, _, _) => join in w.joins && w.joins[join].id == id && w.joins[join].claim.None?
    case _ => false
  }

  /** The latest claim of a socket never goes back. */
  lemma LatestNeverDrops(w: World, step: Step, id: Sid)
    requires id in w.clients && id in Apply(w, step).clients
    ensures w.clients[id].latestClaim <= Apply(w, step).clients[id].latestClaim
    ensures forall c: nat :: Attempts(w, step, id, Some(c)) ==> c <= Apply(w, step).clients[id].latestClaim
  {
    hide PerformAll, CommitEffects, ProfileEffects, TickEffects, Measures, NextPosition;
  }

  /** A removed socket never comes back: its id stays known to the network. */
  ghost predicate IdsAreKnown(w: World) {
    forall p :: p in w.clients ==> p in w.net.inbox
  }

  lemma {:induction false} PerformKeepsIds(net: Net, es: seq<Effect>)
    ensures PerformAll(net, es).inbox.Keys == net.inbox.Keys && PerformAll(net, es).live == net.live
  {
    if es != [] {
      PerformKeepsIds(net, es[..|es| - 1]);
    }
  }

  lemma KnownIdsStay(w: World, step: Step)
    ensures w.net.inbox.Keys <= Apply(w, step).net.inbox.Keys
    ensures forall p :: p in Apply(w, step).clients && p !in w.clients ==> p !in w.net.inbox
    ensures IdsAreKnown(w) ==> IdsAreKnown(Apply(w, step))
  {
    hide PerformAll, CommitEffects, ProfileEffects, TickEffects, Measures, TickRecord;
    forall es ensures PerformAll(w.net, es).inbox.Keys == w.net.inbox.Keys {
      PerformKeepsIds(w.net, es);
    }
  }

  // ---------------------------------------------------------------- whole runs

  lemma {:induction false} RunKnowsIds(steps: seq<Step>)
    ensures IdsAreKnown(Run(steps))
  {
    hide Apply, IdsAreKnown;
    if steps == [] {
      NobodyYet();
    } else {
      RunKnowsIds(steps[..|steps| - 1]);
      KnownIdsStay(Run(steps[..|steps| - 1]), steps[|steps| - 1]);
    }
  }

  lemma NobodyYet()
    ensures IdsAreKnown(START)
  {
  }

  /** A socket known at some moment that has a record later had it all along, and its latest claim did
      not go back meanwhile. */
  lemma {:induction false} LatestIsMonotone(steps: seq<Step>, i: nat, id: Sid)
    requires i <= |steps| && id in Run(steps[..i]).net.inbox && id in Run(steps).clients
    ensures id in Run(steps[..i]).clients
    ensures Run(steps[..i]).clients[id].latestClaim <= Run(steps).clients[id].latestClaim
    ensures id in Run(steps).net.inbox
    decreases |steps|
  {
    hide Apply, IdsAreKnown;
    if i == |steps| {
      assert steps[..i] == steps;
    } else {
      var n := |steps| - 1;
      assert steps[..n][..i] == steps[..i];
      KnownIdsGrow(steps[..n], i);
      KnownIdsStay(Run(steps[..n]), steps[n]);
      LatestIsMonotone(steps[..n], i, id);
      LatestNeverDrops(Run(steps[..n]), steps[n], id);
    }
  }

  lemma {:induction false} KnownIdsGrow(steps: seq<Step>, i: nat)
    requires i <= |steps|
    ensures Run(steps[..i]).net.inbox.Keys <= Run(steps).net.inbox.Keys
    decreases |steps|
  {
    hide Apply;
    if i == |steps| {
      assert steps[..i] == steps;
    } else {
      var n := |steps| - 1;
      assert steps[..n][..i] == steps[..i];
      KnownIdsGrow(steps[..n], i);
      KnownIdsStay(Run(steps[..n]), steps[n]);
    }
  }

  lemma LatestAfterAttempt(steps: seq<Step>, i: nat, j: nat, id: Sid, c: nat)
    requires i < j <= |steps|
    requires Attempts(Run(steps[..i]), steps[i], id, Some(c))
    requires id in Run(steps[..j]).clients
    ensures c <= Run(steps[..j]).clients[id].latestClaim
  {
    hide Apply, IdsAreKnown;
    var at, after := steps[..i], steps[..i + 1];
    assert after[..i] == at;
    assert steps[..j][..i] == at && steps[..j][..i + 1] == after;
    RunKnowsIds(at);
    IdIsKnown(Run(at), id);
    KnownIdsStay(Run(at), steps[i]);
    LatestIsMonotone(steps[..j], i + 1, id);
    LatestNeverDrops(Run(at), steps[i], id);
  }

  lemma IdIsKnown(w: World, id: Sid)
    requires IdsAreKnown(w) && id in w.clients
    ensures id in w.net.inbox
  {
  }

  /** Navigation order: a join commits only if no join or leave with a larger claim was noted, or even
      attempted, earlier on that socket. */
  lemma CommitsOnlyLatest(steps: seq<Step>, i: nat, j: nat, id: Sid, c: nat, d: nat)
    requires i < j < |steps|
    requires Attempts(Run(steps[..i]), steps[i], id, Some(c))
    requires CommitsJoin(Run(steps[..j]), steps[j], id, Some(d))
    ensures c <= d
  {
    hide Run, Possible;
    LatestAfterAttempt(steps, i, j, id, c);
  }

  /** A strictly newer leave (or join) cancels an in-flight join: its phase 2 never commits. */
  lemma NewerIntentCancels(steps: seq<Step>, i: nat, join: nat)
    requires i < |steps| && join in Run(steps).joins && Run(steps).joins[join].claim.Some?
    requires var j := Run(steps).joins[join];
             exists c: nat :: Attempts(Run(steps[..i]), steps[i], j.id, Some(c)) && c > j.claim.value
    ensures forall total :: !Commits(Run(steps), join, total)
  {
    hide Run, Possible;
    var j := Run(steps).joins[join];
    var c: nat :| Attempts(Run(steps[..i]), steps[i], j.id, Some(c)) && c > j.claim.value;
    assert steps[..|steps|] == steps;
    if j.id in Run(steps).clients {
      LatestAfterAttempt(steps, i, |steps|, j.id, c);
    }
  }

  /** Committed claims of one socket never decrease. */
  lemma CommittedClaimsNeverDecrease(steps: seq<Step>, i: nat, j: nat, id: Sid, c: nat, d: nat)
    requires i < j < |steps|
    requires CommitsJoin(Run(steps[..i]), steps[i], id, Some(c))
    requires CommitsJoin(Run(steps[..j]), steps[j], id, Some(d))
    ensures c <= d
  {
    hide Run, Possible, IdsAreKnown;
    var at := steps[..i];
    assert steps[..j][..i] == at;
    RunKnowsIds(at);
    IdIsKnown(Run(at), id);
    LatestIsMonotone(steps[..j], i, id);
  }

  /** Once a positive claim was seen on a socket, no claimless join or leave changes its room. */
  lemma ClaimlessIsIgnored(steps: seq<Step>, i: nat, j: nat, id: Sid, c: nat)
    requires i < j < |steps| && c > 0
    requires Attempts(Run(steps[..i]), steps[i], id, Some(c))
    requires ActsClaimless(Run(steps[..j]), steps[j], id)
    ensures Apply(Run(steps[..j]), steps[j]).clients == Run(steps[..j]).clients
    ensures Apply(Run(steps[..j]), steps[j]).net == Run(steps[..j]).net
  {
    hide Run;
    var w := Run(steps[..j]);
    if id in w.clients {
      LatestAfterAttempt(steps, i, j, id, c);
      assert w.clients[id].latestClaim > 0;
    }
  }

  // -------------------------------------------------------------- move numbers

  /** A stay: the client sequence numbers accepted since the record last entered a room from elsewhere,
      and how many moves (its own and ticks) were applied to it since. */
  datatype Stay = Stay(accepted: seq<nat>, applied: nat)

  ghost predicate Enters(w: World, step: Step, id: Sid) {
    && step.JoinCommit? && Possible(w, step) && Commits(w, step.join, step.totalSpaces)
    && w.joins[step.join].id == id && w.clients[id].room != Some(w.joins[step.join].room)
  }

  ghost predicate Moves(w: World, step: Step, id: Sid) {
    step.MoveBegin? && step.id == id && Possible(w, step)
  }

  ghost predicate Ticks(w: World, step: Step, id: Sid) {
    step.TickBegin? && Possible(w, step) && id in Movers(w.clients)
  }

  ghost function StayAfter(stay: Stay, w: World, step: Step, id: Sid): Stay {
    if Enters(w, step, id) then Stay([], 0)
    else if Moves(w, step, id) then
      Stay(if step.clientSeq.Some? then stay.accepted + [step.clientSeq.value] else stay.accepted, stay.applied + 1)
    else if Ticks(w, step, id) then stay.(applied := stay.applied + 1)
    else stay
  }

  ghost function StayOf(steps: seq<Step>, id: Sid): Stay {
    if steps == [] then Stay([], 0)
    else StayAfter(StayOf(steps[..|steps| - 1], id), Run(steps[..|steps| - 1]), steps[|steps| - 1], id)
  }

  function Last(accepted: seq<nat>): nat {
    if accepted == [] then 0 else accepted[|accepted| - 1]
  }

  function Saturated(n: nat): nat {
    if n < U64_MAX then n else U64_MAX
  }

  ghost predicate StrictlyIncreasing(s: seq<nat>) {
    forall i, j :: 0 <= i < j < |s| ==> s[i] < s[j]
  }

  ghost predicate Numbered(rec: ClientRecord, stay: Stay) {
    && StrictlyIncreasing([0] + stay.accepted)
    && rec.lastClientSeq == Last(stay.accepted)
    && rec.serverSeq == Saturated(stay.applied)
  }

  /** Steps that do not count moves leave the counters alone. */
  lemma CountersStay(w: World, step: Step, id: Sid)
    requires id in w.clients && id in Apply(w, step).clients
    requires !step.JoinCommit? && !step.MoveBegin? && !step.TickBegin?
    ensures Apply(w, step).clients[id].serverSeq == w.clients[id].serverSeq
    ensures Apply(w, step).clients[id].lastClientSeq == w.clients[id].lastClientSeq
  {
    hide PerformAll, ProfileEffects, LeaveEffects, Enumerates;
  }

  /** What one step does to the counters of one record. */
  lemma CountersAfter(w: World, step: Step, id: Sid)
    requires id in w.clients && id in Apply(w, step).clients
    ensures var rec, rec' := w.clients[id], Apply(w, step).clients[id];
            && (Enters(w, step, id) ==> rec'.lastClientSeq == 0 && rec'.serverSeq == 0)
            && (Moves(w, step, id) ==>
                  && rec'.serverSeq == SatInc(rec.serverSeq)
                  && (step.clientSeq.Some? ==> rec.lastClientSeq < step.clientSeq.value == rec'.lastClientSeq)
                  && (step.clientSeq.None? ==> rec'.lastClientSeq == rec.lastClientSeq))
            && (Ticks(w, step, id) ==>
                  rec'.serverSeq == SatInc(rec.serverSeq) && rec'.lastClientSeq == rec.lastClientSeq)
            && (!Enters(w, step, id) && !Moves(w, step, id) && !Ticks(w, step, id) ==>
                  rec'.serverSeq == rec.serverSeq && rec'.lastClientSeq == rec.lastClientSeq)
  {
    hide PerformAll, CommitEffects, TickEffects, Measures, NextPosition, SatInc, Enumerates;
    if !step.JoinCommit? && !step.MoveBegin? && !step.TickBegin? {
      CountersStay(w, step, id);
    }
  }

  /** Nobody has numbers before connecting. */
  lemma {:induction false} NoStayBeforeConnect(steps: seq<Step>, id: Sid)
    requires id !in Run(steps).net.inbox
    ensures StayOf(steps, id) == Stay([], 0)
  {
    hide Apply, IdsAreKnown;
    if steps != [] {
      var n := |steps| - 1;
      KnownIdsStay(Run(steps[..n]), steps[n]);
      NoStayBeforeConnect(steps[..n], id);
      RunKnowsIds(steps[..n]);
      StrangersDoNotMove(Run(steps[..n]), steps[n], id);
    }
  }

  lemma StrangersDoNotMove(w: World, step: Step, id: Sid)
    requires IdsAreKnown(w) && id !in w.net.inbox
    ensures !Enters(w, step, id) && !Moves(w, step, id) && !Ticks(w, step, id)
  {
  }

  lemma NewcomerIsFresh(w: World, step: Step, id: Sid)
    requires id !in w.clients && id in Apply(w, step).clients
    ensures Apply(w, step).clients[id] == NEW_RECORD
    ensures !Enters(w, step, id) && !Moves(w, step, id) && !Ticks(w, step, id)
  {
    hide PerformAll, CommitEffects, ProfileEffects, TickEffects, Measures, TickRecord;
  }

  lemma StayStaysNumbered(rec: ClientRecord, stay: Stay, w: World, step: Step, id: Sid)
    requires Numbered(rec, stay) && id in w.clients && w.clients[id] == rec && id in Apply(w, step).clients
    ensures Numbered(Apply(w, step).clients[id], StayAfter(stay, w, step, id))
  {
    hide Apply, Enters, Ticks, Possible;
    CountersAfter(w, step, id);
    if Moves(w, step, id) && step.clientSeq.Some? {
      assert [0] + (stay.accepted + [step.clientSeq.value]) == ([0] + stay.accepted) + [step.clientSeq.value];
      assert ([0] + stay.accepted)[|stay.accepted|] == Last(stay.accepted);
    }
  }

  /** Move numbering per stay, over every run: the accepted client numbers are positive and strictly
      increase, the record holds the last of them, and its server counter is the number of moves applied
      in this stay (saturating at the `u64` maximum). */
  lemma {:induction false} MovesAreNumbered(steps: seq<Step>, id: Sid)
    requires id in Run(steps).clients
    ensures Numbered(Run(steps).clients[id], StayOf(steps, id))
  {
    hide Apply, Numbered, StayAfter, IdsAreKnown;
    var n := |steps| - 1;
    var w := Run(steps[..n]);
    if id in w.clients {
      MovesAreNumbered(steps[..n], id);
      StayStaysNumbered(w.clients[id], StayOf(steps[..n], id), w, steps[n], id);
    } else {
      KnownIdsStay(w, steps[n]);
      NoStayBeforeConnect(steps[..n], id);
      NewcomerIsFresh(w, steps[n], id);
      FreshIsNumbered(w, steps[n], id);
    }
  }

  lemma FreshIsNumbered(w: World, step: Step, id: Sid)
    requires !Enters(w, step, id) && !Moves(w, step, id) && !Ticks(w, step, id)
    ensures Numbered(NEW_RECORD, StayAfter(Stay([], 0), w, step, id))
  {
  }

  /** A numbered move is accepted exactly when the client is in a room and the number exceeds every one
      accepted in this stay; so moves sent outside any room consume no number, and 1 is accepted again
      after every re-entry. */
  lemma AcceptedExactlyWhenNewer(steps: seq<Step>, id: Sid, k: nat)
    requires id in Run(steps).clients
    ensures AcceptsMove(Run(steps).clients, id, Some(k))
            <==> RoomOf(Run(steps).clients, id).Some? && forall n :: n in [0] + StayOf(steps, id).accepted ==> n < k
  {
    hide Run, StayOf;
    MovesAreNumbered(steps, id);
    var all := [0] + StayOf(steps, id).accepted;
    assert all[|all| - 1] == Last(StayOf(steps, id).accepted);
    assert all[|all| - 1] in all;
  }
}
