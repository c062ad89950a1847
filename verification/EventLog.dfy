/** The bridge's bounded event log and its polling readers (src/bin/agent_bridge.rs). A push takes its id
    under one lock and appends under another, so pushes may overtake each other. */
module EventLog {
  import opened Common

  type Payload = string
  datatype Envelope = Envelope(id: nat, event: Payload)

  const MAX_EVENTS := 2000

  function Newest(events: seq<Envelope>): seq<Envelope> {
    if |events| <= MAX_EVENTS then events else events[|events| - MAX_EVENTS..]
  }

  /** The first `limit` events with an id above `after`, in the order of the log. */
  function Select(events: seq<Envelope>, after: nat, limit: nat): seq<Envelope> {
    if events == [] || limit == 0 then []
    else if events[0].id > after then [events[0]] + Select(events[1..], after, limit - 1)
    else Select(events[1..], after, limit)
  }

  function ClampLimit(limit: Option<nat>): (l: nat)
    ensures 1 <= l <= 2000
  {
    var l := if limit.Some? then limit.value else 200;
    if l < 1 then 1 else if l > 2000 then 2000 else l
  }

  /** The polling reader's cursor after a batch: the largest id it has seen. */
  function CursorAfter(last: nat, batch: seq<Envelope>): nat {
    if batch == [] then last
    else
      var before := CursorAfter(last, batch[..|batch| - 1]);
      if batch[|batch| - 1].id > before then batch[|batch| - 1].id else before
  }

  class EventBuffer {
    var events: seq<Envelope>
    var nextId: nat

    constructor ()
      ensures events == [] && nextId == 1
    {
      events, nextId := [], 1;
    }

    /** The first half of a push, under the lock of the counter. */
    method TakeId() returns (id: nat)
      modifies this`nextId
      ensures id == old(nextId) && nextId == SatInc(id)
    {
      id := nextId;
      nextId := SatInc(id);
    }

    /** The second half, under the lock of the log. */
    method Append(id: nat, e: Payload)
      modifies this`events
      ensures events == Newest(old(events) + [Envelope(id, e)])
    {
      events := events + [Envelope(id, e)];
      ghost var all := events;
      while |events| > MAX_EVENTS
        invariant |events| <= |all| && events == all[|all| - |events|..]
        invariant |all| <= MAX_EVENTS ==> events == all
        invariant |all| > MAX_EVENTS ==> |events| >= MAX_EVENTS
      {
        events := events[1..];
      }
    }

    /** A push that meets no other. */
    method PushEvent(e: Payload)
      modifies this
      ensures nextId == SatInc(old(nextId))
      ensures events == Newest(old(events) + [Envelope(old(nextId), e)])
    {
      var id := TakeId();
      Append(id, e);
    }

    method GetEvents(after: Option<nat>, limit: Option<nat>) returns (out: seq<Envelope>)
      ensures out == Select(events, if after.Some? then after.value else 0, ClampLimit(limit))
    {
      hide Select, ClampLimit;
      var floor := if after.Some? then after.value else 0;
      var room := ClampLimit(limit);
      out := [];
      assert events[0..] == events;
      for i := 0 to |events|
        invariant |out| < room
        invariant Select(events, floor, room) == out + Select(events[i..], floor, room - |out|)
      {
        SelectNext(events, floor, room, out, i);
        if events[i].id > floor {
          out := out + [events[i]];
          if |out| >= room {
            SelectNone(events[i + 1..], floor);
            return;
          }
        }
      }
      assert events[|events|..] == [];
      SelectNothing(floor, room - |out|);
    }
  }

  lemma SelectNext(events: seq<Envelope>, floor: nat, room: nat, out: seq<Envelope>, i: nat)
    requires i < |events| && |out| < room
    ensures out + Select(events[i..], floor, room - |out|)
            == if events[i].id > floor
               then (out + [events[i]]) + Select(events[i + 1..], floor, room - |out| - 1)
               else out + Select(events[i + 1..], floor, room - |out|)
  {
    assert events[i..][0] == events[i] && events[i..][1..] == events[i + 1..];
    if events[i].id > floor {
      assert out + ([events[i]] + Select(events[i + 1..], floor, room - |out| - 1))
             == (out + [events[i]]) + Select(events[i + 1..], floor, room - |out| - 1);
    }
  }

  lemma SelectNone(events: seq<Envelope>, floor: nat)
    ensures Select(events, floor, 0) == []
  {
  }

  lemma SelectNothing(floor: nat, limit: nat)
    ensures Select([], floor, limit) == []
  {
  }

  // ------------------------------------------------------------ whole sessions

  /** The `k`-th event ever numbered has id `k`. */
  function Numbered(taken: seq<Payload>): (all: seq<Envelope>)
    ensures |all| == |taken|
    ensures forall i :: 0 <= i < |all| ==> all[i] == Envelope(i + 1, taken[i])
  {
    seq(|taken|, i requires 0 <= i < |taken| => Envelope(i + 1, taken[i]))
  }

  /** The two halves of a push, which its id connects, and the reader's polls, in any order. */
  datatype Op = TakeId(event: Payload) | Append(id: nat) | Poll(limit: Option<nat>)

  datatype Session = Session(
    log: seq<Envelope>,           // the bounded log
    nextId: nat,
    pending: map<nat, Payload>,   // pushes between their two halves
    taken: seq<Payload>,          // every event ever given an id
    appended: seq<Envelope>,      // everything ever appended
    last: nat,                    // the reader's cursor
    received: seq<Envelope>)      // and all it received

  const START := Session([], 1, map[], [], [], 0, [])

  function Batch(s: Session, limit: Option<nat>): seq<Envelope> {
    Select(s.log, s.last, ClampLimit(limit))
  }

  function Do(s: Session, op: Op): Session {
    match op
    case TakeId(e) =>
      s.(nextId := SatInc(s.nextId), pending := s.pending[s.nextId := e], taken := s.taken + [e])
    case Append(id) =>
      if id !in s.pending then s
      else
        var envelope := Envelope(id, s.pending[id]);
        s.(log := Newest(s.log + [envelope]), pending := s.pending - {id}, appended := s.appended + [envelope])
    case Poll(limit) =>
      var batch := Batch(s, limit);
      s.(last := CursorAfter(s.last, batch), received := s.received + batch)
  }

  function Play(ops: seq<Op>): Session {
    if ops == [] then START else Do(Play(ops[..|ops| - 1]), ops[|ops| - 1])
  }

  // ------------------------------------------------------------- the log itself

  /** `e` is the event that was given its id. */
  ghost predicate Genuine(s: Session, e: Envelope) {
    1 <= e.id <= |s.taken| && e.event == s.taken[e.id - 1]
  }

  ghost predicate Ids(s: Session) {
    && s.nextId == |s.taken| + 1
    && (forall id :: id in s.pending ==> Genuine(s, Envelope(id, s.pending[id])))
    && (forall i :: 0 <= i < |s.appended| ==> Genuine(s, s.appended[i]) && s.appended[i].id !in s.pending)
    && (forall i, j :: 0 <= i < j < |s.appended| ==> s.appended[i].id != s.appended[j].id)
    && (forall id :: 1 <= id <= |s.taken| ==> id in s.pending || IsAppended(s, id))
  }

  ghost predicate IsAppended(s: Session, id: nat) {
    exists i :: 0 <= i < |s.appended| && s.appended[i].id == id
  }

  lemma TakeIdKeepsIds(s: Session, e: Payload)
    requires Ids(s) && s.nextId < U64_MAX
    ensures Ids(Do(s, TakeId(e)))
  {
    var s' := Do(s, TakeId(e));
    forall id | 1 <= id <= |s'.taken| ensures id in s'.pending || IsAppended(s', id) {
      if id <= |s.taken| && id !in s.pending {
        assert IsAppended(s, id);
        var i :| 0 <= i < |s.appended| && s.appended[i].id == id;
        assert s'.appended[i].id == id;
      }
    }
  }

  lemma AppendKeepsIds(s: Session, id: nat)
    requires Ids(s)
    ensures Ids(Do(s, Append(id)))
  {
    hide Newest;
    if id in s.pending {
      var s' := Do(s, Append(id));
      assert s'.appended[|s.appended|].id == id;
      forall k | 1 <= k <= |s'.taken| ensures k in s'.pending || IsAppended(s', k) {
        if k != id && k !in s.pending {
          assert IsAppended(s, k);
          var i :| 0 <= i < |s.appended| && s.appended[i].id == k;
          assert s'.appended[i].id == k;
        }
      }
    }
  }

  lemma NewestOfMore(all: seq<Envelope>, e: Envelope)
    ensures Newest(Newest(all) + [e]) == Newest(all + [e])
  {
    if |all| > MAX_EVENTS {
      assert Newest(all) + [e] == (all + [e])[|all| - MAX_EVENTS..];
    }
  }

  /** However pushes overlap, the log holds the last min(n, 2000) of the n events appended, in the order in
      which they were appended; ids are given out once, and each is pending or appended, never both. */
  lemma {:induction false} LogHoldsNewest(ops: seq<Op>)
    requires |ops| < U64_MAX
    ensures var s := Play(ops); Ids(s) && s.log == Newest(s.appended) && |s.taken| <= |ops|
  {
    hide Newest, Ids, Select, CursorAfter;
    if ops == [] {
      NothingYet();
    } else {
      var before, op := ops[..|ops| - 1], ops[|ops| - 1];
      LogHoldsNewest(before);
      var s := Play(before);
      match op {
        case TakeId(e) =>
          NextIdOf(s);
          TakeIdKeepsIds(s, e);
        case Append(id) =>
          AppendKeepsIds(s, id);
          if id in s.pending {
            NewestOfMore(s.appended, Envelope(id, s.pending[id]));
          }
        case Poll(limit) => PollKeepsIds(s, limit);
      }
    }
  }

  lemma NothingYet()
    ensures Ids(START) && START.log == Newest([])
  {
  }

  lemma NextIdOf(s: Session)
    requires Ids(s)
    ensures s.nextId == |s.taken| + 1
  {
  }

  lemma PollKeepsIds(s: Session, limit: Option<nat>)
    requires Ids(s)
    ensures Ids(Do(s, Poll(limit)))
  {
    hide Batch, CursorAfter;
    var s' := Do(s, Poll(limit));
    forall id | 1 <= id <= |s'.taken| ensures id in s'.pending || IsAppended(s', id) {
      if id !in s.pending {
        assert IsAppended(s, id);
        var i :| 0 <= i < |s.appended| && s.appended[i].id == id;
        assert s'.appended[i].id == id;
      }
    }
  }

  // --------------------------------------------------------------- one poll

  /** The positions in the log of the selected events. */
  ghost function Positions(events: seq<Envelope>, after: nat, limit: nat, from: nat): (at: seq<nat>)
    requires from <= |events|
    ensures |at| == |Select(events[from..], after, limit)|
    decreases |events| - from
  {
    if from == |events| || limit == 0 then []
    else
      assert events[from..][1..] == events[from + 1..];
      if events[from].id > after then [from] + Positions(events, after, limit - 1, from + 1)
      else Positions(events, after, limit, from + 1)
  }

  /** Where position `j` of the batch comes from: a position of the log at or after `from`, holding that
      event; nothing above the cursor before it is skipped. */
  ghost predicate ComesFrom(events: seq<Envelope>, after: nat, from: nat, at: seq<nat>, batch: seq<Envelope>, j: nat)
    requires |at| == |batch| && j < |at|
  {
    && from <= at[j] < |events| && events[at[j]] == batch[j] && batch[j].id > after
    && (j > 0 ==> at[j - 1] < at[j])
    && forall p :: (if j > 0 then at[j - 1] + 1 else from) <= p < at[j] ==> events[p].id <= after
  }

  lemma {:induction false} PositionsAre(events: seq<Envelope>, after: nat, limit: nat, from: nat, j: nat)
    requires from <= |events| && j < |Positions(events, after, limit, from)|
    ensures ComesFrom(events, after, from, Positions(events, after, limit, from),
                      Select(events[from..], after, limit), j)
    decreases |events| - from
  {
    assert events[from..][1..] == events[from + 1..];
    if events[from].id <= after {
      PositionsAre(events, after, limit, from + 1, j);
    } else if j > 0 {
      var at', batch' := Positions(events, after, limit - 1, from + 1), Select(events[from + 1..], after, limit - 1);
      PositionsAre(events, after, limit - 1, from + 1, j - 1);
      assert Positions(events, after, limit, from) == [from] + at';
      assert Select(events[from..], after, limit) == [events[from]] + batch';
      assert ComesFrom(events, after, from + 1, at', batch', j - 1);
    }
  }

  /** Between two selected positions nothing above the cursor is skipped. */
  lemma {:induction false} NothingSkipped(events: seq<Envelope>, after: nat, limit: nat, p: nat, j: nat)
    requires j < |Positions(events, after, limit, 0)| && p < |events| && events[p].id > after
    requires p < Positions(events, after, limit, 0)[j]
    ensures p in Positions(events, after, limit, 0)[..j]
    decreases j
  {
    var at := Positions(events, after, limit, 0);
    PositionsAre(events, after, limit, 0, j);
    if j > 0 && p != at[j - 1] {
      NothingSkipped(events, after, limit, p, j - 1);
      assert at[..j - 1] <= at[..j];
    }
  }

  lemma {:induction false} PositionsGrow(events: seq<Envelope>, after: nat, limit: nat, i: nat, j: nat)
    requires i < j < |Positions(events, after, limit, 0)|
    ensures Positions(events, after, limit, 0)[i] < Positions(events, after, limit, 0)[j]
    decreases j
  {
    PositionsAre(events, after, limit, 0, j);
    if i < j - 1 {
      PositionsGrow(events, after, limit, i, j - 1);
    }
  }

  lemma {:induction false} SelectedAreNew(events: seq<Envelope>, after: nat, limit: nat)
    ensures forall e :: e in Select(events, after, limit) ==> e.id > after && e in events
  {
    if events != [] && limit > 0 {
      SelectedAreNew(events[1..], after, if events[0].id > after then limit - 1 else limit);
    }
  }

  // ------------------------------------------------------------- exactly once

  /** The reader holds every event up to its cursor, each once and in order. */
  ghost predicate Exact(s: Session) {
    s.last <= |s.taken| && s.received == Numbered(s.taken)[..s.last]
  }

  /** In the log `k` comes after `id`. */
  ghost predicate Follows(log: seq<Envelope>, id: nat, k: nat) {
    exists i, j :: 0 <= i < j < |log| && log[i].id == id && log[j].id == k
  }

  /** `k` was trimmed off the log. */
  ghost predicate Dropped(s: Session, k: nat) {
    exists i :: 0 <= i < |s.appended| - |s.log| && s.appended[i].id == k
  }

  ghost predicate Missed(s: Session, k: nat, id: nat) {
    k in s.pending || Dropped(s, k) || Follows(s.log, id, k)
  }

  /** Some smaller id that the reader does not have yet is not in the log before `id`: its push has not
      appended, or appended later, or so long ago that it is trimmed. */
  ghost predicate Overtaken(s: Session, id: nat) {
    exists k :: s.last < k < id && Missed(s, k, id)
  }

  ghost predicate CleanPoll(s: Session, limit: Option<nat>) {
    forall b :: b in Batch(s, limit) ==> !Overtaken(s, b.id)
  }

  /** No poll of the session returned an overtaken event. */
  ghost predicate Clean(ops: seq<Op>) {
    ops == [] ||
    var before, op := ops[..|ops| - 1], ops[|ops| - 1];
    Clean(before) && (op.Poll? ==> CleanPoll(Play(before), op.limit))
  }

  ghost predicate LogIs(s: Session) {
    Ids(s) && s.log == Newest(s.appended)
  }

  lemma LogEntry(s: Session, p: nat)
    requires LogIs(s) && p < |s.log|
    ensures |s.log| <= |s.appended| && s.log[p] == s.appended[p + |s.appended| - |s.log|] && Genuine(s, s.log[p])
    ensures s.log[p].id !in s.pending && !Dropped(s, s.log[p].id)
    ensures forall q :: 0 <= q < |s.log| && s.log[q].id == s.log[p].id ==> q == p
  {
  }

  /** An id that was given out and is neither pending nor dropped is in the log. */
  lemma FoundInLog(s: Session, k: nat) returns (p: nat)
    requires LogIs(s) && 1 <= k <= |s.taken| && k !in s.pending && !Dropped(s, k)
    ensures p < |s.log| && s.log[p].id == k
  {
    assert IsAppended(s, k);
    var i :| 0 <= i < |s.appended| && s.appended[i].id == k;
    assert !(i < |s.appended| - |s.log|);
    p := i - (|s.appended| - |s.log|);
  }

  /** In a clean poll the batch continues where the reader stands. */
  lemma {:induction false} CleanBatchAt(s: Session, limit: Option<nat>, j: nat)
    requires LogIs(s) && CleanPoll(s, limit) && j < |Batch(s, limit)|
    ensures Batch(s, limit)[j].id == s.last + 1 + j
    decreases j
  {
    hide Genuine, Newest, Ids, Dropped;
    var batch, l := Batch(s, limit), ClampLimit(limit);
    assert s.log[0..] == s.log;
    var at := Positions(s.log, s.last, l, 0);
    PositionsAre(s.log, s.last, l, 0, j);
    LogEntry(s, at[j]);
    var id, k := batch[j].id, s.last + 1 + j;
    if id < k {
      var i := id - s.last - 1;
      CleanBatchAt(s, limit, i);
      PositionsAre(s.log, s.last, l, 0, i);
      PositionsGrow(s.log, s.last, l, i, j);
    } else if id > k {
      assert batch[j] in batch && !Overtaken(s, id);
      assert !Missed(s, k, id);
      GenuineId(s, s.log[at[j]]);
      var p := FoundInLog(s, k);
      assert p < at[j];
      NothingSkipped(s.log, s.last, l, p, j);
      var i :| 0 <= i < j && at[i] == p;
      PositionsAre(s.log, s.last, l, 0, i);
      CleanBatchAt(s, limit, i);
    }
  }

  lemma GenuineId(s: Session, e: Envelope)
    requires Genuine(s, e)
    ensures 1 <= e.id <= |s.taken| && e == Numbered(s.taken)[e.id - 1]
  {
  }

  /** Consecutive ids starting at `first + 1`. */
  ghost predicate Consecutive(events: seq<Envelope>, first: nat) {
    forall i :: 0 <= i < |events| ==> events[i].id == first + i + 1
  }

  lemma {:induction false} CursorOfConsecutive(last: nat, batch: seq<Envelope>)
    requires Consecutive(batch, last)
    ensures CursorAfter(last, batch) == last + |batch|
  {
    if batch != [] {
      CursorOfConsecutive(last, batch[..|batch| - 1]);
    }
  }

  lemma BatchIsGenuine(s: Session, limit: Option<nat>, j: nat)
    requires LogIs(s) && j < |Batch(s, limit)|
    ensures Genuine(s, Batch(s, limit)[j])
  {
    hide Genuine, Newest, Ids, Dropped, Select;
    SelectedAreNew(s.log, s.last, ClampLimit(limit));
    assert Batch(s, limit)[j] in s.log;
    var p :| 0 <= p < |s.log| && s.log[p] == Batch(s, limit)[j];
    LogEntry(s, p);
  }

  lemma CleanPollIsExact(s: Session, limit: Option<nat>)
    requires LogIs(s) && Exact(s) && CleanPoll(s, limit)
    ensures Exact(Do(s, Poll(limit)))
  {
    hide LogIs, CleanPoll, Batch, Genuine;
    var batch, all := Batch(s, limit), Numbered(s.taken);
    forall j | 0 <= j < |batch| ensures batch[j].id == s.last + j + 1 && s.last + j < |all| && batch[j] == all[s.last + j] {
      CleanBatchAt(s, limit, j);
      BatchIsGenuine(s, limit, j);
      GenuineId(s, batch[j]);
    }
    CursorOfConsecutive(s.last, batch);
    assert s.last + |batch| <= |all| by {
      if batch != [] {
        assert s.last + (|batch| - 1) < |all|;
      }
    }
    assert all[..s.last] + batch == all[..s.last + |batch|];
  }

  lemma TailIsConsecutive(taken: seq<Payload>, n: nat, m: nat, batch: seq<Envelope>)
    requires n <= |taken| && m <= |taken| && Numbered(taken)[..n] + batch == Numbered(taken)[..m]
    ensures Consecutive(batch, n)
  {
    var all := Numbered(taken);
    forall j | 0 <= j < |batch| ensures batch[j].id == n + j + 1 {
      assert batch[j] == (all[..n] + batch)[n + j] == all[..m][n + j];
    }
  }

  lemma ExactPollIsClean(s: Session, limit: Option<nat>)
    requires LogIs(s) && Exact(s) && Exact(Do(s, Poll(limit)))
    ensures CleanPoll(s, limit)
  {
    hide LogIs, Batch, Overtaken, CursorAfter, Numbered, Consecutive;
    var batch := Batch(s, limit);
    TailIsConsecutive(s.taken, s.last, Do(s, Poll(limit)).last, batch);
    forall b | b in batch ensures !Overtaken(s, b.id) {
      var j :| 0 <= j < |batch| && batch[j] == b;
      ConsecutiveIsNotOvertaken(s, limit, j);
    }
  }

  lemma ConsecutiveIsNotOvertaken(s: Session, limit: Option<nat>, j: nat)
    requires LogIs(s) && j < |Batch(s, limit)| && Consecutive(Batch(s, limit), s.last)
    ensures !Overtaken(s, Batch(s, limit)[j].id)
  {
    hide LogIs, Genuine, Dropped;
    var batch, l := Batch(s, limit), ClampLimit(limit);
    assert s.log[0..] == s.log;
    var at := Positions(s.log, s.last, l, 0);
    PositionsAre(s.log, s.last, l, 0, j);
    LogEntry(s, at[j]);
    forall k | s.last < k < batch[j].id ensures !Missed(s, k, batch[j].id) {
      var i := k - s.last - 1;
      PositionsAre(s.log, s.last, l, 0, i);
      LogEntry(s, at[i]);
      PositionsGrow(s.log, s.last, l, i, j);
    }
  }

  /** What holds of the reader at any time. */
  ghost predicate Reader(s: Session) {
    s.last == CursorAfter(0, s.received) && s.last <= |s.taken|
  }

  lemma {:induction false} CursorConcat(last: nat, a: seq<Envelope>, b: seq<Envelope>)
    ensures CursorAfter(last, a + b) == CursorAfter(CursorAfter(last, a), b)
    decreases |b|
  {
    if b == [] {
      assert a + b == a;
    } else {
      var n := |b| - 1;
      assert (a + b)[..|a + b| - 1] == a + b[..n];
      CursorConcat(last, a, b[..n]);
    }
  }

  lemma {:induction false} CursorBounded(last: nat, batch: seq<Envelope>, bound: nat)
    requires last <= bound && forall j :: 0 <= j < |batch| ==> batch[j].id <= bound
    ensures last <= CursorAfter(last, batch) <= bound
  {
    if batch != [] {
      CursorBounded(last, batch[..|batch| - 1], bound);
    }
  }

  lemma PollKeepsReader(s: Session, limit: Option<nat>)
    requires LogIs(s) && Reader(s)
    ensures Reader(Do(s, Poll(limit)))
  {
    hide LogIs, Batch, CursorAfter;
    var batch := Batch(s, limit);
    forall j | 0 <= j < |batch| ensures batch[j].id <= |s.taken| {
      BatchIsGenuine(s, limit, j);
    }
    CursorBounded(s.last, batch, |s.taken|);
    CursorConcat(0, s.received, batch);
  }

  lemma {:induction false} ReaderHolds(ops: seq<Op>)
    requires |ops| < U64_MAX
    ensures Reader(Play(ops))
  {
    hide Batch, CursorAfter, Newest, Reader;
    if ops == [] {
      NewReader();
    } else {
      var before, op := ops[..|ops| - 1], ops[|ops| - 1];
      ReaderHolds(before);
      LogHoldsNewest(before);
      match op {
        case TakeId(_) => SameReader(Play(before), Play(ops));
        case Append(_) => SameReader(Play(before), Play(ops));
        case Poll(limit) => PollKeepsReader(Play(before), limit);
      }
    }
  }

  lemma NewReader()
    ensures Reader(START)
  {
  }

  lemma SameReader(s: Session, s': Session)
    requires Reader(s) && s'.last == s.last && s'.received == s.received && |s'.taken| >= |s.taken|
    ensures Reader(s')
  {
  }

  /** A reader that is not exact never becomes so again: what it has received stays where it is. */
  lemma ExactBefore(s: Session, limit: Option<nat>)
    requires Reader(s) && Exact(Do(s, Poll(limit)))
    ensures Exact(s)
  {
    hide Batch, CursorAfter;
    var batch, all, n := Batch(s, limit), Numbered(s.taken), |s.received|;
    assert s.received == (s.received + batch)[..n] == all[..n];
    assert Consecutive(s.received, 0);
    CursorOfConsecutive(0, s.received);
  }

  /** Exactly once, exactly: for any pushes, however their halves interleave, and polls with any limits,
      what the reader has received is every event up to its cursor, each once and in order, if and only if
      no poll returned an event that was overtaken: no smaller id, above the cursor, was then still
      unappended, or behind it in the log, or already trimmed off it. */
  lemma {:induction false} ExactlyOnce(ops: seq<Op>)
    requires |ops| < U64_MAX
    ensures Exact(Play(ops)) <==> Clean(ops)
  {
    hide Batch, CursorAfter, Newest, Reader, CleanPoll;
    if ops != [] {
      var before, op := ops[..|ops| - 1], ops[|ops| - 1];
      ExactlyOnce(before);
      LogHoldsNewest(before);
      ReaderHolds(before);
      var s := Play(before);
      match op {
        case TakeId(e) => ExactWithMoreTaken(s, e);
        case Append(id) =>
        case Poll(limit) =>
          if Exact(Play(ops)) {
            ExactBefore(s, limit);
            ExactPollIsClean(s, limit);
          } else if Exact(s) && CleanPoll(s, limit) {
            CleanPollIsExact(s, limit);
          }
      }
    }
  }

  lemma ExactWithMoreTaken(s: Session, e: Payload)
    requires Reader(s)
    ensures Exact(Do(s, TakeId(e))) <==> Exact(s)
  {
    hide CursorAfter;
    assert Numbered(s.taken + [e])[..s.last] == Numbered(s.taken)[..s.last];
  }

  /** An event that the cursor has passed without receiving it is lost for good. */
  lemma {:induction false} PassedIsLost(ops: seq<Op>, more: seq<Op>, id: nat)
    requires id <= Play(ops).last && forall e :: e in Play(ops).received ==> e.id != id
    ensures id <= Play(ops + more).last && forall e :: e in Play(ops + more).received ==> e.id != id
    decreases |more|
  {
    hide Select, CursorAfter, Newest, ClampLimit;
    if more == [] {
      assert ops + more == ops;
    } else {
      var n := |more| - 1;
      assert (ops + more)[..|ops + more| - 1] == ops + more[..n];
      PassedIsLost(ops, more[..n], id);
      var s := Play(ops + more[..n]);
      if more[n].Poll? {
        SelectedAreNew(s.log, s.last, ClampLimit(more[n].limit));
        CursorGrows(s.last, Batch(s, more[n].limit));
      }
    }
  }

  lemma {:induction false} CursorGrows(last: nat, batch: seq<Envelope>)
    ensures last <= CursorAfter(last, batch)
  {
    if batch != [] {
      CursorGrows(last, batch[..|batch| - 1]);
    }
  }

  // ------------------------------------------------------- what a poll returns

  /** The limit of a poll: 200 when none was sent, otherwise what was sent, moved into 1 to 2000. */
  ghost predicate LimitIs(sent: Option<nat>, l: nat) {
    match sent
    case None => l == 200
    case Some(n) => if 1 <= n <= 2000 then l == n else if n < 1 then l == 1 else l == 2000
  }

  lemma LimitsAre(sent: Option<nat>)
    ensures LimitIs(sent, ClampLimit(sent))
  {
  }

  /** `batch` is the first `limit` events above `after`: taken from growing positions of the log, with none
      above `after` skipped, and fewer than `limit` only when there are no more. */
  ghost predicate FirstAbove(events: seq<Envelope>, after: nat, limit: nat, batch: seq<Envelope>, at: seq<nat>) {
    && |at| == |batch| <= limit
    && (forall j :: 0 <= j < |at| ==> at[j] < |events| && events[at[j]] == batch[j] && batch[j].id > after)
    && (forall i, j :: 0 <= i < j < |at| ==> at[i] < at[j])
    && (forall p :: 0 <= p < |events| && events[p].id > after ==>
          p in at || (|at| == limit && forall j :: 0 <= j < |at| ==> at[j] < p))
  }

  lemma {:induction false} SelectCount(events: seq<Envelope>, after: nat, limit: nat, from: nat)
    requires from <= |events|
    ensures |Positions(events, after, limit, from)| <= limit
    ensures |Positions(events, after, limit, from)| < limit ==>
              forall p :: from <= p < |events| && events[p].id > after ==> p in Positions(events, after, limit, from)
    decreases |events| - from
  {
    if from < |events| && limit > 0 {
      SelectCount(events, after, if events[from].id > after then limit - 1 else limit, from + 1);
    }
  }

  /** A poll returns the first events above the cursor, as many as the limit allows. */
  lemma PollIsFirstAbove(events: seq<Envelope>, after: nat, limit: nat)
    ensures exists at :: FirstAbove(events, after, limit, Select(events, after, limit), at)
  {
    hide Select, Positions;
    var batch, at := Select(events, after, limit), Positions(events, after, limit, 0);
    assert events[0..] == events;
    SelectCount(events, after, limit, 0);
    forall j | 0 <= j < |at| ensures at[j] < |events| && events[at[j]] == batch[j] && batch[j].id > after {
      PositionsAre(events, after, limit, 0, j);
    }
    forall i, j | 0 <= i < j < |at| ensures at[i] < at[j] {
      PositionsGrow(events, after, limit, i, j);
    }
    forall p | 0 <= p < |events| && events[p].id > after && p !in at
      ensures |at| == limit && forall j :: 0 <= j < |at| ==> at[j] < p
    {
      forall j | 0 <= j < |at| ensures at[j] < p {
        if p < at[j] {
          NothingSkipped(events, after, limit, p, j);
        }
      }
    }
    assert FirstAbove(events, after, limit, batch, at);
  }

  // ------------------------------------------------------ the failing sessions

  lemma PlaySnoc(ops: seq<Op>, op: Op)
    ensures Play(ops + [op]) == Do(Play(ops), op)
  {
    assert (ops + [op])[..|ops|] == ops;
  }

  lemma SelectFirst(e: Envelope, rest: seq<Envelope>, after: nat, limit: nat)
    requires limit >= 1
    ensures Select([e] + rest, after, limit)
            == if e.id > after then [e] + Select(rest, after, limit - 1) else Select(rest, after, limit)
  {
    assert ([e] + rest)[1..] == rest;
  }

  /** The two pushes whose halves cross: the second event is in the log, the first not yet. */
  function Crossing(first: Payload, second: Payload): seq<Op> {
    [TakeId(first), TakeId(second), Append(2)]
  }

  lemma CrossingLog(first: Payload, second: Payload)
    ensures Play(Crossing(first, second))
            == Session([Envelope(2, second)], 3, map[1 := first], [first, second], [Envelope(2, second)], 0, [])
  {
    PlaySnoc([], TakeId(first));
    PlaySnoc([TakeId(first)], TakeId(second));
    PlaySnoc([TakeId(first), TakeId(second)], Append(2));
    assert [] + [TakeId(first)] == [TakeId(first)];
    assert [TakeId(first)] + [TakeId(second)] == [TakeId(first), TakeId(second)];
    assert [TakeId(first), TakeId(second)] + [Append(2)] == Crossing(first, second);
    assert map[1 := first, 2 := second] - {2} == map[1 := first];
  }

  lemma CursorOfOne(last: nat, e: Envelope)
    ensures CursorAfter(last, [e]) == if e.id > last then e.id else last
  {
    assert [e][..0] == [];
  }

  lemma PollOne(s: Session, limit: Option<nat>, e: Envelope, rest: seq<Envelope>)
    requires s.log == [e] + rest && e.id > s.last
    requires ClampLimit(limit) == 1 || rest == []
    ensures Do(s, Poll(limit)) == s.(last := e.id, received := s.received + [e])
  {
    var l := ClampLimit(limit);
    SelectFirst(e, rest, s.last, l);
    CursorOfOne(s.last, e);
  }

  lemma PollNothing(s: Session, limit: Option<nat>, e: Envelope, f: Envelope)
    requires s.log == [e, f] && e.id <= s.last && f.id <= s.last
    ensures Do(s, Poll(limit)) == s
  {
    var l := ClampLimit(limit);
    SelectFirst(e, [f], s.last, l);
    SelectFirst(f, [], s.last, l);
    assert [e, f] == [e] + [f] && [f] == [f] + [];
    assert s.received + [] == s.received;
  }

  /** A poll between the two appends: the first event never arrives. */
  lemma PolledInBetween(first: Payload, second: Payload, l: Option<nat>, m: Option<nat>)
    ensures var ops := Crossing(first, second) + [Poll(l)] + [Append(1)] + [Poll(m)];
            Play(ops).received == [Envelope(2, second)] && !Exact(Play(ops))
  {
    hide Play, Crossing, ClampLimit;
    var e, f := Envelope(2, second), Envelope(1, first);
    CrossingLog(first, second);
    PlaySnoc(Crossing(first, second), Poll(l));
    assert [e] == [e] + [];
    PollOne(Play(Crossing(first, second)), l, e, []);
    PlaySnoc(Crossing(first, second) + [Poll(l)], Append(1));
    PlaySnoc(Crossing(first, second) + [Poll(l)] + [Append(1)], Poll(m));
    PollNothing(Play(Crossing(first, second) + [Poll(l)] + [Append(1)]), m, e, f);
  }

  /** Both pushes are over before the first poll, but its limit is 1: the first event never arrives. */
  lemma PolledOneByOne(first: Payload, second: Payload, m: Option<nat>)
    ensures var ops := Crossing(first, second) + [Append(1)] + [Poll(Some(1))] + [Poll(m)];
            Play(ops).received == [Envelope(2, second)] && !Exact(Play(ops))
  {
    hide Play, Crossing;
    var e, f := Envelope(2, second), Envelope(1, first);
    CrossingLog(first, second);
    PlaySnoc(Crossing(first, second), Append(1));
    assert [e, f] == [e] + [f];
    PlaySnoc(Crossing(first, second) + [Append(1)], Poll(Some(1)));
    PollOne(Play(Crossing(first, second) + [Append(1)]), Some(1), e, [f]);
    PlaySnoc(Crossing(first, second) + [Append(1)] + [Poll(Some(1))], Poll(m));
    PollNothing(Play(Crossing(first, second) + [Append(1)] + [Poll(Some(1))]), m, e, f);
  }

  /** With a larger limit both arrive, in the wrong order. */
  lemma PolledTogether(first: Payload, second: Payload, l: Option<nat>)
    requires ClampLimit(l) >= 2
    ensures var ops := Crossing(first, second) + [Append(1)] + [Poll(l)];
            Play(ops).received == [Envelope(2, second), Envelope(1, first)] && !Exact(Play(ops))
  {
    hide Play, Crossing, ClampLimit;
    var e, f := Envelope(2, second), Envelope(1, first);
    CrossingLog(first, second);
    PlaySnoc(Crossing(first, second), Append(1));
    assert [e, f] == [e] + [f] && [f] == [f] + [];
    PlaySnoc(Crossing(first, second) + [Append(1)], Poll(l));
    SelectFirst(e, [f], 0, ClampLimit(l));
    SelectFirst(f, [], 0, ClampLimit(l) - 1);
    SelectNothing(0, ClampLimit(l) - 2);
    CursorOfOne(0, e);
    assert [e, f][..1] == [e];
  }

  // ------------------------------------------------- pushes that do not overlap

  /** No push takes its id while another is between its halves. */
  ghost predicate Sequential(ops: seq<Op>) {
    ops == [] ||
    var before, op := ops[..|ops| - 1], ops[|ops| - 1];
    Sequential(before) && (op.TakeId? ==> Play(before).pending == map[])
  }

  /** Some poll came when more than 2000 events above the cursor had been appended. */
  ghost predicate Overran(ops: seq<Op>) {
    ops != [] &&
    var before, op := ops[..|ops| - 1], ops[|ops| - 1];
    Overran(before) || (op.Poll? && |Play(before).appended| - Play(before).last > MAX_EVENTS)
  }

  /** Then the events are appended in the order of their ids, and only the newest can be pending. */
  ghost predicate InSequence(s: Session) {
    && (forall i :: 0 <= i < |s.appended| ==> s.appended[i].id == i + 1)
    && (forall id :: id in s.pending ==> id == |s.appended| + 1)
    && |s.taken| == |s.appended| + |s.pending| && s.nextId == |s.taken| + 1
    && s.last <= |s.appended|
  }

  lemma {:induction false} SequentialIsInSequence(ops: seq<Op>)
    requires |ops| < U64_MAX && Sequential(ops)
    ensures InSequence(Play(ops))
  {
    hide Batch, CursorAfter, Newest, LogIs;
    if ops != [] {
      var before, op := ops[..|ops| - 1], ops[|ops| - 1];
      SequentialIsInSequence(before);
      LogHoldsNewest(before);
      var s := Play(before);
      match op {
        case TakeId(e) =>
        case Append(id) =>
          if id in s.pending {
            OnlyOnePending(s, id);
          }
        case Poll(limit) => PollStaysInSequence(s, limit);
      }
    }
  }

  lemma OnlyOnePending(s: Session, id: nat)
    requires InSequence(s) && id in s.pending
    ensures |s.pending| == 1 && s.pending - {id} == map[]
  {
    assert s.pending.Keys == {id};
    assert |s.pending.Keys| == 1;
  }

  lemma PollStaysInSequence(s: Session, limit: Option<nat>)
    requires InSequence(s) && Ids(s) && s.log == Newest(s.appended)
    ensures InSequence(Do(s, Poll(limit)))
  {
    hide CursorAfter, Select;
    var batch := Batch(s, limit);
    SelectedAreNew(s.log, s.last, ClampLimit(limit));
    forall j | 0 <= j < |batch| ensures batch[j].id <= |s.appended| {
      assert batch[j] in Select(s.log, s.last, ClampLimit(limit));
      var p :| 0 <= p < |s.log| && s.log[p] == batch[j];
      LogEntry(s, p);
    }
    CursorBounded(s.last, batch, |s.appended|);
  }

  lemma SequencePolls(s: Session, limit: Option<nat>)
    requires LogIs(s) && InSequence(s)
    ensures CleanPoll(s, limit) <==> |s.appended| - s.last <= MAX_EVENTS
  {
    hide Select, Genuine, Ids, ClampLimit;
    var batch := Batch(s, limit);
    SelectedAreNew(s.log, s.last, ClampLimit(limit));
    if |s.appended| - s.last > MAX_EVENTS {
      var k, dropped := s.last + 1, |s.appended| - |s.log|;
      assert s.log[0] == s.appended[dropped];
      assert s.appended[k - 1].id == k;
      assert Missed(s, k, s.log[0].id);
      SelectFirst(s.log[0], s.log[1..], s.last, ClampLimit(limit));
      assert s.log == [s.log[0]] + s.log[1..];
      assert s.log[0] in batch;
    } else {
      forall b | b in batch ensures !Overtaken(s, b.id) {
        var p :| 0 <= p < |s.log| && s.log[p] == b;
        LogEntry(s, p);
        forall k | s.last < k < b.id ensures !Missed(s, k, b.id) {
          NeverBehind(s, k, b.id);
        }
      }
    }
  }

  lemma NeverBehind(s: Session, k: nat, id: nat)
    requires LogIs(s) && InSequence(s) && |s.appended| - s.last <= MAX_EVENTS && s.last < k < id <= |s.appended|
    ensures !Missed(s, k, id)
  {
    hide Genuine, Ids;
    if Follows(s.log, id, k) {
      var i, j :| 0 <= i < j < |s.log| && s.log[i].id == id && s.log[j].id == k;
      LogEntry(s, i);
      LogEntry(s, j);
    }
  }

  /** When pushes do not overlap, a polling reader has every event up to its cursor once and in order if and
      only if it never polled more than 2000 events behind. */
  lemma {:induction false} SequentialExactlyOnce(ops: seq<Op>)
    requires |ops| < U64_MAX && Sequential(ops)
    ensures Exact(Play(ops)) <==> !Overran(ops)
  {
    hide Exact, CleanPoll, InSequence, LogIs, Play;
    ExactlyOnce(ops);
    CleanIsNoOverrun(ops);
  }

  lemma {:induction false} CleanIsNoOverrun(ops: seq<Op>)
    requires |ops| < U64_MAX && Sequential(ops)
    ensures Clean(ops) <==> !Overran(ops)
  {
    hide CleanPoll, InSequence, Play, Ids, Newest;
    if ops != [] {
      var before, op := ops[..|ops| - 1], ops[|ops| - 1];
      CleanIsNoOverrun(before);
      if op.Poll? {
        LogHoldsNewest(before);
        SequentialIsInSequence(before);
        SequencePolls(Play(before), op.limit);
      }
    }
  }

  /** And then a poll brings it further: it returns the next events, as many as its limit allows and there
      are. */
  lemma SequentialPollAdvances(ops: seq<Op>, limit: Option<nat>, l: nat)
    requires |ops| < U64_MAX && Sequential(ops) && LimitIs(limit, l)
    requires var s := Play(ops); Exact(s) && |s.appended| - s.last <= MAX_EVENTS
    ensures var s, s' := Play(ops), Do(Play(ops), Poll(limit));
            && s.last <= |s.appended| <= |s.taken|
            && var n := if s.last + l <= |s.appended| then s.last + l else |s.appended|;
               s'.received == Numbered(s.taken)[..n] && s'.last == n
  {
    hide Play, Ids, Batch, CleanPoll, CursorAfter, Numbered, Newest, ClampLimit;
    var s := Play(ops);
    LogHoldsNewest(ops);
    SequentialIsInSequence(ops);
    LimitsAre(limit);
    SequencePolls(s, limit);
    CleanPollIsExact(s, limit);
    WithinAppended(s);
    AdvanceIs(s, limit);
    CleanCursor(s, limit);
  }

  lemma WithinAppended(s: Session)
    requires InSequence(s)
    ensures s.last <= |s.appended| <= |s.taken|
  {
  }

  lemma CleanCursor(s: Session, limit: Option<nat>)
    requires LogIs(s) && CleanPoll(s, limit)
    ensures Do(s, Poll(limit)).last == s.last + |Batch(s, limit)|
  {
    hide LogIs, CleanPoll, Batch, CursorAfter;
    forall j | 0 <= j < |Batch(s, limit)| ensures Batch(s, limit)[j].id == s.last + j + 1 {
      CleanBatchAt(s, limit, j);
    }
    CursorOfConsecutive(s.last, Batch(s, limit));
  }

  lemma EntriesInSequence(s: Session, p: nat)
    requires LogIs(s) && InSequence(s) && p < |s.log|
    ensures s.log[p].id == |s.appended| - |s.log| + p + 1 <= |s.appended|
  {
    hide Ids, Genuine;
  }

  lemma LogNotEmpty(s: Session)
    requires LogIs(s) && s.appended != []
    ensures s.log != []
  {
    hide Ids;
  }

  lemma ReturnsAll(s: Session, limit: nat, batch: seq<Envelope>, at: seq<nat>) returns (j: nat)
    requires LogIs(s) && InSequence(s) && FirstAbove(s.log, s.last, limit, batch, at)
    requires |batch| < limit && s.last < |s.appended|
    ensures j < |batch| && batch[j].id == |s.appended|
  {
    hide LogIs, InSequence;
    LogNotEmpty(s);
    var p := |s.log| - 1;
    EntriesInSequence(s, p);
    assert p in at;
    j :| 0 <= j < |at| && at[j] == p;
  }

  lemma AdvanceIs(s: Session, limit: Option<nat>)
    requires LogIs(s) && InSequence(s) && CleanPoll(s, limit) && s.last <= |s.appended|
    ensures var l := ClampLimit(limit);
            |Batch(s, limit)| == if s.last + l <= |s.appended| then l else |s.appended| - s.last
  {
    hide LogIs, InSequence, CleanPoll, Select, ClampLimit;
    var batch, l, n := Batch(s, limit), ClampLimit(limit), |s.appended|;
    PollIsFirstAbove(s.log, s.last, l);
    var at :| FirstAbove(s.log, s.last, l, batch, at);
    if batch != [] {
      var k := |batch| - 1;
      CleanBatchAt(s, limit, k);
      EntriesInSequence(s, at[k]);
    }
    if |batch| < l && s.last < n {
      var j := ReturnsAll(s, l, batch, at);
      CleanBatchAt(s, limit, j);
    }
  }
}
