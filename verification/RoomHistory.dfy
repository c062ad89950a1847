/** One gap-free history per room across interleavings, crashes and restarts; the cache refines a plain
    compare-and-set map. */
module RoomHistory {
  import opened Common
  import opened Validate
  import opened Rooms

  /** Files the server could have written: accepted revisions start at 1 and states are valid. */
  ghost predicate GoodFiles(files: map<RoomId, Record>) {
    forall r :: r in files ==> files[r].revision >= 1 && ValidState(files[r].state)
  }

  function FirstRevision(files: map<RoomId, Record>, room: RoomId): nat {
    if room in files then files[room].revision else 1
  }

  /** Revisions follow each other without a gap, starting with the file found at boot or else with 1. */
  ghost predicate GapFree(files: map<RoomId, Record>, room: RoomId, h: seq<Record>) {
    && (forall k :: 0 <= k < |h| ==> h[k].revision == FirstRevision(files, room) + k && ValidState(h[k].state))
    && (room in files ==> h != [] && h[0] == files[room])
  }

  /** `rec` is what the abstract map holds: the last accepted record, or an empty room at revision 0. */
  ghost predicate IsCurrent(rec: Record, h: seq<Record>) {
    if h == [] then IsEmptyRoom(rec) else rec == h[|h| - 1]
  }

  ghost predicate IsEmptyRoom(rec: Record) {
    rec.revision == 0 && rec.state == EmptyState(rec.state.updatedAt)
  }

  /** `rec` is in the history, or the empty room from before it. */
  ghost predicate Known(rec: Record, h: seq<Record>) {
    IsEmptyRoom(rec) || rec in h
  }

  ghost predicate ReplyKnown(s: Store, reply: Reply) {
    && Known(reply.record, HistoryOf(s.history, reply.room))
    && (reply.verdict == Accepted ==> reply.record in HistoryOf(s.history, reply.room))
  }

  ghost predicate HoldsLock(s: Store, t: nat) {
    s.lock == Some(t)
  }

  ghost predicate Saving(task: Task) {
    task.Writing? || task.Renaming? || task.Publishing?
  }

  /** `next` is what `call` asked for when it was compared at time `now`. */
  ghost predicate Asks(call: Call, now: nat, next: Record) {
    && call.Update? && Admitted(call)
    && next == Record(call.state.(updatedAt := now), call.expected + 1, Some(call.wallet), now)
  }

  ghost predicate TaskOk(s: Store, t: nat, task: Task) {
    match task
    case Checking(_, call) => Admitted(call)
    case Loading(_, call) => Admitted(call)
    case Loaded(room, call, record) =>
      Admitted(call) && (room !in s.cache ==> IsCurrent(record, HistoryOf(s.history, room)))
    case Waiting(room, call) => call.Update? && Admitted(call) && room in s.cache
    case Writing(room, call, now, next) =>
      && HoldsLock(s, t) && room in s.cache && Asks(call, now, next)
      && s.cache[room].revision == call.expected
    case Renaming(room, call, now, next) =>
      && HoldsLock(s, t) && room in s.cache && Asks(call, now, next)
      && s.cache[room].revision == call.expected
      && room in s.tmp && s.tmp[room] == Whole(next)
    case Publishing(room, call, now, next) =>
      && HoldsLock(s, t) && room in s.cache && Asks(call, now, next)
      && s.cache[room].revision == call.expected
      && IsCurrent(next, HistoryOf(s.history, room)) && HistoryOf(s.history, room) != []
    case Answering(reply) => ReplyKnown(s, reply)
  }

  /** The room whose file is already renamed while its memory is not yet set. */
  ghost predicate InPublication(s: Store, room: RoomId) {
    s.lock.Some? && s.lock.value in s.tasks
    && s.tasks[s.lock.value].Publishing? && s.tasks[s.lock.value].room == room
  }

  ghost predicate CacheOk(s: Store, room: RoomId) {
    room in s.cache ==>
      var h := HistoryOf(s.history, room);
      if InPublication(s, room) then h != [] && IsCurrent(s.cache[room], h[..|h| - 1])
      else IsCurrent(s.cache[room], h)
  }

  ghost predicate Sound(files: map<RoomId, Record>, s: Store) {
    && (forall room :: GapFree(files, room, HistoryOf(s.history, room)))
    && (forall room :: room in s.disk <==> HistoryOf(s.history, room) != [])
    && (forall room :: room in s.disk ==> IsCurrent(s.disk[room], HistoryOf(s.history, room)))
    && (forall room :: CacheOk(s, room))
    && (forall t :: t in s.tasks ==> TaskOk(s, t, s.tasks[t]))
    && (s.lock.Some? ==> s.lock.value in s.tasks && Saving(s.tasks[s.lock.value]))
    && (forall i :: 0 <= i < |s.replies| ==> ReplyKnown(s, s.replies[i]))
  }

  /** The first load of an existing file fails: the one thing the history does not survive. */
  ghost predicate LosesFile(s: Store, step: Step) {
    && step.Load? && step.fails && Possible(s, step)
    && s.tasks[step.task].room in s.disk && s.tasks[step.task].room !in s.cache
  }

  lemma BootIsSound(files: map<RoomId, Record>)
    requires GoodFiles(files)
    ensures Sound(files, Boot(files))
  {
  }

  /** Steps that change neither files nor history nor memory. */
  lemma TaskStepKeeps(files: map<RoomId, Record>, s: Store, t: nat, task: Task)
    requires Sound(files, s) && s.lock != Some(t) && TaskOk(s, t, task)
    ensures Sound(files, s.(tasks := s.tasks[t := task]))
  {
    hide ValidState, GapFree, Known, IsCurrent;
    var s' := s.(tasks := s.tasks[t := task]);
    forall u | u in s'.tasks ensures TaskOk(s', u, s'.tasks[u]) {
      SameStoreTask(s, s', u, s'.tasks[u]);
    }
    forall room ensures CacheOk(s', room) {
      assert CacheOk(s, room);
    }
    forall i | 0 <= i < |s'.replies| ensures ReplyKnown(s', s'.replies[i]) {
      assert ReplyKnown(s, s.replies[i]);
    }
  }

  lemma SameStoreTask(s: Store, s': Store, t: nat, task: Task)
    requires s'.cache == s.cache && s'.history == s.history && s'.tmp == s.tmp && s'.lock == s.lock
    requires TaskOk(s, t, task)
    ensures TaskOk(s', t, task)
  {
  }

  lemma OthersStay(s: Store, s': Store, t: nat, task: Task)
    requires TaskOk(s, t, task) && !Saving(task)
    requires s.cache.Keys <= s'.cache.Keys
    requires forall room, rec :: rec in HistoryOf(s.history, room) ==> rec in HistoryOf(s'.history, room)
    requires forall room :: room !in s'.cache ==> HistoryOf(s'.history, room) == HistoryOf(s.history, room)
    ensures TaskOk(s', t, task)
  {
    hide IsCurrent;
  }

  lemma CurrentIsKnown(rec: Record, h: seq<Record>)
    requires IsCurrent(rec, h)
    ensures Known(rec, h)
  {
  }

  lemma StartKeeps(files: map<RoomId, Record>, s: Store, step: Step)
    requires Sound(files, s) && step.Start? && Possible(s, step)
    ensures Sound(files, Next(s, step))
  {
    hide GapFree, CacheOk, IsCurrent, Known;
    TaskStepKeeps(files, s, step.task, Checking(step.room, step.call));
  }

  lemma CheckKeeps(files: map<RoomId, Record>, s: Store, step: Step)
    requires Sound(files, s) && step.Check? && Possible(s, step)
    ensures Sound(files, Next(s, step))
  {
    hide GapFree, Known, IsCurrent;
    var t, room, call := step.task, s.tasks[step.task].room, s.tasks[step.task].call;
    assert TaskOk(s, t, s.tasks[t]);
    if room in s.cache {
      assert CacheOk(s, room);
      CurrentIsKnown(s.cache[room], HistoryOf(s.history, room));
    }
    TaskStepKeeps(files, s, t, Next(s, step).tasks[t]);
  }

  lemma LoadKeeps(files: map<RoomId, Record>, s: Store, step: Step)
    requires Sound(files, s) && step.Load? && Possible(s, step) && !LosesFile(s, step)
    ensures Sound(files, Next(s, step))
  {
    hide GapFree, Known;
    var t := step.task;
    assert TaskOk(s, t, s.tasks[t]);
    TaskStepKeeps(files, s, t, Next(s, step).tasks[t]);
  }

  lemma InsertKeeps(files: map<RoomId, Record>, s: Store, step: Step)
    requires Sound(files, s) && step.Insert? && Possible(s, step)
    ensures Sound(files, Next(s, step))
  {
    hide GapFree, Known, IsCurrent;
    var t, room := step.task, s.tasks[step.task].room;
    var s' := Next(s, step);
    assert TaskOk(s, t, s.tasks[t]);
    assert CacheOk(s, room);
    CurrentIsKnown(s'.cache[room], HistoryOf(s.history, room));
    forall u | u in s'.tasks ensures TaskOk(s', u, s'.tasks[u]) {
      if u != t {
        assert TaskOk(s, u, s.tasks[u]);
        OthersStay(s, s', u, s.tasks[u]);
      }
    }
    forall r ensures CacheOk(s', r) {
      assert CacheOk(s, r);
    }
    RepliesStay(s, s');
  }

  lemma RepliesStay(s: Store, s': Store)
    requires forall i :: 0 <= i < |s.replies| ==> ReplyKnown(s, s.replies[i])
    requires forall room, rec :: rec in HistoryOf(s.history, room) ==> rec in HistoryOf(s'.history, room)
    ensures forall i :: 0 <= i < |s.replies| ==> ReplyKnown(s', s.replies[i])
  {
    forall i | 0 <= i < |s.replies| ensures ReplyKnown(s', s.replies[i]) {
      assert ReplyKnown(s, s.replies[i]);
    }
  }

  lemma LockKeeps(files: map<RoomId, Record>, s: Store, step: Step)
    requires Sound(files, s) && step.Lock? && Possible(s, step)
    ensures Sound(files, Next(s, step))
  {
    hide GapFree, Known, IsCurrent, ValidState, ValidateRoomState;
    var t, room, call := step.task, s.tasks[step.task].room, s.tasks[step.task].call;
    var s' := Next(s, step);
    assert TaskOk(s, t, s.tasks[t]);
    assert CacheOk(s, room);
    CurrentIsKnown(s.cache[room], HistoryOf(s.history, room));
    if s.cache[room].revision != call.expected {
      TaskStepKeeps(files, s, t, s'.tasks[t]);
    } else {
      ValidatesExactly(call.state);
      StampKeepsValid(call.state, step.now);
      forall u | u in s'.tasks ensures TaskOk(s', u, s'.tasks[u]) {
        if u != t {
          assert TaskOk(s, u, s.tasks[u]);
          OthersStay(s, s', u, s.tasks[u]);
        }
      }
      forall r ensures CacheOk(s', r) {
        assert CacheOk(s, r);
      }
      RepliesStay(s, s');
    }
  }

  /** The holder of the write lock answers and releases it; files and memory stay as they are. */
  lemma GiveUpKeeps(files: map<RoomId, Record>, s: Store, t: nat, tmp: map<RoomId, TmpFile>)
    requires Sound(files, s) && t in s.tasks && (s.tasks[t].Writing? || s.tasks[t].Renaming?)
    ensures var room := s.tasks[t].room;
            && room in s.cache
            && Sound(files, s.(lock := None, tmp := tmp,
                               tasks := s.tasks[t := Answering(Reply(room, s.cache[room], StorageFailed))]))
  {
    hide GapFree, Known, IsCurrent, ValidState, Asks;
    var room := s.tasks[t].room;
    assert TaskOk(s, t, s.tasks[t]);
    assert CacheOk(s, room);
    CurrentIsKnown(s.cache[room], HistoryOf(s.history, room));
    var s' := s.(lock := None, tmp := tmp,
                 tasks := s.tasks[t := Answering(Reply(room, s.cache[room], StorageFailed))]);
    forall u | u in s'.tasks ensures TaskOk(s', u, s'.tasks[u]) {
      if u != t {
        assert TaskOk(s, u, s.tasks[u]);
        OthersStay(s, s', u, s.tasks[u]);
      }
    }
    forall r ensures CacheOk(s', r) {
      assert CacheOk(s, r);
    }
    RepliesStay(s, s');
  }

  lemma WriteTmpKeeps(files: map<RoomId, Record>, s: Store, step: Step)
    requires Sound(files, s) && step.WriteTmp? && Possible(s, step)
    ensures Sound(files, Next(s, step))
  {
    hide GapFree, Known, IsCurrent, ValidState, Asks;
    var t := step.task;
    assert TaskOk(s, t, s.tasks[t]);
    if !step.ok {
      GiveUpKeeps(files, s, t, s.tmp);
    } else {
      var s' := Next(s, step);
      forall u | u in s'.tasks ensures TaskOk(s', u, s'.tasks[u]) {
        if u != t {
          assert TaskOk(s, u, s.tasks[u]);
          OthersStay(s, s', u, s.tasks[u]);
        }
      }
      forall r ensures CacheOk(s', r) {
        assert CacheOk(s, r);
      }
      RepliesStay(s, s');
    }
  }

  lemma Extends(files: map<RoomId, Record>, room: RoomId, h: seq<Record>, current: Record, next: Record)
    requires GapFree(files, room, h) && IsCurrent(current, h)
    requires next.revision == current.revision + 1 && ValidState(next.state)
    ensures GapFree(files, room, h + [next])
  {
    hide ValidState;
  }

  lemma AskedIsValid(call: Call, now: nat, next: Record)
    requires Asks(call, now, next)
    ensures ValidState(next.state)
  {
    hide ValidState, ValidateRoomState;
    ValidatesExactly(call.state);
    StampKeepsValid(call.state, now);
  }

  lemma AppendedIsCurrent(h: seq<Record>, next: Record)
    ensures IsCurrent(next, h + [next]) && (h + [next])[..|h + [next]| - 1] == h
  {
    assert (h + [next])[..|h|] == h;
  }

  lemma RenameFails(files: map<RoomId, Record>, s: Store, step: Step)
    requires Sound(files, s) && step.Rename? && Possible(s, step) && !step.ok
    ensures Sound(files, Next(s, step))
  {
    hide Sound;
    GiveUpKeeps(files, s, step.task, s.tmp);
  }

  /** What a rename does: the file of the room and its history get the record the temp file holds. */
  ghost function Renamed(s: Store, t: nat, next: Record): Store
    requires t in s.tasks && s.tasks[t].Renaming?
  {
    var task := s.tasks[t];
    s.(disk := s.disk[task.room := next], tmp := s.tmp - {task.room},
       history := s.history[task.room := HistoryOf(s.history, task.room) + [next]],
       tasks := s.tasks[t := Publishing(task.room, task.call, task.now, next)])
  }

  lemma RenameWrites(files: map<RoomId, Record>, s: Store, step: Step)
    requires Sound(files, s) && step.Rename? && Possible(s, step) && step.ok
    ensures s.tasks[step.task].Renaming? && HoldsLock(s, step.task)
    ensures Next(s, step) == Renamed(s, step.task, s.tasks[step.task].next)
  {
    hide GapFree, Known, ValidState, IsCurrent, CacheOk, ReplyKnown;
    assert TaskOk(s, step.task, s.tasks[step.task]);
  }

  lemma RenamedTasks(files: map<RoomId, Record>, s: Store, t: nat, next: Record)
    requires Sound(files, s) && t in s.tasks && s.tasks[t].Renaming? && s.tasks[t].next == next
    ensures var s' := Renamed(s, t, next); forall u :: u in s'.tasks ==> TaskOk(s', u, s'.tasks[u])
  {
    hide GapFree, Known, ValidState, IsCurrent, CacheOk, ReplyKnown;
    var s' := Renamed(s, t, next);
    assert TaskOk(s, t, s.tasks[t]);
    forall u | u in s'.tasks ensures TaskOk(s', u, s'.tasks[u]) {
      if u == t {
        AppendedIsCurrent(HistoryOf(s.history, s.tasks[t].room), next);
      } else {
        assert TaskOk(s, u, s.tasks[u]);
        OthersStay(s, s', u, s.tasks[u]);
      }
    }
  }

  lemma RenamedCaches(files: map<RoomId, Record>, s: Store, t: nat, next: Record)
    requires Sound(files, s) && t in s.tasks && s.tasks[t].Renaming? && HoldsLock(s, t)
    ensures var s' := Renamed(s, t, next); forall room :: CacheOk(s', room)
  {
    hide GapFree, Known, ValidState, IsCurrent, TaskOk, ReplyKnown;
    var s', h := Renamed(s, t, next), HistoryOf(s.history, s.tasks[t].room);
    AppendedIsCurrent(h, next);
    forall room ensures CacheOk(s', room) {
      assert CacheOk(s, room);
    }
  }

  lemma RenamedFiles(files: map<RoomId, Record>, s: Store, t: nat, next: Record)
    requires Sound(files, s) && t in s.tasks && s.tasks[t].Renaming? && s.tasks[t].next == next
    ensures var s' := Renamed(s, t, next);
            && (forall room :: GapFree(files, room, HistoryOf(s'.history, room)))
            && (forall room :: room in s'.disk <==> HistoryOf(s'.history, room) != [])
            && (forall room :: room in s'.disk ==> IsCurrent(s'.disk[room], HistoryOf(s'.history, room)))
  {
    hide GapFree, Known, ValidState, IsCurrent, ReplyKnown;
    var room := s.tasks[t].room;
    assert TaskOk(s, t, s.tasks[t]) && CacheOk(s, room);
    var s', h := Renamed(s, t, next), HistoryOf(s.history, room);
    AskedIsValid(s.tasks[t].call, s.tasks[t].now, next);
    Extends(files, room, h, s.cache[room], next);
    AppendedIsCurrent(h, next);
    forall r ensures HistoryOf(s'.history, r) == if r == room then h + [next] else HistoryOf(s.history, r) {
    }
    forall r ensures GapFree(files, r, HistoryOf(s'.history, r)) {
      assert GapFree(files, r, HistoryOf(s.history, r));
    }
    assert HistoryOf(s'.history, room) != [];
  }

  lemma RenameKeeps(files: map<RoomId, Record>, s: Store, step: Step)
    requires Sound(files, s) && step.Rename? && Possible(s, step) && step.ok
    ensures Sound(files, Next(s, step))
  {
    hide GapFree, TaskOk, CacheOk, ReplyKnown, IsCurrent, Next;
    var t, next := step.task, s.tasks[step.task].next;
    RenameWrites(files, s, step);
    RenamedTasks(files, s, t, next);
    RenamedCaches(files, s, t, next);
    RenamedFiles(files, s, t, next);
    RepliesStay(s, Renamed(s, t, next));
  }

  lemma PublishKeeps(files: map<RoomId, Record>, s: Store, step: Step)
    requires Sound(files, s) && step.Publish? && Possible(s, step)
    ensures Sound(files, Next(s, step))
  {
    hide GapFree, ValidState;
    var t, room := step.task, s.tasks[step.task].room;
    var s' := Next(s, step);
    assert TaskOk(s, t, s.tasks[t]);
    forall u | u in s'.tasks ensures TaskOk(s', u, s'.tasks[u]) {
      if u != t {
        assert TaskOk(s, u, s.tasks[u]);
        OthersStay(s, s', u, s.tasks[u]);
      }
    }
    forall r ensures CacheOk(s', r) {
      assert CacheOk(s, r);
    }
    RepliesStay(s, s');
  }

  lemma AnswerKeeps(files: map<RoomId, Record>, s: Store, step: Step)
    requires Sound(files, s) && step.Answer? && Possible(s, step)
    ensures Sound(files, Next(s, step))
  {
    hide GapFree, ValidState, Known, IsCurrent;
    var t := step.task;
    var s' := Next(s, step);
    assert TaskOk(s, t, s.tasks[t]);
    forall u | u in s'.tasks ensures TaskOk(s', u, s'.tasks[u]) {
      assert TaskOk(s, u, s.tasks[u]);
      SameStoreTask(s, s', u, s.tasks[u]);
    }
    forall r ensures CacheOk(s', r) {
      assert CacheOk(s, r);
    }
    RepliesStay(s, s');
  }

  lemma CrashKeeps(files: map<RoomId, Record>, s: Store, step: Step)
    requires Sound(files, s) && step.Crash?
    ensures Sound(files, Next(s, step))
  {
    hide GapFree, ValidState, Known, IsCurrent;
    RepliesStay(s, Next(s, step));
  }

  lemma StepKeeps(files: map<RoomId, Record>, s: Store, step: Step)
    requires Sound(files, s) && !LosesFile(s, step)
    ensures Sound(files, Apply(s, step))
  {
    hide Sound, LosesFile, Possible, Next;
    if Possible(s, step) {
      match step {
        case Start(_, _, _) => StartKeeps(files, s, step);
        case Check(_) => CheckKeeps(files, s, step);
        case Load(_, _, _) => LoadKeeps(files, s, step);
        case Insert(_) => InsertKeeps(files, s, step);
        case Lock(_, _) => LockKeeps(files, s, step);
        case WriteTmp(_, _) => WriteTmpKeeps(files, s, step);
        case Rename(_, ok) =>
          if ok {
            RenameKeeps(files, s, step);
          } else {
            RenameFails(files, s, step);
          }
        case Publish(_) => PublishKeeps(files, s, step);
        case Answer(_) => AnswerKeeps(files, s, step);
        case Crash => CrashKeeps(files, s, step);
      }
    }
  }

  // ------------------------------------------------------------------ every run

  /** No first load of an existing file fails during the run. */
  ghost predicate Calm(s: Store, steps: seq<Step>) {
    steps == [] ||
    var n := |steps| - 1;
    Calm(s, steps[..n]) && !LosesFile(Exec(s, steps[..n]), steps[n])
  }

  lemma {:induction false} RunIsSound(files: map<RoomId, Record>, steps: seq<Step>)
    requires GoodFiles(files) && Calm(Boot(files), steps)
    ensures Sound(files, Exec(Boot(files), steps))
  {
    hide Sound, LosesFile, Apply, GoodFiles;
    if steps == [] {
      BootIsSound(files);
    } else {
      var n := |steps| - 1;
      RunIsSound(files, steps[..n]);
      StepKeeps(files, Exec(Boot(files), steps[..n]), steps[n]);
    }
  }

  lemma SameRevisionSameRecord(files: map<RoomId, Record>, room: RoomId, h: seq<Record>, a: Record, b: Record)
    requires GapFree(files, room, h) && a in h && b in h && a.revision == b.revision
    ensures a == b
  {
    hide ValidState;
  }

  lemma LastIsNewest(files: map<RoomId, Record>, room: RoomId, h: seq<Record>, a: Record)
    requires GapFree(files, room, h) && a in h
    ensures a.revision <= h[|h| - 1].revision && ValidState(a.state)
  {
  }

  /** One history per room: any two replies or broadcasts ever sent for a room with the same revision, one
      or higher, carry the same record, across any number of crashes and restarts. */
  lemma OneHistory(files: map<RoomId, Record>, steps: seq<Step>, i: nat, j: nat)
    requires GoodFiles(files) && Calm(Boot(files), steps)
    requires var sent := Exec(Boot(files), steps).replies;
             && i < |sent| && j < |sent| && sent[i].room == sent[j].room
             && sent[i].record.revision == sent[j].record.revision >= 1
    ensures var sent := Exec(Boot(files), steps).replies;
            sent[i].record == sent[j].record
  {
    hide GapFree, Calm, GoodFiles, Exec, TaskOk;
    RunIsSound(files, steps);
    var s := Exec(Boot(files), steps);
    var a, b := s.replies[i], s.replies[j];
    assert ReplyKnown(s, a) && ReplyKnown(s, b);
    SameRevisionSameRecord(files, a.room, HistoryOf(s.history, a.room), a.record, b.record);
  }

  /** Nothing is announced before it is durable: at every moment, so also right after a crash, the file of
      a room holds at least every revision ever sent for it. */
  lemma Durable(files: map<RoomId, Record>, steps: seq<Step>, i: nat)
    requires GoodFiles(files) && Calm(Boot(files), steps)
    requires i < |Exec(Boot(files), steps).replies|
    requires Exec(Boot(files), steps).replies[i].record.revision >= 1
    ensures var s := Exec(Boot(files), steps);
            && s.replies[i].room in s.disk
            && s.disk[s.replies[i].room].revision >= s.replies[i].record.revision
  {
    hide GapFree, Calm, GoodFiles, Exec, TaskOk;
    RunIsSound(files, steps);
    var s := Exec(Boot(files), steps);
    var a := s.replies[i];
    assert ReplyKnown(s, a);
    var h := HistoryOf(s.history, a.room);
    assert a.record in h && h != [];
    LastIsNewest(files, a.room, h, a.record);
  }

  /** Accepted revisions are consecutive: 1, 2, 3, ... for a room without a file at boot. */
  lemma AcceptedRevisions(files: map<RoomId, Record>, steps: seq<Step>, room: RoomId, k: nat)
    requires GoodFiles(files) && Calm(Boot(files), steps)
    requires k < |HistoryOf(Exec(Boot(files), steps).history, room)|
    ensures HistoryOf(Exec(Boot(files), steps).history, room)[k].revision
            == k + if room in files then files[room].revision else 1
  {
    hide Calm, GoodFiles, Exec, TaskOk, ValidState;
    RunIsSound(files, steps);
    assert GapFree(files, room, HistoryOf(Exec(Boot(files), steps).history, room));
  }

  /** Every state in memory, on disk, or ever sent is valid. */
  lemma StoredStatesAreValid(files: map<RoomId, Record>, steps: seq<Step>)
    requires GoodFiles(files) && Calm(Boot(files), steps)
    ensures var s := Exec(Boot(files), steps);
            && (forall r :: r in s.disk ==> ValidState(s.disk[r].state))
            && (forall r :: r in s.cache ==> ValidState(s.cache[r].state))
            && (forall i :: 0 <= i < |s.replies| ==> ValidState(s.replies[i].record.state))
  {
    hide Calm, GoodFiles, Exec, TaskOk, ValidState, GapFree;
    RunIsSound(files, steps);
    var s := Exec(Boot(files), steps);
    forall r | r in s.disk ensures ValidState(s.disk[r].state) {
      LastIsNewest(files, r, HistoryOf(s.history, r), s.disk[r]);
    }
    forall r | r in s.cache ensures ValidState(s.cache[r].state) {
      assert CacheOk(s, r);
      KnownIsValid(files, r, HistoryOf(s.history, r), s.cache[r]);
    }
    forall i | 0 <= i < |s.replies| ensures ValidState(s.replies[i].record.state) {
      assert ReplyKnown(s, s.replies[i]);
      KnownIsValid(files, s.replies[i].room, HistoryOf(s.history, s.replies[i].room), s.replies[i].record);
    }
  }

  lemma KnownIsValid(files: map<RoomId, Record>, room: RoomId, h: seq<Record>, rec: Record)
    requires GapFree(files, room, h) && Known(rec, h)
    ensures ValidState(rec.state)
  {
    hide ValidState;
    StampKeepsValid(rec.state, rec.state.updatedAt);
    if IsEmptyRoom(rec) {
      StampKeepsValid(EmptyState(0), rec.state.updatedAt);
    }
  }

  /** No two saves share a temp file, or are under way at all; and a save renames exactly what it wrote. */
  lemma OneSaveAtATime(files: map<RoomId, Record>, steps: seq<Step>, t: nat, u: nat)
    requires GoodFiles(files) && Calm(Boot(files), steps)
    requires var s := Exec(Boot(files), steps);
             t in s.tasks && u in s.tasks && Saving(s.tasks[t]) && Saving(s.tasks[u])
    ensures t == u
    ensures var s := Exec(Boot(files), steps);
            s.tasks[t].Renaming? ==> s.tasks[t].room in s.tmp && s.tmp[s.tasks[t].room] == Whole(s.tasks[t].next)
  {
    hide Calm, GoodFiles, Exec, GapFree, ValidState, IsCurrent;
    RunIsSound(files, steps);
    var s := Exec(Boot(files), steps);
    assert TaskOk(s, t, s.tasks[t]) && TaskOk(s, u, s.tasks[u]);
  }

  /** A call that waits for the write lock finds its room loaded: the `expect` never fails. */
  lemma RoomIsLoaded(files: map<RoomId, Record>, steps: seq<Step>, t: nat)
    requires GoodFiles(files) && Calm(Boot(files), steps)
    requires t in Exec(Boot(files), steps).tasks && Exec(Boot(files), steps).tasks[t].Waiting?
    ensures Exec(Boot(files), steps).tasks[t].room in Exec(Boot(files), steps).cache
  {
    hide Calm, GoodFiles, Exec, GapFree, ValidState, IsCurrent;
    RunIsSound(files, steps);
    var s := Exec(Boot(files), steps);
    assert TaskOk(s, t, s.tasks[t]);
  }

  // ----------------------------------------------- a plain compare-and-set map

  function CurrentRevision(h: seq<Record>): nat {
    if h == [] then 0 else h[|h| - 1].revision
  }

  /** The compare-and-set step of the plain map: when the expected revision is the current one, the state
      asked for becomes the next record. */
  ghost predicate SetsFrom(h: seq<Record>, h': seq<Record>, call: Call, now: nat) {
    && call.Update? && CurrentRevision(h) == call.expected
    && h' == h + [Record(call.state.(updatedAt := now), call.expected + 1, Some(call.wallet), now)]
  }

  /** What an answer means on the plain map, at the step that decides it. */
  ghost predicate AnswersFor(asked: Task, reply: Reply, h: seq<Record>) {
    && IsCurrent(reply.record, h)
    && match reply.verdict
       case Current => true
       case Stale => (asked.Waiting? && asked.call.Update?) && CurrentRevision(h) != asked.call.expected
       case StorageFailed => asked.Writing? || asked.Renaming?
       case Accepted => asked.Publishing? && Asks(asked.call, asked.now, reply.record)
  }

  lemma CurrentHasRevision(rec: Record, h: seq<Record>)
    requires IsCurrent(rec, h)
    ensures rec.revision == CurrentRevision(h)
  {
  }

  /** Refinement: on the plain map (the history of each room) every step of the store is either nothing or
      the compare-and-set of the one save that renames; and every answer is decided at a step of its call
      at which it is true of the plain map. A stale disk read in particular never shows through. */
  lemma RefinesCompareAndSet(files: map<RoomId, Record>, s: Store, step: Step)
    requires Sound(files, s) && !LosesFile(s, step)
    ensures var s' := Apply(s, step);
            forall room :: HistoryOf(s'.history, room) == HistoryOf(s.history, room)
              || (step.Rename? && step.ok && step.task in s.tasks && s.tasks[step.task].Renaming?
                  && s.tasks[step.task].room == room
                  && SetsFrom(HistoryOf(s.history, room), HistoryOf(s'.history, room),
                              s.tasks[step.task].call, s.tasks[step.task].now))
    ensures var s' := Apply(s, step);
            forall t :: t in s'.tasks && s'.tasks[t].Answering? && t in s.tasks && !s.tasks[t].Answering? ==>
              AnswersFor(s.tasks[t], s'.tasks[t].reply, HistoryOf(s'.history, s'.tasks[t].reply.room))
  {
    hide GapFree, ValidState, Known, ReplyKnown, ValidateRoomState, LosesFile, IsCurrent;
    var s' := Apply(s, step);
    if step.Rename? && step.ok && Possible(s, step) {
      var room := s.tasks[step.task].room;
      assert TaskOk(s, step.task, s.tasks[step.task]);
      assert CacheOk(s, room);
      CurrentHasRevision(s.cache[room], HistoryOf(s.history, room));
    } else {
      assert s'.history == s.history;
    }
    forall t | t in s'.tasks && s'.tasks[t].Answering? && t in s.tasks && !s.tasks[t].Answering?
      ensures AnswersFor(s.tasks[t], s'.tasks[t].reply, HistoryOf(s'.history, s'.tasks[t].reply.room))
    {
      AnswersAreTrue(files, s, step, t);
    }
  }

  lemma AnswersAreTrue(files: map<RoomId, Record>, s: Store, step: Step, t: nat)
    requires Sound(files, s) && !LosesFile(s, step)
    requires t in s.tasks && !s.tasks[t].Answering?
    requires t in Apply(s, step).tasks && Apply(s, step).tasks[t].Answering?
    ensures var s' := Apply(s, step);
            AnswersFor(s.tasks[t], s'.tasks[t].reply, HistoryOf(s'.history, s'.tasks[t].reply.room))
  {
    hide GapFree, ValidState, Known, ReplyKnown, ValidateRoomState, LosesFile, IsCurrent;
    assert TaskOk(s, t, s.tasks[t]);
    var s' := Apply(s, step);
    var room := s'.tasks[t].reply.room;
    assert CacheOk(s, room);
    if room in s.cache && !InPublication(s, room) {
      CurrentHasRevision(s.cache[room], HistoryOf(s.history, room));
    }
    CurrentUniqueRevision(s'.tasks[t].reply.record, HistoryOf(s'.history, room));
  }

  lemma CurrentUniqueRevision(rec: Record, h: seq<Record>)
    ensures IsCurrent(rec, h) ==> rec.revision == CurrentRevision(h)
  {
  }

  // --------------------------------------------------------- the one exception

  /** An update with expected revision 0 that starts by loading the room and meets no other call. */
  ghost function LoneUpdate(s: Store, t: nat, room: RoomId, call: Call, now: nat, fails: bool): Store {
    var loaded := Apply(Apply(Apply(Apply(s, Start(t, room, call)), Check(t)), Load(t, now, fails)), Insert(t));
    Apply(Apply(Apply(Apply(loaded, Lock(t, now)), WriteTmp(t, true)), Rename(t, true)), Publish(t))
  }

  /** When a load fails, `room_program` serves an empty room at revision 0, and the next update then forks
      the history: with any room that is not in memory, the history stays gap-free through such an update
      if and only if the load did not fail on an existing file. */
  lemma FailedLoadForksHistory(files: map<RoomId, Record>, s: Store, t: nat, room: RoomId, call: Call,
                               now: nat, fails: bool)
    requires GoodFiles(files) && Sound(files, s) && s.lock.None? && t !in s.tasks && room !in s.cache
    requires call.Update? && call.expected == 0 && Admitted(call)
    ensures GapFree(files, room, HistoryOf(LoneUpdate(s, t, room, call, now, fails).history, room))
            <==> !(fails && room in s.disk)
  {
    hide ValidState, ValidateRoomState, Sound;
    if fails && room in s.disk {
      ForkedHistory(files, s, t, room, call, now);
    } else {
      LoneUpdateIsSound(files, s, t, room, call, now, fails);
      SoundIsGapFree(files, LoneUpdate(s, t, room, call, now, fails), room);
    }
  }

  lemma SoundIsGapFree(files: map<RoomId, Record>, s: Store, room: RoomId)
    requires Sound(files, s)
    ensures GapFree(files, room, HistoryOf(s.history, room))
  {
    hide GapFree, TaskOk, CacheOk;
  }

  /** The first half of a lone update whose load fails: an empty room in memory. */
  lemma FailedLoadServesEmpty(s: Store, t: nat, room: RoomId, call: Call, now: nat)
    requires s.lock.None? && t !in s.tasks && room !in s.cache && call.Update? && Admitted(call)
    ensures Apply(Apply(Apply(Apply(s, Start(t, room, call)), Check(t)), Load(t, now, true)), Insert(t))
            == s.(cache := s.cache[room := EmptyRecord(now)], tasks := s.tasks[t := Waiting(room, call)])
  {
    hide Apply, EmptyRecord, Admitted;
    StartStep(s, t, room, call);
    var s1 := Apply(s, Start(t, room, call));
    CheckStep(s1, t, room, call);
    var s2 := Apply(s1, Check(t));
    assert s2 == s.(tasks := s.tasks[t := Loading(room, call)]);
    FailedLoadStep(s2, t, room, call, now);
    var s3 := Apply(s2, Load(t, now, true));
    assert s3 == s.(tasks := s.tasks[t := Loaded(room, call, EmptyRecord(now))]);
    InsertStep(s3, t, room, call, EmptyRecord(now));
    assert s3.tasks[t := Waiting(room, call)] == s.tasks[t := Waiting(room, call)];
  }

  lemma StartStep(s: Store, t: nat, room: RoomId, call: Call)
    requires t !in s.tasks && Admitted(call)
    ensures Apply(s, Start(t, room, call)) == s.(tasks := s.tasks[t := Checking(room, call)])
  {
    hide Admitted;
  }

  lemma CheckStep(s: Store, t: nat, room: RoomId, call: Call)
    requires s.lock.None? && room !in s.cache && t in s.tasks && s.tasks[t] == Checking(room, call)
    ensures Apply(s, Check(t)) == s.(tasks := s.tasks[t := Loading(room, call)])
  {
    hide Admitted;
  }

  lemma FailedLoadStep(s: Store, t: nat, room: RoomId, call: Call, now: nat)
    requires t in s.tasks && s.tasks[t] == Loading(room, call)
    ensures Apply(s, Load(t, now, true)) == s.(tasks := s.tasks[t := Loaded(room, call, EmptyRecord(now))])
  {
    hide Admitted, EmptyRecord;
  }

  lemma InsertStep(s: Store, t: nat, room: RoomId, call: Call, record: Record)
    requires s.lock.None? && room !in s.cache && t in s.tasks && s.tasks[t] == Loaded(room, call, record) && call.Update?
    ensures Apply(s, Insert(t))
            == s.(cache := s.cache[room := record], tasks := s.tasks[t := Waiting(room, call)])
  {
    hide Admitted;
  }

  lemma LockStep(s: Store, t: nat, room: RoomId, call: Call, now: nat, next: Record)
    requires s.lock.None? && t in s.tasks && s.tasks[t] == Waiting(room, call) && call.Update?
    requires room in s.cache && s.cache[room].revision == call.expected
    requires next == NextRecord(s.cache[room], call.state, call.wallet, now)
    ensures Apply(s, Lock(t, now))
            == s.(lock := Some(t), tmp := s.tmp[room := Partial],
                  tasks := s.tasks[t := Writing(room, call, now, next)])
  {
    hide Admitted, NextRecord;
  }

  lemma WriteStep(s: Store, t: nat, room: RoomId, call: Call, now: nat, next: Record)
    requires t in s.tasks && s.tasks[t] == Writing(room, call, now, next) && room in s.cache
    ensures Apply(s, WriteTmp(t, true))
            == s.(tmp := s.tmp[room := Whole(next)], tasks := s.tasks[t := Renaming(room, call, now, next)])
  {
    hide Admitted;
  }

  lemma RenameStep(s: Store, t: nat, room: RoomId, call: Call, now: nat, next: Record)
    requires t in s.tasks && s.tasks[t] == Renaming(room, call, now, next) && room in s.cache
    requires room in s.tmp && s.tmp[room] == Whole(next)
    ensures var s' := Apply(s, Rename(t, true));
            && s'.history == s.history[room := HistoryOf(s.history, room) + [next]]
            && t in s'.tasks && s'.tasks[t] == Publishing(room, call, now, next)
  {
    hide Admitted;
  }

  lemma PublishStep(s: Store, t: nat)
    requires t in s.tasks && s.tasks[t].Publishing?
    ensures Apply(s, Publish(t)).history == s.history
  {
    hide Admitted;
  }

  /** The second half: whatever the memory holds at the expected revision is succeeded on disk. */
  lemma UpdateAppends(s: Store, t: nat, room: RoomId, call: Call, now: nat)
    requires s.lock.None? && t in s.tasks && s.tasks[t] == Waiting(room, call) && call.Update?
    requires room in s.cache && s.cache[room].revision == call.expected
    ensures Apply(Apply(Apply(Apply(s, Lock(t, now)), WriteTmp(t, true)), Rename(t, true)), Publish(t)).history
            == s.history[room := HistoryOf(s.history, room)
                                 + [NextRecord(s.cache[room], call.state, call.wallet, now)]]
  {
    hide Apply, NextRecord;
    var next := NextRecord(s.cache[room], call.state, call.wallet, now);
    LockStep(s, t, room, call, now, next);
    var s1 := Apply(s, Lock(t, now));
    WriteStep(s1, t, room, call, now, next);
    var s2 := Apply(s1, WriteTmp(t, true));
    RenameStep(s2, t, room, call, now, next);
    PublishStep(Apply(s2, Rename(t, true)), t);
  }

  lemma ForkedHistory(files: map<RoomId, Record>, s: Store, t: nat, room: RoomId, call: Call, now: nat)
    requires GoodFiles(files) && Sound(files, s) && s.lock.None? && t !in s.tasks
    requires room !in s.cache && room in s.disk
    requires call.Update? && call.expected == 0 && Admitted(call)
    ensures !GapFree(files, room, HistoryOf(LoneUpdate(s, t, room, call, now, true).history, room))
  {
    hide ValidState, ValidateRoomState, TaskOk, CacheOk, ReplyKnown, IsCurrent, Apply;
    var h := HistoryOf(s.history, room);
    var next := NextRecord(EmptyRecord(now), call.state, call.wallet, now);
    FailedLoadServesEmpty(s, t, room, call, now);
    UpdateAppends(s.(cache := s.cache[room := EmptyRecord(now)], tasks := s.tasks[t := Waiting(room, call)]),
                  t, room, call, now);
    assert (h + [next])[|h|].revision == 1;
    assert |h| >= 1 && FirstRevision(files, room) >= 1;
  }

  lemma LoneUpdateIsSound(files: map<RoomId, Record>, s: Store, t: nat, room: RoomId, call: Call,
                          now: nat, fails: bool)
    requires Sound(files, s) && s.lock.None? && t !in s.tasks && room !in s.cache
    requires !(fails && room in s.disk)
    ensures Sound(files, LoneUpdate(s, t, room, call, now, fails))
  {
    hide Sound;
    var s1 := Apply(s, Start(t, room, call));
    var s2 := Apply(s1, Check(t));
    var s3 := Apply(s2, Load(t, now, fails));
    var s4 := Apply(s3, Insert(t));
    var s5 := Apply(s4, Lock(t, now));
    var s6 := Apply(s5, WriteTmp(t, true));
    var s7 := Apply(s6, Rename(t, true));
    StepKeeps(files, s, Start(t, room, call));
    StepKeeps(files, s1, Check(t));
    assert !LosesFile(s2, Load(t, now, fails));
    StepKeeps(files, s2, Load(t, now, fails));
    StepKeeps(files, s3, Insert(t));
    StepKeeps(files, s4, Lock(t, now));
    StepKeeps(files, s5, WriteTmp(t, true));
    StepKeeps(files, s6, Rename(t, true));
    StepKeeps(files, s7, Publish(t));
  }
}
