/** Where records come from: whatever was accepted is what some call asked for. No assumption is made on
    loads here; the history may even fork. */
module Provenance {
  import opened Common
  import opened Validate
  import opened Rooms

  /** At moment `b` of the run, task `t` is a call for `room` that began as `call` and is still going. */
  ghost predicate Asked(s0: Store, steps: seq<Step>, b: nat, t: nat, room: RoomId, call: Call)
    requires b <= |steps|
  {
    exists a :: 0 <= a < b && BeganAt(s0, steps, a, b, t, room, call)
  }

  ghost predicate BeganAt(s0: Store, steps: seq<Step>, a: nat, b: nat, t: nat, room: RoomId, call: Call)
    requires a < b <= |steps|
  {
    && steps[a] == Start(t, room, call) && t !in Exec(s0, steps[..a]).tasks
    && forall c :: a < c <= b ==> t in Exec(s0, steps[..c]).tasks
  }

  /** An update of `room` that had begun earlier took the write lock at step `b`, found its expected revision
      there and started to save `rec`: the state it was given, stamped with the time, at the next
      revision, in the name of its wallet. */
  ghost predicate SavedAt(s0: Store, steps: seq<Step>, b: nat, room: RoomId, rec: Record)
    requires b < |steps|
  {
    exists t, now, call: Call ::
      && steps[b] == Lock(t, now) && call.Update? && Asked(s0, steps, b, t, room, call)
      && t in Exec(s0, steps[..b + 1]).tasks && Exec(s0, steps[..b + 1]).tasks[t].Writing?
      && rec.state == call.state.(updatedAt := rec.updatedAt) && rec.updatedAt == now
      && rec.updatedBy == Some(call.wallet) && rec.revision == call.expected + 1
  }

  ghost predicate Caused(s0: Store, steps: seq<Step>, room: RoomId, rec: Record) {
    exists b :: 0 <= b < |steps| && SavedAt(s0, steps, b, room, rec)
  }

  ghost predicate TaskTraced(s0: Store, steps: seq<Step>, t: nat, task: Task) {
    match task
    case Checking(room, call) => Asked(s0, steps, |steps|, t, room, call)
    case Loading(room, call) => Asked(s0, steps, |steps|, t, room, call)
    case Loaded(room, call, _) => Asked(s0, steps, |steps|, t, room, call)
    case Waiting(room, call) => Asked(s0, steps, |steps|, t, room, call)
    case Writing(room, _, _, next) => Caused(s0, steps, room, next)
    case Renaming(room, _, _, next) => Caused(s0, steps, room, next)
    case Publishing(room, _, _, next) => Caused(s0, steps, room, next)
    case Answering(reply) => reply.verdict == Accepted ==> Caused(s0, steps, reply.room, reply.record)
  }

  /** The records of a room's history that were written in this run: all but the file found at boot. */
  function Written(files: map<RoomId, Record>, history: map<RoomId, seq<Record>>, room: RoomId): seq<Record> {
    var h := HistoryOf(history, room);
    if room in files && h != [] then h[1..] else h
  }

  ghost predicate Traced(files: map<RoomId, Record>, steps: seq<Step>) {
    var s0 := Boot(files);
    var s := Exec(s0, steps);
    && (forall t :: t in s.tasks ==> TaskTraced(s0, steps, t, s.tasks[t]))
    && (forall room :: room in s.tmp && s.tmp[room].Whole? ==> Caused(s0, steps, room, s.tmp[room].record))
    && (forall room, rec :: rec in Written(files, s.history, room) ==> Caused(s0, steps, room, rec))
    && (forall r :: r in s.replies && r.verdict == Accepted ==> Caused(s0, steps, r.room, r.record))
    && (forall room :: room in files ==> HistoryOf(s.history, room) != [])
  }

  // ------------------------------------------------------------- one more step

  lemma SlicesStay(steps: seq<Step>, step: Step)
    ensures forall c :: 0 <= c <= |steps| ==> (steps + [step])[..c] == steps[..c]
  {
  }

  lemma AskedStays(s0: Store, steps: seq<Step>, step: Step, b: nat, t: nat, room: RoomId, call: Call)
    requires b <= |steps| && Asked(s0, steps, b, t, room, call)
    ensures Asked(s0, steps + [step], b, t, room, call)
  {
    hide Exec;
    SlicesStay(steps, step);
    var a :| 0 <= a < b && BeganAt(s0, steps, a, b, t, room, call);
    assert (steps + [step])[a] == steps[a];
    assert BeganAt(s0, steps + [step], a, b, t, room, call);
  }

  lemma AskedGoesOn(s0: Store, steps: seq<Step>, step: Step, t: nat, room: RoomId, call: Call)
    requires Asked(s0, steps, |steps|, t, room, call) && t in Exec(s0, steps + [step]).tasks
    ensures Asked(s0, steps + [step], |steps| + 1, t, room, call)
  {
    hide Exec;
    SlicesStay(steps, step);
    var more := steps + [step];
    var a :| 0 <= a < |steps| && BeganAt(s0, steps, a, |steps|, t, room, call);
    assert more[a] == steps[a] && more[..|more|] == more;
    assert BeganAt(s0, more, a, |more|, t, room, call);
  }

  lemma AskedBegins(s0: Store, steps: seq<Step>, t: nat, room: RoomId, call: Call)
    requires t !in Exec(s0, steps).tasks && t in Exec(s0, steps + [Start(t, room, call)]).tasks
    ensures Asked(s0, steps + [Start(t, room, call)], |steps| + 1, t, room, call)
  {
    hide Exec;
    var more := steps + [Start(t, room, call)];
    assert more[..|steps|] == steps && more[..|more|] == more;
    assert BeganAt(s0, more, |steps|, |more|, t, room, call);
  }

  lemma CausedStays(s0: Store, steps: seq<Step>, step: Step, room: RoomId, rec: Record)
    requires Caused(s0, steps, room, rec)
    ensures Caused(s0, steps + [step], room, rec)
  {
    hide Exec, Asked;
    SlicesStay(steps, step);
    var b :| 0 <= b < |steps| && SavedAt(s0, steps, b, room, rec);
    var t, now, call: Call :|
      && steps[b] == Lock(t, now) && call.Update? && Asked(s0, steps, b, t, room, call)
      && t in Exec(s0, steps[..b + 1]).tasks && Exec(s0, steps[..b + 1]).tasks[t].Writing?
      && rec.state == call.state.(updatedAt := rec.updatedAt) && rec.updatedAt == now
      && rec.updatedBy == Some(call.wallet) && rec.revision == call.expected + 1;
    AskedStays(s0, steps, step, b, t, room, call);
    assert (steps + [step])[b] == steps[b];
    assert SavedAt(s0, steps + [step], b, room, rec);
  }

  /** The lock step of an update that finds its revision. */
  lemma LockSaves(s0: Store, steps: seq<Step>, t: nat, now: nat)
    requires var s := Exec(s0, steps);
             && Possible(s, Lock(t, now)) && Asked(s0, steps, |steps|, t, s.tasks[t].room, s.tasks[t].call)
             && s.cache[s.tasks[t].room].revision == s.tasks[t].call.expected
    ensures var (more, s') := (steps + [Lock(t, now)], Exec(s0, steps + [Lock(t, now)]));
            && t in s'.tasks && s'.tasks[t].Writing? && s'.tasks[t].room == Exec(s0, steps).tasks[t].room
            && Caused(s0, more, s'.tasks[t].room, s'.tasks[t].next)
  {
    hide Asked, Admitted;
    var s, more := Exec(s0, steps), steps + [Lock(t, now)];
    var room, call := s.tasks[t].room, s.tasks[t].call;
    assert more[..|steps|] == steps && more[..|more|] == more;
    AskedStays(s0, steps, Lock(t, now), |steps|, t, room, call);
    var next := Exec(s0, more).tasks[t].next;
    assert SavedAt(s0, more, |steps|, room, next);
  }

  /** The task that a step acts on. */
  function ActorOf(step: Step): Option<nat> {
    match step
    case Start(t, _, _) => Some(t)
    case Check(t) => Some(t)
    case Load(t, _, _) => Some(t)
    case Insert(t) => Some(t)
    case Lock(t, _) => Some(t)
    case WriteTmp(t, _) => Some(t)
    case Rename(t, _) => Some(t)
    case Publish(t) => Some(t)
    case Answer(t) => Some(t)
    case Crash => None
  }

  lemma OthersUntouched(s: Store, step: Step, t: nat)
    requires t in Apply(s, step).tasks && ActorOf(step) != Some(t)
    ensures t in s.tasks && Apply(s, step).tasks[t] == s.tasks[t]
  {
    hide Admitted, NextRecord, EmptyRecord;
  }

  lemma TaskStaysTraced(s0: Store, steps: seq<Step>, step: Step, t: nat, task: Task)
    requires TaskTraced(s0, steps, t, task) && t in Exec(s0, steps + [step]).tasks
    ensures TaskTraced(s0, steps + [step], t, task)
  {
    hide Exec, Asked, Caused;
    match task {
      case Checking(room, call) => AskedGoesOn(s0, steps, step, t, room, call);
      case Loading(room, call) => AskedGoesOn(s0, steps, step, t, room, call);
      case Loaded(room, call, _) => AskedGoesOn(s0, steps, step, t, room, call);
      case Waiting(room, call) => AskedGoesOn(s0, steps, step, t, room, call);
      case Writing(room, _, _, next) => CausedStays(s0, steps, step, room, next);
      case Renaming(room, _, _, next) => CausedStays(s0, steps, step, room, next);
      case Publishing(room, _, _, next) => CausedStays(s0, steps, step, room, next);
      case Answering(reply) =>
        if reply.verdict == Accepted {
          CausedStays(s0, steps, step, reply.room, reply.record);
        }
    }
  }

  lemma ExecSnoc(s0: Store, steps: seq<Step>, step: Step)
    ensures Exec(s0, steps + [step]) == Apply(Exec(s0, steps), step)
  {
    hide Apply;
    assert (steps + [step])[..|steps|] == steps;
  }

  /** The task a step acts on is traced afterwards. */
  lemma ActorTraced(s0: Store, steps: seq<Step>, step: Step, t: nat)
    requires ActorOf(step) == Some(t) && t in Exec(s0, steps + [step]).tasks
    requires t in Exec(s0, steps).tasks ==> TaskTraced(s0, steps, t, Exec(s0, steps).tasks[t])
    ensures TaskTraced(s0, steps + [step], t, Exec(s0, steps + [step]).tasks[t])
  {
    hide Exec, Asked, Caused, Admitted, NextRecord, EmptyRecord, ValidateRoomState;
    ExecSnoc(s0, steps, step);
    var s, s' := Exec(s0, steps), Exec(s0, steps + [step]);
    if t !in s.tasks {
      assert step.Start?;
      AskedBegins(s0, steps, t, step.room, step.call);
    } else {
      TaskStaysTraced(s0, steps, step, t, s.tasks[t]);
      if step.Lock? && Possible(s, step) && s.cache[s.tasks[t].room].revision == s.tasks[t].call.expected {
        LockSaves(s0, steps, t, step.now);
      }
    }
  }

  lemma TmpChanges(s: Store, step: Step, room: RoomId)
    requires room in Apply(s, step).tmp && Apply(s, step).tmp[room].Whole?
    ensures (room in s.tmp && s.tmp[room] == Apply(s, step).tmp[room])
         || (step.WriteTmp? && step.task in s.tasks && s.tasks[step.task].Writing? && s.tasks[step.task].room == room
             && Apply(s, step).tmp[room] == Whole(s.tasks[step.task].next))
  {
    hide Admitted, NextRecord, EmptyRecord;
  }

  lemma HistoryChanges(s: Store, step: Step, room: RoomId)
    ensures var h, h' := HistoryOf(s.history, room), HistoryOf(Apply(s, step).history, room);
            || h' == h
            || (room in s.tmp && s.tmp[room].Whole? && h' == h + [s.tmp[room].record])
  {
    hide Admitted, NextRecord, EmptyRecord;
  }

  lemma RepliesChange(s: Store, step: Step)
    ensures var r, r' := s.replies, Apply(s, step).replies;
            || r' == r
            || (step.Answer? && step.task in s.tasks && s.tasks[step.task].Answering?
                && r' == r + [s.tasks[step.task].reply])
  {
    hide Admitted, NextRecord, EmptyRecord;
  }

  lemma TmpTraced(s0: Store, steps: seq<Step>, step: Step, room: RoomId)
    requires var s' := Exec(s0, steps + [step]); room in s'.tmp && s'.tmp[room].Whole?
    requires forall t :: t in Exec(s0, steps).tasks ==> TaskTraced(s0, steps, t, Exec(s0, steps).tasks[t])
    requires var s := Exec(s0, steps); room in s.tmp && s.tmp[room].Whole? ==> Caused(s0, steps, room, s.tmp[room].record)
    ensures Caused(s0, steps + [step], room, Exec(s0, steps + [step]).tmp[room].record)
  {
    hide Exec, Asked, Caused, Apply;
    ExecSnoc(s0, steps, step);
    var s := Exec(s0, steps);
    TmpChanges(s, step, room);
    if room in s.tmp && s.tmp[room] == Apply(s, step).tmp[room] {
      CausedStays(s0, steps, step, room, s.tmp[room].record);
    } else {
      assert TaskTraced(s0, steps, step.task, s.tasks[step.task]);
      CausedStays(s0, steps, step, room, s.tasks[step.task].next);
    }
  }

  lemma WrittenTraced(files: map<RoomId, Record>, steps: seq<Step>, step: Step, room: RoomId, rec: Record)
    requires Traced(files, steps)
    requires rec in Written(files, Exec(Boot(files), steps + [step]).history, room)
    ensures Caused(Boot(files), steps + [step], room, rec)
  {
    hide Exec, Asked, Caused, Apply, TaskTraced, Boot;
    var s0 := Boot(files);
    ExecSnoc(s0, steps, step);
    var s := Exec(s0, steps);
    HistoryChanges(s, step, room);
    CausedStaysIf(s0, steps, step, room, rec);
    if rec !in Written(files, s.history, room) {
      assert rec == s.tmp[room].record;
    }
  }

  lemma CausedStaysIf(s0: Store, steps: seq<Step>, step: Step, room: RoomId, rec: Record)
    ensures Caused(s0, steps, room, rec) ==> Caused(s0, steps + [step], room, rec)
  {
    hide Caused;
    if Caused(s0, steps, room, rec) {
      CausedStays(s0, steps, step, room, rec);
    }
  }

  lemma ReplyTraced(s0: Store, steps: seq<Step>, step: Step, r: Reply)
    requires r in Exec(s0, steps + [step]).replies && r.verdict == Accepted
    requires r in Exec(s0, steps).replies ==> Caused(s0, steps, r.room, r.record)
    requires forall t :: t in Exec(s0, steps).tasks ==> TaskTraced(s0, steps, t, Exec(s0, steps).tasks[t])
    ensures Caused(s0, steps + [step], r.room, r.record)
  {
    hide Exec, Asked, Caused, Apply;
    ExecSnoc(s0, steps, step);
    var s := Exec(s0, steps);
    RepliesChange(s, step);
    if r !in s.replies {
      assert r == s.tasks[step.task].reply;
      assert TaskTraced(s0, steps, step.task, s.tasks[step.task]);
    }
    CausedStays(s0, steps, step, r.room, r.record);
  }

  lemma HistoriesGrow(s: Store, step: Step, room: RoomId)
    ensures HistoryOf(s.history, room) != [] ==> HistoryOf(Apply(s, step).history, room) != []
  {
    hide Admitted, NextRecord, EmptyRecord;
  }

  lemma StepTraced(files: map<RoomId, Record>, steps: seq<Step>, step: Step)
    requires Traced(files, steps)
    ensures Traced(files, steps + [step])
  {
    hide Exec, TaskTraced, Caused, Written, Boot, Apply;
    var s0 := Boot(files);
    ExecSnoc(s0, steps, step);
    var s, s' := Exec(s0, steps), Exec(s0, steps + [step]);
    forall t | t in s'.tasks ensures TaskTraced(s0, steps + [step], t, s'.tasks[t]) {
      if ActorOf(step) == Some(t) {
        ActorTraced(s0, steps, step, t);
      } else {
        OthersUntouched(s, step, t);
        TaskStaysTraced(s0, steps, step, t, s.tasks[t]);
      }
    }
    forall room | room in s'.tmp && s'.tmp[room].Whole? ensures Caused(s0, steps + [step], room, s'.tmp[room].record) {
      TmpTraced(s0, steps, step, room);
    }
    forall room, rec | rec in Written(files, s'.history, room) ensures Caused(s0, steps + [step], room, rec) {
      WrittenTraced(files, steps, step, room, rec);
    }
    forall r | r in s'.replies && r.verdict == Accepted ensures Caused(s0, steps + [step], r.room, r.record) {
      ReplyTraced(s0, steps, step, r);
    }
    forall room | room in files ensures HistoryOf(s'.history, room) != [] {
      HistoriesGrow(s, step, room);
    }
  }

  lemma {:induction false} RunIsTraced(files: map<RoomId, Record>, steps: seq<Step>)
    ensures Traced(files, steps)
  {
    hide Traced;
    if steps == [] {
      BootIsTraced(files);
    } else {
      var n := |steps| - 1;
      RunIsTraced(files, steps[..n]);
      StepTraced(files, steps[..n], steps[n]);
      assert steps[..n] + [steps[n]] == steps;
    }
  }

  lemma BootIsTraced(files: map<RoomId, Record>)
    ensures Traced(files, [])
  {
    forall room ensures Written(files, Boot(files).history, room) == [] {
    }
  }

  /** `rec` is what the call of task `t` that began at step `a` asked for: at step `b` it took the lock, and
      it was the same call all the time in between. */
  ghost predicate IsWhatWasAsked(s0: Store, steps: seq<Step>, a: nat, b: nat, t: nat, room: RoomId, rec: Record)
    requires a < b < |steps|
  {
    && steps[a].Start? && steps[a].task == t && steps[a].room == room && steps[a].call.Update?
    && steps[b] == Lock(t, rec.updatedAt)
    && (forall c :: a < c <= b ==> t in Exec(s0, steps[..c]).tasks)
    && rec.state == steps[a].call.state.(updatedAt := rec.updatedAt)
    && rec.updatedBy == Some(steps[a].call.wallet)
    && rec.revision == steps[a].call.expected + 1
  }

  lemma CausedIsAsked(s0: Store, steps: seq<Step>, room: RoomId, rec: Record)
    requires Caused(s0, steps, room, rec)
    ensures exists a: nat, b: nat, t: nat :: a < b < |steps| && IsWhatWasAsked(s0, steps, a, b, t, room, rec)
  {
    hide Exec;
    var b :| 0 <= b < |steps| && SavedAt(s0, steps, b, room, rec);
    var t, now, call: Call :|
      && steps[b] == Lock(t, now) && call.Update? && Asked(s0, steps, b, t, room, call)
      && t in Exec(s0, steps[..b + 1]).tasks && Exec(s0, steps[..b + 1]).tasks[t].Writing?
      && rec.state == call.state.(updatedAt := rec.updatedAt) && rec.updatedAt == now
      && rec.updatedBy == Some(call.wallet) && rec.revision == call.expected + 1;
    var a :| 0 <= a < b && BeganAt(s0, steps, a, b, t, room, call);
    assert IsWhatWasAsked(s0, steps, a, b, t, room, rec);
  }

  /** Accepted is what was asked. In every run, crashes and failed loads included, each accepted answer, and
      each record written to a room's file, carries the state, wallet and revision of an update of that
      room that began earlier in the run, stamped with the time at which that very call took the lock. */
  lemma AcceptedIsAsked(files: map<RoomId, Record>, steps: seq<Step>, room: RoomId, rec: Record)
    requires var s := Exec(Boot(files), steps);
             || rec in Written(files, s.history, room)
             || (exists r :: r in s.replies && r.verdict == Accepted && r.room == room && r.record == rec)
    ensures exists a: nat, b: nat, t: nat :: a < b < |steps| && IsWhatWasAsked(Boot(files), steps, a, b, t, room, rec)
  {
    hide Exec, TaskTraced, Written, Caused, IsWhatWasAsked;
    RunIsTraced(files, steps);
    CausedIsAsked(Boot(files), steps, room, rec);
  }
}
