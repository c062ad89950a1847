/** The room program store: a lazily filled in-memory map over atomic files (`room_program` and
    `apply_room_update` of src/realtime/mod.rs over src/store.rs), as steps between which other calls, or
    a crash of the process, may come. */
module Rooms {
  import opened Common
  import opened Validate

  datatype Record = Record(state: RoomState, revision: nat, updatedBy: Option<Wallet>, updatedAt: nat)

  function EmptyRecord(now: nat): Record {
    Record(EmptyState(now), 0, None, 0)
  }

  /** The record an accepted update writes. */
  function NextRecord(current: Record, state: RoomState, wallet: Wallet, now: nat): Record {
    Record(state.(updatedAt := now), current.revision + 1, Some(wallet), now)
  }

  /** A temp file: being written or torn by a crash, or complete. */
  datatype TmpFile = Partial | Whole(record: Record)

  datatype Verdict = Current | Accepted | Stale | StorageFailed
  datatype Reply = Reply(room: RoomId, record: Record, verdict: Verdict)

  datatype Call = Read | Update(expected: nat, state: RoomState, wallet: Wallet)

  /** Where a call stands between two awaits. From `Writing` to `Publishing` it holds the write lock. */
  datatype Task =
    | Checking(room: RoomId, call: Call)
    | Loading(room: RoomId, call: Call)
    | Loaded(room: RoomId, call: Call, record: Record)
    | Waiting(room: RoomId, call: Call)
    | Writing(room: RoomId, call: Call, now: nat, next: Record)
    | Renaming(room: RoomId, call: Call, now: nat, next: Record)
    | Publishing(room: RoomId, call: Call, now: nat, next: Record)
    | Answering(reply: Reply)

  datatype Store = Store(
    disk: map<RoomId, Record>,          // the final files
    tmp: map<RoomId, TmpFile>,          // the temp files
    cache: map<RoomId, Record>,         // room_programs
    lock: Option<nat>,                  // the call that holds room_programs for writing across awaits
    tasks: map<nat, Task>,              // calls in progress
    history: map<RoomId, seq<Record>>,  // every record ever renamed into place, oldest first
    replies: seq<Reply>)                // everything ever sent to a client

  function Boot(files: map<RoomId, Record>): Store {
    Store(files, map[], map[], None, map[], map r | r in files :: [files[r]], [])
  }

  function HistoryOf(history: map<RoomId, seq<Record>>, room: RoomId): seq<Record> {
    if room in history then history[room] else []
  }

  datatype Step =
    | Start(task: nat, room: RoomId, call: Call)
    | Check(task: nat)
    | Load(task: nat, now: nat, fails: bool)
    | Insert(task: nat)
    | Lock(task: nat, now: nat)
    | WriteTmp(task: nat, ok: bool)
    | Rename(task: nat, ok: bool)
    | Publish(task: nat)
    | Answer(task: nat)
    | Crash

  /** `room_program` is done with `record`: a read answers, an update goes for the write lock. */
  function Continue(room: RoomId, call: Call, record: Record): Task {
    match call
    case Read => Answering(Reply(room, record, Current))
    case Update(_, _, _) => Waiting(room, call)
  }

  /** Handlers validate before they call `apply_room_update`. */
  predicate Admitted(call: Call) {
    call.Update? ==> ValidateRoomState(call.state).Ok?
  }

  predicate Possible(s: Store, step: Step) {
    match step
    case Start(t, _, call) => t !in s.tasks && Admitted(call)
    case Check(t) => t in s.tasks && s.tasks[t].Checking? && s.lock.None?
    case Load(t, _, _) => t in s.tasks && s.tasks[t].Loading?
    case Insert(t) => t in s.tasks && s.tasks[t].Loaded? && s.lock.None?
    case Lock(t, _) =>
      t in s.tasks && s.tasks[t].Waiting? && s.tasks[t].call.Update? && s.lock.None? && s.tasks[t].room in s.cache
    case WriteTmp(t, _) => t in s.tasks && s.tasks[t].Writing? && s.tasks[t].room in s.cache
    case Rename(t, ok) =>
      && t in s.tasks && s.tasks[t].Renaming? && s.tasks[t].room in s.cache
      && (ok ==> s.tasks[t].room in s.tmp && s.tmp[s.tasks[t].room].Whole?)
    case Publish(t) => t in s.tasks && s.tasks[t].Publishing?
    case Answer(t) => t in s.tasks && s.tasks[t].Answering?
    case Crash => true
  }

  function Next(s: Store, step: Step): Store
    requires Possible(s, step)
  {
    match step
    case Start(t, room, call) => s.(tasks := s.tasks[t := Checking(room, call)])
    case Check(t) =>
      var (room, call) := (s.tasks[t].room, s.tasks[t].call);
      s.(tasks := s.tasks[t := if room in s.cache then Continue(room, call, s.cache[room]) else Loading(room, call)])
    case Load(t, now, fails) =>
      var room := s.tasks[t].room;
      var found := if room in s.disk && !fails then s.disk[room] else EmptyRecord(now);
      s.(tasks := s.tasks[t := Loaded(room, s.tasks[t].call, found)])
    case Insert(t) =>
      var room := s.tasks[t].room;
      var kept := if room in s.cache then s.cache[room] else s.tasks[t].record;
      s.(cache := s.cache[room := kept], tasks := s.tasks[t := Continue(room, s.tasks[t].call, kept)])
    case Lock(t, now) =>
      var (room, call) := (s.tasks[t].room, s.tasks[t].call);
      var entry := s.cache[room];
      if entry.revision != call.expected then
        s.(tasks := s.tasks[t := Answering(Reply(room, entry, Stale))])
      else
        s.(lock := Some(t), tmp := s.tmp[room := Partial],
           tasks := s.tasks[t := Writing(room, call, now, NextRecord(entry, call.state, call.wallet, now))])
    case WriteTmp(t, ok) =>
      var task := s.tasks[t];
      if ok then
        s.(tmp := s.tmp[task.room := Whole(task.next)],
           tasks := s.tasks[t := Renaming(task.room, task.call, task.now, task.next)])
      else
        s.(lock := None, tasks := s.tasks[t := Answering(Reply(task.room, s.cache[task.room], StorageFailed))])
    case Rename(t, ok) =>
      var task := s.tasks[t];
      if ok then
        var file := s.tmp[task.room].record;
        s.(disk := s.disk[task.room := file], tmp := s.tmp - {task.room},
           history := s.history[task.room := HistoryOf(s.history, task.room) + [file]],
           tasks := s.tasks[t := Publishing(task.room, task.call, task.now, task.next)])
      else
        s.(lock := None, tasks := s.tasks[t := Answering(Reply(task.room, s.cache[task.room], StorageFailed))])
    case Publish(t) =>
      var task := s.tasks[t];
      s.(cache := s.cache[task.room := task.next], lock := None,
         tasks := s.tasks[t := Answering(Reply(task.room, task.next, Accepted))])
    case Answer(t) => s.(replies := s.replies + [s.tasks[t].reply], tasks := s.tasks - {t})
    case Crash => s.(cache := map[], lock := None, tasks := map[])
  }

  function Apply(s: Store, step: Step): Store {
    if Possible(s, step) then Next(s, step) else s
  }

  function Exec(s: Store, steps: seq<Step>): Store {
    if steps == [] then s else Apply(Exec(s, steps[..|steps| - 1]), steps[|steps| - 1])
  }

  // -------------------------------------------------------------- the classes

  /** One JSON file per room, replaced atomically. */
  class RoomStore {
    var disk: map<RoomId, Record>
    var tmp: map<RoomId, TmpFile>

    constructor (files: map<RoomId, Record>)
      ensures disk == files && tmp == map[]
    {
      disk, tmp := files, map[];
    }

    /** `fails` is an I/O or decoding error, which the caller turns into an empty room. */
    method Load(room: RoomId, fails: bool) returns (r: Result<Option<Record>, ()>)
      ensures r == if fails then Err(()) else Ok(if room in disk then Some(disk[room]) else None)
    {
      if fails {
        return Err(());
      }
      return Ok(if room in disk then Some(disk[room]) else None);
    }

    method BeginWrite(room: RoomId)
      modifies this`tmp
      ensures tmp == old(tmp)[room := Partial]
    {
      tmp := tmp[room := Partial];
    }

    method EndWrite(room: RoomId, record: Record)
      modifies this`tmp
      ensures tmp == old(tmp)[room := Whole(record)]
    {
      tmp := tmp[room := Whole(record)];
    }

    /** Installs whatever the temp file holds. */
    method RenameOver(room: RoomId)
      requires room in tmp && tmp[room].Whole?
      modifies this
      ensures disk == old(disk)[room := old(tmp)[room].record] && tmp == old(tmp) - {room}
    {
      disk := disk[room := tmp[room].record];
      tmp := tmp - {room};
    }
  }

  class RoomPrograms {
    const files: RoomStore
    var cache: map<RoomId, Record>
    var lock: Option<nat>
    var tasks: map<nat, Task>
    ghost var history: map<RoomId, seq<Record>>
    var replies: seq<Reply>

    ghost function State(): Store
      reads this, files
    {
      Store(files.disk, files.tmp, cache, lock, tasks, history, replies)
    }

    constructor (onDisk: map<RoomId, Record>)
      ensures State() == Boot(onDisk)
    {
      files := new RoomStore(onDisk);
      cache, lock, tasks, replies := map[], None, map[], [];
      history := map r | r in onDisk :: [onDisk[r]];
    }

    method StartCall(t: nat, room: RoomId, call: Call)
      requires t !in tasks
      modifies this`tasks
      ensures State() == Apply(old(State()), Start(t, room, call))
    {
      if call.Update? && ValidateRoomState(call.state).Err? {
        return;
      }
      tasks := tasks[t := Checking(room, call)];
    }

    method CheckCache(t: nat)
      requires Possible(State(), Check(t))
      modifies this`tasks
      ensures State() == Apply(old(State()), Check(t))
    {
      var room, call := tasks[t].room, tasks[t].call;
      if room in cache {
        tasks := tasks[t := Continue(room, call, cache[room])];
      } else {
        tasks := tasks[t := Loading(room, call)];
      }
    }

    method LoadFromDisk(t: nat, now: nat, fails: bool)
      requires Possible(State(), Load(t, now, fails))
      modifies this`tasks
      ensures State() == Apply(old(State()), Load(t, now, fails))
    {
      var room, call := tasks[t].room, tasks[t].call;
      var read := files.Load(room, fails);
      var record := EmptyRecord(now);
      if read.Ok? && read.value.Some? {
        record := read.value.value;
      }
      tasks := tasks[t := Loaded(room, call, record)];
    }

    method OrInsert(t: nat)
      requires Possible(State(), Insert(t))
      modifies this`tasks, this`cache
      ensures State() == Apply(old(State()), Insert(t))
    {
      var room, call, record := tasks[t].room, tasks[t].call, tasks[t].record;
      if room in cache {
        record := cache[room];
      }
      cache := cache[room := record];
      tasks := tasks[t := Continue(room, call, record)];
    }

    /** Takes the write lock and compares; a match starts the save with the lock held. */
    method CompareAndBegin(t: nat, now: nat)
      requires Possible(State(), Lock(t, now))
      modifies this`tasks, this`lock, files`tmp
      ensures State() == Apply(old(State()), Lock(t, now))
    {
      var room, call := tasks[t].room, tasks[t].call;
      var entry := cache[room];
      if entry.revision != call.expected {
        tasks := tasks[t := Answering(Reply(room, entry, Stale))];
        return;
      }
      lock := Some(t);
      files.BeginWrite(room);
      tasks := tasks[t := Writing(room, call, now, NextRecord(entry, call.state, call.wallet, now))];
    }

    method FinishWrite(t: nat, ok: bool)
      requires Possible(State(), WriteTmp(t, ok))
      modifies this`tasks, this`lock, files`tmp
      ensures State() == Apply(old(State()), WriteTmp(t, ok))
    {
      var task := tasks[t];
      if !ok {
        lock := None;
        tasks := tasks[t := Answering(Reply(task.room, cache[task.room], StorageFailed))];
        return;
      }
      files.EndWrite(task.room, task.next);
      tasks := tasks[t := Renaming(task.room, task.call, task.now, task.next)];
    }

    method FinishSave(t: nat, ok: bool)
      requires Possible(State(), Rename(t, ok))
      modifies this`tasks, this`lock, this`history, files
      ensures State() == Apply(old(State()), Rename(t, ok))
    {
      var task := tasks[t];
      if !ok {
        lock := None;
        tasks := tasks[t := Answering(Reply(task.room, cache[task.room], StorageFailed))];
        return;
      }
      files.RenameOver(task.room);
      history := history[task.room := (if task.room in history then history[task.room] else [])
                                      + [files.disk[task.room]]];
      tasks := tasks[t := Publishing(task.room, task.call, task.now, task.next)];
    }

    method PublishUpdate(t: nat)
      requires Possible(State(), Publish(t))
      modifies this`tasks, this`lock, this`cache
      ensures State() == Apply(old(State()), Publish(t))
    {
      var task := tasks[t];
      cache := cache[task.room := task.next];
      lock := None;
      tasks := tasks[t := Answering(Reply(task.room, task.next, Accepted))];
    }

    method SendReply(t: nat)
      requires Possible(State(), Answer(t))
      modifies this`tasks, this`replies
      ensures State() == Apply(old(State()), Answer(t))
    {
      replies := replies + [tasks[t].reply];
      tasks := tasks - {t};
    }

    /** The process dies and is started again: only the files are left. */
    method Restart()
      modifies this`cache, this`lock, this`tasks
      ensures State() == Apply(old(State()), Crash)
    {
      cache, lock, tasks := map[], None, map[];
    }

    /** `room_program` with nothing in between: the cached record, else the file, else an empty room. */
    method RoomProgram(t: nat, now: nat, loadFails: bool) returns (record: Record)
      requires Possible(State(), Check(t))
      modifies this`tasks, this`cache
      ensures var room := old(tasks)[t].room;
              && record == (if room in old(cache) then old(cache)[room]
                            else if room in files.disk && !loadFails then files.disk[room]
                            else Record(RoomState(1, "cosmic-grass", [], now), 0, None, 0))
              && cache == old(cache)[room := record]
              && tasks == old(tasks)[t := Continue(room, old(tasks)[t].call, record)]
    {
      var room := tasks[t].room;
      CheckCache(t);
      if tasks[t].Loading? {
        LoadFromDisk(t, now, loadFails);
        OrInsert(t);
      }
      record := cache[room];
    }

    /** `save` and what follows it, under the write lock, with nothing in between. */
    method SaveAndPublish(t: nat, writeOk: bool, renameOk: bool) returns (reply: Reply)
      requires Possible(State(), WriteTmp(t, writeOk))
      modifies this`tasks, this`cache, this`lock, this`history, files
      ensures var task := old(tasks)[t];
              && reply == (if writeOk && renameOk then Reply(task.room, task.next, Accepted)
                           else Reply(task.room, old(cache)[task.room], StorageFailed))
              && lock.None? && tasks == old(tasks)[t := Answering(reply)]
              && cache == old(cache)[task.room := reply.record]
              && files.disk == if reply.verdict == Accepted then old(files.disk)[task.room := task.next]
                               else old(files.disk)
    {
      FinishWrite(t, writeOk);
      if tasks[t].Answering? {
        return tasks[t].reply;
      }
      FinishSave(t, renameOk);
      if tasks[t].Answering? {
        return tasks[t].reply;
      }
      PublishUpdate(t);
      return tasks[t].reply;
    }

    /** The locked half of `apply_room_update` with nothing in between: compare, then file, then memory. */
    method CompareAndSave(t: nat, now: nat, writeOk: bool, renameOk: bool) returns (reply: Reply)
      requires Possible(State(), Lock(t, now))
      modifies this`tasks, this`cache, this`lock, this`history, files
      ensures var room, call := old(tasks)[t].room, old(tasks)[t].call;
              var current := old(cache)[room];
              var next := Record(call.state.(updatedAt := now), current.revision + 1, Some(call.wallet), now);
              && reply == (if current.revision != call.expected then Reply(room, current, Stale)
                           else if writeOk && renameOk then Reply(room, next, Accepted)
                           else Reply(room, current, StorageFailed))
              && lock.None? && tasks == old(tasks)[t := Answering(reply)]
              && cache == old(cache)[room := reply.record]
              && files.disk == if reply.verdict == Accepted then old(files.disk)[room := next] else old(files.disk)
    {
      CompareAndBegin(t, now);
      if tasks[t].Answering? {
        return tasks[t].reply;
      }
      reply := SaveAndPublish(t, writeOk, renameOk);
    }

    /** A whole `apply_room_update` with nothing in between: a durable compare and set. */
    method ApplyRoomUpdate(t: nat, room: RoomId, expected: nat, state: RoomState, wallet: Wallet,
                           now: nat, loadFails: bool, writeOk: bool, renameOk: bool) returns (reply: Reply)
      requires t !in tasks && lock.None? && ValidateRoomState(state).Ok?
      modifies this, files
      ensures var current := if room in old(cache) then old(cache)[room]
                             else if room in old(files.disk) && !loadFails then old(files.disk)[room]
                             else Record(RoomState(1, "cosmic-grass", [], now), 0, None, 0);
              var next := Record(state.(updatedAt := now), current.revision + 1, Some(wallet), now);
              && reply == (if current.revision != expected then Reply(room, current, Stale)
                           else if writeOk && renameOk then Reply(room, next, Accepted)
                           else Reply(room, current, StorageFailed))
              && cache == old(cache)[room := reply.record]
              && files.disk == if reply.verdict == Accepted then old(files.disk)[room := next] else old(files.disk)
    {
      StartCall(t, room, Update(expected, state, wallet));
      var _ := RoomProgram(t, now, loadFails);
      reply := CompareAndSave(t, now, writeOk, renameOk);
    }
  }
}
