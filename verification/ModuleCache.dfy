/**
 The on-disk cache of compiled modules: loaders and savers of any number of
 processes over entry files, partial files and lock files, one file operation
 a step. Names and files are kept apart, so that a file outlives its name.
 */
module ModuleCache {
  import opened Wrappers

  /** An entry stands for one engine and one module's bytes; what `compile` gives for them is its module. */
  type Entry = nat
  type Pid = nat
  type TaskId = nat
  type FileId = nat
  type LockId = nat

  datatype Module = Module(entry: Entry)

  function Compile(e: Entry): Module {
    Module(e)
  }

  /** What a file holds: all of a module, a part of one, or bytes that no writer of ours left. */
  datatype Content = Whole(m: Module) | Partial | Corrupt

  /** `writer` opened it last. */
  datatype File = File(entry: Entry, content: Content, writer: TaskId)

  /** `left` is the file a task gave up while writing it. */
  datatype Stage =
    | Start
    | Opening
    | Waiting(lock: LockId)
    | Locked(lock: LockId)
    | Compiling(lock: LockId)
    | Storing(lock: LockId)
    | Writing(lock: LockId, file: FileId)
    | Written(lock: LockId, file: FileId)
    | Done(result: Option<Module>)
    | Failed(left: Option<FileId>)

  datatype Task = Task(entry: Entry, pid: Pid, loads: bool, stage: Stage)

  /** Files, and the names of entry files and partial files. */
  datatype Store = Store(files: seq<File>, entries: map<Entry, FileId>, partials: map<(Entry, Pid), FileId>)

  /** Names of lock files, how many were ever made, and who has which lock. */
  datatype Locks = Locks(names: map<Entry, LockId>, made: nat, held: map<LockId, TaskId>)

  /** Compiles begun, and what went wrong after one: see `NextTally`. */
  datatype Tally = Tally(compiles: map<Entry, nat>, faults: map<Entry, nat>)

  datatype Disk = Disk(store: Store, locks: Locks, tasks: map<TaskId, Task>, tally: Tally)

  datatype Step =
    | Arrive(t: TaskId, entry: Entry, pid: Pid, loads: bool)
    | FirstLoad(t: TaskId)
    | OpenLock(t: TaskId)
    | TakeLock(t: TaskId)
    | SecondLook(t: TaskId)
    | Compiled(t: TaskId)
    | OpenPartial(t: TaskId)
    | Finish(t: TaskId)
    | Rename(t: TaskId)
    | Fail(t: TaskId)
    | Spoil(e: Entry)
    | UnlinkEntry(e: Entry)
    | UnlinkPartial(e: Entry, pid: Pid)
    | UnlinkLock(e: Entry)

  // ----- one task

  /** From the lock to its release. */
  predicate Inside(stage: Stage) {
    stage.Locked? || stage.Compiling? || stage.Storing? || stage.Writing? || stage.Written?
  }

  /** It has compiled, or is about to, and has not stored. */
  predicate Busy(stage: Stage) {
    stage.Compiling? || stage.Storing? || stage.Writing? || stage.Written?
  }

  predicate Active(stage: Stage) {
    !stage.Done? && !stage.Failed?
  }

  // ----- reading

  /** `load_entry`: the module, if there is a file and it loads. */
  function Load(s: Store, e: Entry): Option<Module> {
    if e in s.entries && s.entries[e] < |s.files| && s.files[s.entries[e]].content.Whole?
    then Some(s.files[s.entries[e]].content.m)
    else None
  }

  // ----- steps

  /** Whose step it is. */
  function Actor(step: Step): Option<TaskId> {
    match step
    case Spoil(_) => None
    case UnlinkEntry(_) => None
    case UnlinkPartial(_, _) => None
    case UnlinkLock(_) => None
    case _ => Some(step.t)
  }

  predicate Enabled(d: Disk, step: Step) {
    match step
    case Arrive(t, _, _, _) => t !in d.tasks
    case FirstLoad(t) => t in d.tasks && d.tasks[t].stage.Start? && d.tasks[t].loads
    case OpenLock(t) => t in d.tasks && (d.tasks[t].stage.Opening? || (d.tasks[t].stage.Start? && !d.tasks[t].loads))
    case TakeLock(t) => t in d.tasks && d.tasks[t].stage.Waiting? && d.tasks[t].stage.lock !in d.locks.held
    case SecondLook(t) => t in d.tasks && d.tasks[t].stage.Locked?
    case Compiled(t) => t in d.tasks && d.tasks[t].stage.Compiling?
    case OpenPartial(t) => t in d.tasks && d.tasks[t].stage.Storing?
    case Finish(t) => t in d.tasks && d.tasks[t].stage.Writing? && d.tasks[t].stage.file < |d.store.files|
    case Rename(t) => t in d.tasks && d.tasks[t].stage.Written?
    case Fail(t) => t in d.tasks && Active(d.tasks[t].stage)
    case Spoil(e) => e in d.store.entries && d.store.entries[e] < |d.store.files|
    case UnlinkEntry(e) => e in d.store.entries
    case UnlinkPartial(e, pid) => (e, pid) in d.store.partials
    case UnlinkLock(e) => e in d.locks.names
  }

  /** The partial file is opened for writing: the file of that name is cut, or a new one made. */
  function PartialOpened(s: Store, x: Task, t: TaskId): (Store, FileId) {
    var name := (x.entry, x.pid);
    var empty := File(x.entry, Partial, t);
    if name in s.partials && s.partials[name] < |s.files| then
      (s.(files := s.files[s.partials[name] := empty]), s.partials[name])
    else
      (s.(files := s.files + [empty], partials := s.partials[name := |s.files|]), |s.files|)
  }

  /** The last bytes are written; the file is whole if nobody opened it since. */
  function Finished(s: Store, x: Task, t: TaskId, f: FileId): Store
    requires f < |s.files|
  {
    if s.files[f].writer == t then s.(files := s.files[f := s.files[f].(content := Whole(Compile(x.entry)))]) else s
  }

  /** The file of the partial name, whichever it is now, gets the entry's name. */
  function Renamed(s: Store, x: Task): Store {
    var name := (x.entry, x.pid);
    if name in s.partials then s.(entries := s.entries[x.entry := s.partials[name]], partials := s.partials - {name})
    else s
  }

  function NextStore(d: Disk, step: Step): Store
    requires Enabled(d, step)
  {
    var s := d.store;
    match step
    case OpenPartial(t) => PartialOpened(s, d.tasks[t], t).0
    case Finish(t) => Finished(s, d.tasks[t], t, d.tasks[t].stage.file)
    case Rename(t) => Renamed(s, d.tasks[t])
    case Spoil(e) => s.(files := s.files[s.entries[e] := s.files[s.entries[e]].(content := Corrupt)])
    case UnlinkEntry(e) => s.(entries := s.entries - {e})
    case UnlinkPartial(e, pid) => s.(partials := s.partials - {(e, pid)})
    case _ => s
  }

  /**
   Where the actor goes. Under the lock a loader takes what loads and compiles
   otherwise; a saver leaves any file that is there. `Fail` is an error return
   or the end of its process.
   */
  function NextStage(d: Disk, step: Step): Stage
    requires Enabled(d, step) && Actor(step).Some?
  {
    match step
    case Arrive(_, _, _, _) => Start
    case FirstLoad(t) =>
      var m := Load(d.store, d.tasks[t].entry);
      if m.Some? then Done(m) else Opening
    case OpenLock(t) =>
      var e := d.tasks[t].entry;
      Waiting(if e in d.locks.names then d.locks.names[e] else d.locks.made)
    case TakeLock(t) => Locked(d.tasks[t].stage.lock)
    case SecondLook(t) =>
      var x := d.tasks[t];
      if x.loads then
        var m := Load(d.store, x.entry);
        if m.Some? then Done(m) else Compiling(x.stage.lock)
      else if x.entry in d.store.entries then Done(None)
      else Storing(x.stage.lock)
    case Compiled(t) => Storing(d.tasks[t].stage.lock)
    case OpenPartial(t) => Writing(d.tasks[t].stage.lock, PartialOpened(d.store, d.tasks[t], t).1)
    case Finish(t) => Written(d.tasks[t].stage.lock, d.tasks[t].stage.file)
    case Rename(t) =>
      var x := d.tasks[t];
      if (x.entry, x.pid) !in d.store.partials then Failed(None)
      else Done(if x.loads then Some(Compile(x.entry)) else None)
    case Fail(t) => Failed(if d.tasks[t].stage.Writing? then Some(d.tasks[t].stage.file) else None)
  }

  function NextTask(d: Disk, step: Step): Task
    requires Enabled(d, step) && Actor(step).Some?
  {
    if step.Arrive? then Task(step.entry, step.pid, step.loads, Start)
    else d.tasks[step.t].(stage := NextStage(d, step))
  }

  function Without(held: map<LockId, TaskId>, t: TaskId): map<LockId, TaskId> {
    map l | l in held && held[l] != t :: held[l]
  }

  /** The lock file is made if there is none of its name; a lock goes when its task leaves, however it leaves. */
  function NextLocks(d: Disk, step: Step): Locks
    requires Enabled(d, step)
  {
    var k := d.locks;
    if step.OpenLock? && d.tasks[step.t].entry !in k.names then
      k.(names := k.names[d.tasks[step.t].entry := k.made], made := k.made + 1)
    else if step.TakeLock? then k.(held := k.held[d.tasks[step.t].stage.lock := step.t])
    else if step.UnlinkLock? then k.(names := k.names - {step.e})
    else if Actor(step).Some? && !step.Arrive? && !Inside(NextStage(d, step)) then k.(held := Without(k.held, step.t))
    else k
  }

  function Count(counts: map<Entry, nat>, e: Entry): nat {
    if e in counts then counts[e] else 0
  }

  function Bumped(counts: map<Entry, nat>, e: Entry): map<Entry, nat> {
    counts[e := Count(counts, e) + 1]
  }

  /** A compile is counted when it begins; a fault is a failure after that, or an artifact spoiled or removed. */
  function NextTally(d: Disk, step: Step): Tally
    requires Enabled(d, step)
  {
    var c := d.tally;
    if step.SecondLook? && NextStage(d, step).Compiling? then c.(compiles := Bumped(c.compiles, d.tasks[step.t].entry))
    else if step.Spoil? || step.UnlinkEntry? then c.(faults := Bumped(c.faults, step.e))
    else if (step.Fail? || step.Rename?) && NextStage(d, step).Failed? && Busy(d.tasks[step.t].stage) then
      c.(faults := Bumped(c.faults, d.tasks[step.t].entry))
    else c
  }

  function Apply(d: Disk, step: Step): Disk
    requires Enabled(d, step)
  {
    Disk(NextStore(d, step), NextLocks(d, step),
         if Actor(step).Some? then d.tasks[step.t := NextTask(d, step)] else d.tasks,
         NextTally(d, step))
  }

  // ----- runs

  const EMPTY: Disk := Disk(Store([], map[], map[]), Locks(map[], 0, map[]), map[], Tally(map[], map[]))

  ghost predicate Steps(run: seq<Disk>, steps: seq<Step>, i: nat) {
    i < |steps| && i + 1 < |run| && Enabled(run[i], steps[i]) && run[i + 1] == Apply(run[i], steps[i])
  }

  ghost predicate IsRun(run: seq<Disk>, steps: seq<Step>) {
    |run| == |steps| + 1 && run[0] == EMPTY && forall i :: 0 <= i < |steps| ==> Steps(run, steps, i)
  }

  // ----- the right module, in every run

  predicate Opened(stage: Stage) {
    stage.Writing? || stage.Written?
  }

  /** A file under a name for an entry holds that entry's module or none. */
  ghost predicate StoreOk(s: Store) {
    && (forall f :: 0 <= f < |s.files| && s.files[f].content.Whole? ==> s.files[f].content.m == Compile(s.files[f].entry))
    && (forall e :: e in s.entries ==> s.entries[e] < |s.files| && s.files[s.entries[e]].entry == e)
    && (forall n :: n in s.partials ==> s.partials[n] < |s.files| && s.files[s.partials[n]].entry == n.0)
  }

  /** So does a file open for it, and what a loader returned is its module. */
  ghost predicate TaskOk(s: Store, x: Task) {
    && (Opened(x.stage) ==> x.stage.file < |s.files| && s.files[x.stage.file].entry == x.entry)
    && (x.stage.Done? && x.loads ==> x.stage.result == Some(Compile(x.entry)))
  }

  ghost predicate FilesOk(d: Disk) {
    StoreOk(d.store) && forall t :: t in d.tasks ==> TaskOk(d.store, d.tasks[t])
  }

  /** Files are never lost and never change their entry. */
  ghost predicate Grows(s: Store, after: Store) {
    |after.files| >= |s.files| && forall f :: 0 <= f < |s.files| ==> after.files[f].entry == s.files[f].entry
  }

  lemma PartialOk(s: Store, x: Task, t: TaskId)
    requires StoreOk(s)
    ensures StoreOk(PartialOpened(s, x, t).0) && Grows(s, PartialOpened(s, x, t).0)
    ensures PartialOpened(s, x, t).1 < |PartialOpened(s, x, t).0.files|
    ensures PartialOpened(s, x, t).0.files[PartialOpened(s, x, t).1] == File(x.entry, Partial, t)
  {
  }

  lemma StepStore(d: Disk, step: Step)
    requires FilesOk(d) && Enabled(d, step)
    ensures StoreOk(NextStore(d, step)) && Grows(d.store, NextStore(d, step))
  {
    assert step.Finish? ==> TaskOk(d.store, d.tasks[step.t]);
    if step.OpenPartial? {
      PartialOk(d.store, d.tasks[step.t], step.t);
    }
  }

  lemma StepFiles(d: Disk, step: Step)
    requires FilesOk(d) && Enabled(d, step)
    ensures FilesOk(Apply(d, step))
  {
    StepStore(d, step);
    var after := NextStore(d, step);
    if Actor(step).Some? {
      assert step.t in d.tasks ==> TaskOk(d.store, d.tasks[step.t]);
      if step.OpenPartial? {
        PartialOk(d.store, d.tasks[step.t], step.t);
      }
      assert TaskOk(after, NextTask(d, step));
    }
    hide StoreOk, NextStore, NextStage;
    forall u | u in d.tasks && Actor(step) != Some(u)
      ensures TaskOk(after, d.tasks[u])
    {
      assert TaskOk(d.store, d.tasks[u]);
    }
  }

  lemma {:induction false} RunFiles(run: seq<Disk>, steps: seq<Step>, n: nat)
    requires IsRun(run, steps) && n < |run|
    ensures FilesOk(run[n])
    decreases n
  {
    if n > 0 {
      RunFiles(run, steps, n - 1);
      assert Steps(run, steps, n - 1);
      hide FilesOk, Apply;
      StepFiles(run[n - 1], steps[n - 1]);
    }
  }

  /**
   In every run, with crashes, spoiled files, removed files and removed locks,
   a loader that returns gives the module that `compile` gives for its entry,
   and so does any file that loads.
   */
  lemma LoadersGetTheirModule(run: seq<Disk>, steps: seq<Step>, n: nat)
    requires IsRun(run, steps) && n < |run|
    ensures forall t :: t in run[n].tasks && run[n].tasks[t].loads && run[n].tasks[t].stage.Done? ==>
              run[n].tasks[t].stage.result == Some(Compile(run[n].tasks[t].entry))
    ensures forall e :: Load(run[n].store, e).Some? ==> Load(run[n].store, e).value == Compile(e)
  {
    RunFiles(run, steps, n);
    assert forall t :: t in run[n].tasks ==> TaskOk(run[n].store, run[n].tasks[t]);
  }
}
