/** What the entry lock gives: whole artifacts and one compile, in every run that does not take a lock file away under a task. */
module ModuleCacheRuns {
  import opened Wrappers
  import opened ModuleCache

  /** It has the lock file open, with or without the lock. */
  predicate HasLockFile(stage: Stage) {
    stage.Waiting? || Inside(stage)
  }

  /** A lock file is removed only while nobody has it open. */
  ghost predicate KeepsLocks(d: Disk, step: Step) {
    step.UnlinkLock? ==> forall t :: t in d.tasks && d.tasks[t].entry == step.e ==> !HasLockFile(d.tasks[t].stage)
  }

  ghost predicate LocksKept(run: seq<Disk>, steps: seq<Step>)
    requires |run| == |steps| + 1
  {
    forall i :: 0 <= i < |steps| ==> KeepsLocks(run[i], steps[i])
  }

  // ----- one task inside each entry's lock

  ghost predicate LockOk(k: Locks, x: Task, t: TaskId) {
    && (HasLockFile(x.stage) ==> x.entry in k.names && k.names[x.entry] == x.stage.lock)
    && (Inside(x.stage) ==> x.stage.lock in k.held && k.held[x.stage.lock] == t)
  }

  ghost predicate NamesOk(k: Locks) {
    && (forall e :: e in k.names ==> k.names[e] < k.made)
    && (forall e, f :: e in k.names && f in k.names && k.names[e] == k.names[f] ==> e == f)
  }

  ghost predicate LocksOk(d: Disk) {
    NamesOk(d.locks) && forall t :: t in d.tasks ==> LockOk(d.locks, d.tasks[t], t)
  }

  lemma OneInside(d: Disk, t: TaskId, u: TaskId)
    requires LocksOk(d) && t in d.tasks && u in d.tasks
    requires Inside(d.tasks[t].stage) && Inside(d.tasks[u].stage)
    ensures d.tasks[t].entry == d.tasks[u].entry ==> t == u
  {
    assert LockOk(d.locks, d.tasks[t], t) && LockOk(d.locks, d.tasks[u], u);
  }

  lemma OtherLockOk(d: Disk, step: Step, u: TaskId)
    requires LocksOk(d) && Enabled(d, step) && KeepsLocks(d, step) && u in d.tasks && Actor(step) != Some(u)
    ensures LockOk(NextLocks(d, step), d.tasks[u], u)
  {
    hide NextStage;
    assert LockOk(d.locks, d.tasks[u], u);
  }

  lemma ActorLockOk(d: Disk, step: Step)
    requires LocksOk(d) && Enabled(d, step) && Actor(step).Some?
    ensures LockOk(NextLocks(d, step), NextTask(d, step), step.t)
  {
    assert step.t in d.tasks ==> LockOk(d.locks, d.tasks[step.t], step.t);
  }

  lemma StepLocks(d: Disk, step: Step)
    requires LocksOk(d) && Enabled(d, step) && KeepsLocks(d, step)
    ensures LocksOk(Apply(d, step))
  {
    assert NamesOk(NextLocks(d, step)) by {
      hide NextStage;
    }
    if Actor(step).Some? {
      ActorLockOk(d, step);
    }
    hide NextLocks, NextStage, NamesOk;
    forall u | u in d.tasks && Actor(step) != Some(u)
      ensures LockOk(NextLocks(d, step), d.tasks[u], u)
    {
      OtherLockOk(d, step, u);
    }
  }

  // ----- files being written

  /** Entry files and files under partial names are different files, and no two partial names share one. */
  ghost predicate NamesApart(s: Store) {
    && (forall e, n :: e in s.entries && n in s.partials ==> s.entries[e] != s.partials[n])
    && (forall m, n :: m in s.partials && n in s.partials && s.partials[m] == s.partials[n] ==> m == n)
  }

  /** A file being written is no entry's; if its task's name still stands it stands for it; and written means whole. */
  ghost predicate WriterOk(s: Store, x: Task, t: TaskId) {
    Opened(x.stage) ==>
      && x.stage.file < |s.files|
      && (forall e :: e in s.entries ==> s.entries[e] != x.stage.file)
      && ((x.entry, x.pid) in s.partials ==> s.partials[(x.entry, x.pid)] == x.stage.file)
      && (forall n :: n in s.partials && s.partials[n] == x.stage.file ==> n == (x.entry, x.pid))
      && s.files[x.stage.file].writer == t
      && (x.stage.Written? ==> s.files[x.stage.file].content.Whole?)
  }

  ghost predicate WritersOk(d: Disk) {
    NamesApart(d.store) && forall t :: t in d.tasks ==> WriterOk(d.store, d.tasks[t], t)
  }

  ghost predicate Inv(d: Disk) {
    FilesOk(d) && LocksOk(d) && WritersOk(d)
  }

  lemma StepApart(d: Disk, step: Step)
    requires FilesOk(d) && WritersOk(d) && Enabled(d, step)
    ensures NamesApart(NextStore(d, step))
  {
    assert step.Rename? ==> WriterOk(d.store, d.tasks[step.t], step.t);
  }

  lemma ActorWriterOk(d: Disk, step: Step)
    requires FilesOk(d) && WritersOk(d) && Enabled(d, step) && Actor(step).Some?
    ensures WriterOk(NextStore(d, step), NextTask(d, step), step.t)
  {
    assert step.t in d.tasks ==> WriterOk(d.store, d.tasks[step.t], step.t);
  }

  /** No process has two tasks at work on one entry. */
  ghost predicate Separate(d: Disk) {
    forall t, u ::
      (t in d.tasks && u in d.tasks && Inside(d.tasks[t].stage) && Inside(d.tasks[u].stage)
       && d.tasks[t].entry == d.tasks[u].entry && d.tasks[t].pid == d.tasks[u].pid)
      ==> t == u
  }

  lemma LocksSeparate(d: Disk)
    requires LocksOk(d)
    ensures Separate(d)
  {
    forall t, u | t in d.tasks && u in d.tasks && Inside(d.tasks[t].stage) && Inside(d.tasks[u].stage)
                  && d.tasks[t].entry == d.tasks[u].entry
      ensures t == u
    {
      OneInside(d, t, u);
    }
  }

  /** Two tasks with different names for their partial files do not meet at one. */
  lemma OtherWriterOk(d: Disk, step: Step, u: TaskId)
    requires FilesOk(d) && WritersOk(d) && Separate(d) && Enabled(d, step) && u in d.tasks && Actor(step) != Some(u)
    ensures WriterOk(NextStore(d, step), d.tasks[u], u)
  {
    assert WriterOk(d.store, d.tasks[u], u) && TaskOk(d.store, d.tasks[u]);
    if (step.OpenPartial? || step.Finish? || step.Rename?) && Opened(d.tasks[u].stage) {
      assert WriterOk(d.store, d.tasks[step.t], step.t);
      assert d.tasks[u].entry != d.tasks[step.t].entry || d.tasks[u].pid != d.tasks[step.t].pid;
    }
    hide FilesOk, WritersOk, Separate;
  }

  lemma StepWriters(d: Disk, step: Step)
    requires FilesOk(d) && WritersOk(d) && Separate(d) && Enabled(d, step)
    ensures WritersOk(Apply(d, step))
  {
    StepApart(d, step);
    if Actor(step).Some? {
      ActorWriterOk(d, step);
    }
    hide NextStore, NextStage, NamesApart, FilesOk, Separate;
    forall u | u in d.tasks && Actor(step) != Some(u)
      ensures WriterOk(NextStore(d, step), d.tasks[u], u)
    {
      OtherWriterOk(d, step, u);
    }
  }

  lemma StepKeeps(d: Disk, step: Step)
    requires Inv(d) && Enabled(d, step) && KeepsLocks(d, step)
    ensures Inv(Apply(d, step))
  {
    hide Apply, FilesOk, LocksOk, WritersOk, Separate;
    StepFiles(d, step);
    StepLocks(d, step);
    LocksSeparate(d);
    StepWriters(d, step);
  }

  lemma {:induction false} RunKeeps(run: seq<Disk>, steps: seq<Step>, n: nat)
    requires IsRun(run, steps) && LocksKept(run, steps) && n < |run|
    ensures Inv(run[n])
    decreases n
  {
    if n > 0 {
      RunKeeps(run, steps, n - 1);
      assert Steps(run, steps, n - 1) && KeepsLocks(run[n - 1], steps[n - 1]);
      hide Inv, Apply;
      StepKeeps(run[n - 1], steps[n - 1]);
    }
  }

  // ----- whole artifacts

  ghost predicate AllWhole(s: Store) {
    forall e :: e in s.entries ==> Load(s, e) == Some(Compile(e))
  }

  lemma StepWhole(d: Disk, step: Step)
    requires FilesOk(d) && WritersOk(d) && Enabled(d, step) && AllWhole(d.store) && !step.Spoil?
    ensures AllWhole(NextStore(d, step))
  {
    var after := NextStore(d, step);
    if step.OpenPartial? || step.Finish? || step.Rename? {
      assert WriterOk(d.store, d.tasks[step.t], step.t) && TaskOk(d.store, d.tasks[step.t]);
    }
    forall e | e in after.entries
      ensures Load(after, e) == Some(Compile(e))
    {
      assert e in d.store.entries ==> Load(d.store, e) == Some(Compile(e));
    }
  }

  /** In every run that leaves open lock files and artifacts alone, a reader finds no artifact or a whole one. */
  lemma {:induction false} ReadersFindWholeArtifacts(run: seq<Disk>, steps: seq<Step>, n: nat)
    requires IsRun(run, steps) && LocksKept(run, steps) && n < |run|
    requires forall i :: 0 <= i < |steps| ==> !steps[i].Spoil?
    ensures forall e :: e in run[n].store.entries ==> Load(run[n].store, e) == Some(Compile(e))
    decreases n
  {
    if n > 0 {
      ReadersFindWholeArtifacts(run, steps, n - 1);
      assert Steps(run, steps, n - 1);
      RunKeeps(run, steps, n - 1);
      hide FilesOk, WritersOk, LocksOk, NextStore;
      StepWhole(run[n - 1], steps[n - 1]);
    }
  }

  lemma {:induction false} SeparateKeeps(run: seq<Disk>, steps: seq<Step>, n: nat)
    requires IsRun(run, steps) && n < |run| && forall i :: 0 <= i < |run| ==> Separate(run[i])
    ensures FilesOk(run[n]) && WritersOk(run[n])
    decreases n
  {
    if n > 0 {
      SeparateKeeps(run, steps, n - 1);
      assert Steps(run, steps, n - 1) && Separate(run[n - 1]);
      hide FilesOk, WritersOk, Separate, Apply;
      StepFiles(run[n - 1], steps[n - 1]);
      StepWriters(run[n - 1], steps[n - 1]);
    }
  }

  /**
   In every run that leaves artifacts alone, lock files removed under their
   holders included, a reader finds no artifact or a whole one while no process
   has two tasks at work on one entry.
   */
  lemma {:induction false} SeparateTasksStoreWhole(run: seq<Disk>, steps: seq<Step>, n: nat)
    requires IsRun(run, steps) && n < |run| && forall i :: 0 <= i < |run| ==> Separate(run[i])
    requires forall i :: 0 <= i < |steps| ==> !steps[i].Spoil?
    ensures forall e :: e in run[n].store.entries ==> Load(run[n].store, e) == Some(Compile(e))
    decreases n
  {
    if n > 0 {
      SeparateTasksStoreWhole(run, steps, n - 1);
      assert Steps(run, steps, n - 1);
      SeparateKeeps(run, steps, n - 1);
      hide FilesOk, WritersOk, Separate, NextStore;
      StepWhole(run[n - 1], steps[n - 1]);
    }
  }

  // ----- one compile

  /** Some task has begun a compile or a store of the entry. */
  predicate BusyTask(d: Disk, t: TaskId, e: Entry) {
    t in d.tasks && d.tasks[t].entry == e && Busy(d.tasks[t].stage)
  }

  /** The entry is there, or on its way. */
  ghost predicate Covered(d: Disk, e: Entry) {
    Load(d.store, e).Some? || exists t :: BusyTask(d, t, e)
  }

  ghost predicate Bounded(d: Disk, e: Entry) {
    Count(d.tally.compiles, e) <= Count(d.tally.faults, e) + if Covered(d, e) then 1 else 0
  }

  /** An entry stays covered unless a fault of that entry is counted. */
  lemma CoverKept(d: Disk, step: Step, e: Entry)
    requires Inv(d) && Enabled(d, step) && Covered(d, e)
    ensures Covered(Apply(d, step), e) || Count(NextTally(d, step).faults, e) == Count(d.tally.faults, e) + 1
  {
    hide LocksOk;
    var after := Apply(d, step);
    if t :| BusyTask(d, t, e) {
      if Actor(step) == Some(t) {
        if step.Rename? && NextStage(d, step).Done? {
          assert WriterOk(d.store, d.tasks[t], t);
          assert Load(after.store, e).Some?;
        } else if !NextStage(d, step).Failed? {
          assert BusyTask(after, t, e);
        }
      } else {
        assert BusyTask(after, t, e);
      }
    } else {
      LoadKept(d, step, e);
    }
  }

  lemma LoadKept(d: Disk, step: Step, e: Entry)
    requires Inv(d) && Enabled(d, step) && Load(d.store, e).Some?
    ensures Load(NextStore(d, step), e).Some? || Count(NextTally(d, step).faults, e) == Count(d.tally.faults, e) + 1
  {
    hide LocksOk;
    if step.OpenPartial? || step.Finish? || step.Rename? {
      assert WriterOk(d.store, d.tasks[step.t], step.t);
    }
  }

  /** A compile begins only where nothing covers the entry. */
  lemma CompileUncovered(d: Disk, step: Step)
    requires Inv(d) && Enabled(d, step) && step.SecondLook? && NextStage(d, step).Compiling?
    ensures !Covered(d, d.tasks[step.t].entry)
    ensures BusyTask(Apply(d, step), step.t, d.tasks[step.t].entry)
  {
    var e := d.tasks[step.t].entry;
    forall u | u in d.tasks && BusyTask(d, u, e)
      ensures u == step.t
    {
      OneInside(d, u, step.t);
    }
  }

  lemma StepBounded(d: Disk, step: Step, e: Entry)
    requires Inv(d) && Enabled(d, step) && Bounded(d, e)
    ensures Bounded(Apply(d, step), e)
  {
    if step.SecondLook? && NextStage(d, step).Compiling? && d.tasks[step.t].entry == e {
      CompileUncovered(d, step);
    } else if Covered(d, e) {
      CoverKept(d, step, e);
    }
    hide Inv, Covered, NextStage, NextStore, NextLocks;
  }

  /**
   In every run that leaves open lock files alone, an entry is compiled at most
   once more than its artifact or a task at work on it was lost.
   */
  lemma {:induction false} CompilesAreBounded(run: seq<Disk>, steps: seq<Step>, n: nat, e: Entry)
    requires IsRun(run, steps) && LocksKept(run, steps) && n < |run|
    ensures Bounded(run[n], e)
    ensures Count(run[n].tally.compiles, e) <= 1 + Count(run[n].tally.faults, e)
    decreases n
  {
    if n > 0 {
      CompilesAreBounded(run, steps, n - 1, e);
      assert Steps(run, steps, n - 1);
      RunKeeps(run, steps, n - 1);
      hide Inv, Apply;
      StepBounded(run[n - 1], steps[n - 1], e);
    }
  }

  /** No task fails or dies with a compile or store begun, and nobody else touches the directory. */
  ghost predicate Quiet(d: Disk, step: Step) {
    && !step.Spoil? && !step.UnlinkEntry? && !step.UnlinkPartial? && !step.UnlinkLock?
    && (step.Fail? ==> step.t in d.tasks && !Busy(d.tasks[step.t].stage))
  }

  /** A task with an open file can still rename it. */
  ghost predicate Nameable(d: Disk) {
    d.tally.faults == map[] && forall t :: t in d.tasks && Opened(d.tasks[t].stage) ==>
      (d.tasks[t].entry, d.tasks[t].pid) in d.store.partials
  }

  lemma StepNameable(d: Disk, step: Step)
    requires Inv(d) && Enabled(d, step) && Nameable(d) && Quiet(d, step)
    ensures Nameable(Apply(d, step))
  {
    var after := Apply(d, step);
    forall u | u in after.tasks && Opened(after.tasks[u].stage)
      ensures (after.tasks[u].entry, after.tasks[u].pid) in after.store.partials
    {
      if step.Rename? && u != step.t {
        OneInside(d, u, step.t);
      }
    }
    hide FilesOk, LocksOk, WritersOk;
  }

  lemma {:induction false} RunNameable(run: seq<Disk>, steps: seq<Step>, n: nat)
    requires IsRun(run, steps) && LocksKept(run, steps) && n < |run|
    requires forall i :: 0 <= i < |steps| ==> Quiet(run[i], steps[i])
    ensures Nameable(run[n])
    decreases n
  {
    if n > 0 {
      RunNameable(run, steps, n - 1);
      assert Steps(run, steps, n - 1) && Quiet(run[n - 1], steps[n - 1]);
      RunKeeps(run, steps, n - 1);
      hide Inv, Apply;
      StepNameable(run[n - 1], steps[n - 1]);
    }
  }

  /** With no failure, no spoiled artifact and no cleaning, an entry is compiled at most once, whatever the interleaving. */
  lemma OneCompilePerEntry(run: seq<Disk>, steps: seq<Step>, n: nat, e: Entry)
    requires IsRun(run, steps) && n < |run|
    requires forall i :: 0 <= i < |steps| ==> Quiet(run[i], steps[i])
    ensures Count(run[n].tally.compiles, e) <= 1
  {
    forall i | 0 <= i < |steps|
      ensures KeepsLocks(run[i], steps[i])
    {
      assert Quiet(run[i], steps[i]);
    }
    RunNameable(run, steps, n);
    CompilesAreBounded(run, steps, n, e);
  }

  // ----- what cleaning under a lock costs

  /** Two savers of one process, and a lock file removed while the first holds it. */
  function CleanedSteps(e: Entry, p: Pid): seq<Step> {
    [ Arrive(0, e, p, false), OpenLock(0), TakeLock(0), SecondLook(0), OpenPartial(0), Finish(0), UnlinkLock(e),
      Arrive(1, e, p, false), OpenLock(1), TakeLock(1), SecondLook(1), OpenPartial(1), Rename(0) ]
  }

  /** The lock files and who holds them, state by state. */
  function CleanedLocks(e: Entry, i: nat): Locks {
    if i < 2 then Locks(map[], 0, map[])
    else if i == 2 then Locks(map[e := 0], 1, map[])
    else if i < 7 then Locks(map[e := 0], 1, map[0 := 0])
    else if i < 9 then Locks(map[], 1, map[0 := 0])
    else if i == 9 then Locks(map[e := 1], 2, map[0 := 0])
    else if i < 13 then Locks(map[e := 1], 2, map[0 := 0, 1 := 1])
    else Locks(map[e := 1], 2, map[1 := 1])
  }

  function CleanedStore(e: Entry, p: Pid, i: nat): Store {
    if i < 5 then Store([], map[], map[])
    else if i == 5 then Store([File(e, Partial, 0)], map[], map[(e, p) := 0])
    else if i < 12 then Store([File(e, Whole(Compile(e)), 0)], map[], map[(e, p) := 0])
    else if i == 12 then Store([File(e, Partial, 1)], map[], map[(e, p) := 0])
    else Store([File(e, Partial, 1)], map[e := 0], map[])
  }

  function CleanedTasks(e: Entry, p: Pid, i: nat): map<TaskId, Task> {
    var x := Task(e, p, false, Start);
    var first := x.(stage := if i == 1 then Start else if i == 2 then Waiting(0) else if i == 3 then Locked(0)
                             else if i == 4 then Storing(0) else if i == 5 then Writing(0, 0)
                             else if i < 13 then Written(0, 0) else Done(None));
    var second := x.(stage := if i == 8 then Start else if i == 9 then Waiting(1) else if i == 10 then Locked(1)
                              else if i == 11 then Storing(1) else Writing(1, 0));
    if i == 0 then map[] else if i < 8 then map[0 := first] else map[0 := first, 1 := second]
  }

  function CleanedDisk(e: Entry, p: Pid, i: nat): Disk {
    Disk(CleanedStore(e, p, i), CleanedLocks(e, i), CleanedTasks(e, p, i), Tally(map[], map[]))
  }

  function CleanedRun(e: Entry, p: Pid): seq<Disk> {
    seq(14, i requires 0 <= i < 14 => CleanedDisk(e, p, i))
  }

  lemma CleanedEnabled(e: Entry, p: Pid, i: nat)
    requires i < 13
    ensures Enabled(CleanedDisk(e, p, i), CleanedSteps(e, p)[i])
    ensures NextStore(CleanedDisk(e, p, i), CleanedSteps(e, p)[i]) == CleanedStore(e, p, i + 1)
  {
  }

  lemma CleanedLock(e: Entry, p: Pid, i: nat)
    requires i < 13 && Enabled(CleanedDisk(e, p, i), CleanedSteps(e, p)[i])
    ensures NextLocks(CleanedDisk(e, p, i), CleanedSteps(e, p)[i]) == CleanedLocks(e, i + 1)
  {
  }

  lemma CleanedTask(e: Entry, p: Pid, i: nat)
    requires i < 13 && Enabled(CleanedDisk(e, p, i), CleanedSteps(e, p)[i])
    ensures Apply(CleanedDisk(e, p, i), CleanedSteps(e, p)[i]).tasks == CleanedTasks(e, p, i + 1)
    ensures NextTally(CleanedDisk(e, p, i), CleanedSteps(e, p)[i]) == Tally(map[], map[])
  {
    hide NextStore, NextLocks;
  }

  lemma CleanedStep(e: Entry, p: Pid, i: nat)
    requires i < 13
    ensures Enabled(CleanedDisk(e, p, i), CleanedSteps(e, p)[i])
    ensures Apply(CleanedDisk(e, p, i), CleanedSteps(e, p)[i]) == CleanedDisk(e, p, i + 1)
  {
    hide CleanedStore, CleanedLocks, CleanedTasks, CleanedSteps, Enabled, NextStore, NextLocks, NextTask, NextTally;
    CleanedEnabled(e, p, i);
    CleanedLock(e, p, i);
    CleanedTask(e, p, i);
  }

  /** A lock file removed under its holder can put a part of an artifact in place, whatever the entry. */
  lemma CleaningUnderALock(e: Entry, p: Pid)
    ensures IsRun(CleanedRun(e, p), CleanedSteps(e, p))
    ensures !LocksKept(CleanedRun(e, p), CleanedSteps(e, p))
    ensures var s := CleanedRun(e, p)[13].store; e in s.entries && Load(s, e).None?
  {
    var run, steps := CleanedRun(e, p), CleanedSteps(e, p);
    assert !KeepsLocks(run[6], steps[6]) by {
      assert 0 in run[6].tasks;
    }
    assert run[0] == EMPTY && e in run[13].store.entries && Load(run[13].store, e).None?;
    hide KeepsLocks, CleanedDisk, CleanedSteps, Enabled, Apply, Load;
    forall i: nat | i < 13
      ensures Steps(run, steps, i)
    {
      CleanedStep(e, p, i);
    }
  }
}
