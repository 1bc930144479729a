/** The calls of one loader or saver, in the order the code makes them, with everyone else at work between any two. */
module ModuleCacheCalls {
  import opened Wrappers
  import opened ModuleCache
  import opened ModuleCacheRuns
  import opened ModuleCacheAnswers

  class CacheDirectory {
    var store: Store

    ghost predicate Valid()
      reads this
    {
      StoreOk(store) && NamesApart(store)
    }

    constructor ()
      ensures Valid() && store == Store([], map[], map[])
    {
      store := Store([], map[], map[]);
    }

    /**
     `store_entry`, under the entry lock: writes under another name, then
     renames. A store that fails leaves every entry as it was.
     */
    method StoreEntry(e: Entry, pid: Pid, t: TaskId, writes: bool, renames: bool) returns (ok: bool)
      requires Valid()
      modifies this
      ensures Valid() && (ok <==> writes && renames)
      ensures ok ==> Load(store, e) == Some(Compile(e))
      ensures forall other :: (ok ==> other != e) ==> Load(store, other) == Load(old(store), other)
      ensures store.entries.Keys == old(store).entries.Keys + if ok then {e} else {}
    {
      hide StoreOk, NamesApart, PartialOpened, Finished, Renamed, Load;
      var x := Task(e, pid, true, Start);
      PartialOk(store, x, t);
      OpenedApart(store, x, t);
      var (started, f) := PartialOpened(store, x, t);
      store := started;
      if !writes {
        return false;
      }
      FinishedApart(store, x, t, f);
      store := Finished(store, x, t, f);
      if !renames {
        return false;
      }
      RenamedApart(store, x);
      store := Renamed(store, x);
      return true;
    }
  }

  /** Opening a partial file touches no entry. */
  lemma OpenedApart(s: Store, x: Task, t: TaskId)
    requires StoreOk(s) && NamesApart(s)
    ensures var r := PartialOpened(s, x, t);
            && NamesApart(r.0) && r.0.entries == s.entries
            && (x.entry, x.pid) in r.0.partials && r.0.partials[(x.entry, x.pid)] == r.1
            && forall e :: Load(r.0, e) == Load(s, e)
  {
    OpenedNames(s, x, t);
    var r := PartialOpened(s, x, t);
    forall e
      ensures Load(r.0, e) == Load(s, e)
    {
      if e in s.entries {
        assert s.entries[e] < |s.files| && s.entries[e] != r.1;
      }
    }
  }

  lemma OpenedNames(s: Store, x: Task, t: TaskId)
    requires StoreOk(s) && NamesApart(s)
    ensures var r := PartialOpened(s, x, t);
            && NamesApart(r.0) && r.0.entries == s.entries
            && (x.entry, x.pid) in r.0.partials && r.0.partials[(x.entry, x.pid)] == r.1
  {
  }

  /** Finishing it touches no entry either. */
  lemma FinishedApart(s: Store, x: Task, t: TaskId, f: FileId)
    requires StoreOk(s) && NamesApart(s) && f < |s.files| && s.files[f] == File(x.entry, Partial, t)
    requires (x.entry, x.pid) in s.partials && s.partials[(x.entry, x.pid)] == f
    ensures var r := Finished(s, x, t, f);
            && StoreOk(r) && NamesApart(r) && r.entries == s.entries && r.partials == s.partials
            && f < |r.files| && r.files[f].content == Whole(Compile(x.entry))
            && forall e :: Load(r, e) == Load(s, e)
  {
  }

  /** Renaming a whole file puts its entry in place and touches no other. */
  lemma RenamedApart(s: Store, x: Task)
    requires StoreOk(s) && NamesApart(s) && (x.entry, x.pid) in s.partials
    requires s.files[s.partials[(x.entry, x.pid)]].content == Whole(Compile(x.entry))
    ensures var r := Renamed(s, x);
            && StoreOk(r) && NamesApart(r) && r.entries.Keys == s.entries.Keys + {x.entry}
            && Load(r, x.entry) == Some(Compile(x.entry))
            && forall e :: e != x.entry ==> Load(r, e) == Load(s, e)
  {
  }

  // ----- whole calls among everyone else's

  lemma RunsOn(states: seq<Disk>, steps: seq<Step>, step: Step)
    requires IsRun(states, steps) && Enabled(states[|states| - 1], step)
    ensures IsRun(states + [Apply(states[|states| - 1], step)], steps + [step])
  {
    var next, taken := states + [Apply(states[|states| - 1], step)], steps + [step];
    hide Enabled, Apply;
    forall i | 0 <= i < |taken|
      ensures Steps(next, taken, i)
    {
      if i < |steps| {
        assert Steps(states, steps, i);
      }
    }
  }

  /** Steps of others leave a task where it is. */
  lemma OthersLeave(d: Disk, step: Step, t: TaskId)
    requires t in d.tasks && Enabled(d, step) && Actor(step) != Some(t)
    ensures t in Apply(d, step).tasks && Apply(d, step).tasks[t] == d.tasks[t]
  {
  }

  /** How a call ends: with its answer, in an error, or not yet, behind another's lock. */
  datatype Answer = Returned(result: Option<Module>) | Erred | Blocked

  /** The steps the others take before each of the call's own. */
  datatype Gaps = Gaps(first: seq<Step>, locking: seq<Step>, waiting: seq<Step>, looking: seq<Step>, compiling: seq<Step>,
                       opening: seq<Step>, writing: seq<Step>, renaming: seq<Step>)

  /** What the environment lets through. */
  datatype Luck = Luck(locks: bool, compiles: bool, opens: bool, writes: bool, renames: bool)

  ghost predicate Lucky(luck: Luck) {
    luck.locks && luck.compiles && luck.opens && luck.writes && luck.renames
  }

  ghost predicate NobodyElse(gaps: Gaps) {
    && gaps.first == gaps.locking == gaps.waiting == gaps.looking == gaps.compiling == []
    && gaps.opening == gaps.writing == gaps.renaming == []
  }

  /** Since `from`, it met no error if it was lucky, and was alone if nobody else was to move. */
  ghost predicate Fair(steps: seq<Step>, from: nat, t: TaskId, luck: Luck, gaps: Gaps) {
    && from <= |steps|
    && (Lucky(luck) ==> forall i :: from <= i < |steps| ==> steps[i] != Fail(t))
    && (NobodyElse(gaps) ==> forall i :: from <= i < |steps| ==> Actor(steps[i]) == Some(t))
  }

  class Machine {
    var disk: Disk
    ghost var states: seq<Disk>
    ghost var steps: seq<Step>

    /** The states so far are a run from the empty cache. */
    ghost predicate Valid()
      reads this
    {
      IsRun(states, steps) && disk == states[|states| - 1]
    }

    /** A task under way at a stage. */
    ghost predicate At(t: TaskId, e: Entry, pid: Pid, loads: bool, stage: Stage)
      reads this
    {
      Valid() && t in disk.tasks && disk.tasks[t] == Task(e, pid, loads, stage)
    }

    constructor ()
      ensures Valid() && disk == EMPTY && states == [EMPTY] && steps == []
    {
      disk, states, steps := EMPTY, [EMPTY], [];
    }

    method Do(step: Step)
      requires Valid() && Enabled(disk, step)
      modifies this
      ensures Valid() && disk == Apply(old(disk), step)
      ensures states == old(states) + [disk] && steps == old(steps) + [step]
    {
      hide IsRun, Apply;
      RunsOn(states, steps, step);
      disk, states, steps := Apply(disk, step), states + [Apply(disk, step)], steps + [step];
    }

    /** A step of the call's own, and where it leads. */
    method Own(t: TaskId, step: Step, ghost from: nat, luck: Luck, gaps: Gaps)
      requires Valid() && Enabled(disk, step) && Actor(step) == Some(t) && !step.Arrive? && !disk.tasks[t].stage.Done?
      requires Fair(steps, from, t, luck, gaps) && (step == Fail(t) ==> !Lucky(luck))
      modifies this
      ensures Valid() && t in disk.tasks && old(states) <= states && Fair(steps, from, t, luck, gaps)
      ensures disk.tasks[t] == old(disk).tasks[t].(stage := NextStage(old(disk), step))
      ensures disk.tasks[t].stage.Done? ==> disk.tasks[t].entry in disk.store.entries
    {
      hide IsRun, NextStage, NextStore, NextLocks, NextTally;
      ghost var was := disk;
      Do(step);
      if disk.tasks[t].stage.Done? {
        DoneLeavesFile(was, step, t);
      }
    }

    /** What everyone else does meanwhile: of these steps, those that are not `t`'s and can be taken. */
    method Others(t: TaskId, others: seq<Step>, ghost from: nat, luck: Luck, gaps: Gaps)
      requires Valid() && t in disk.tasks && Fair(steps, from, t, luck, gaps) && (NobodyElse(gaps) ==> others == [])
      modifies this
      ensures Valid() && t in disk.tasks && disk.tasks[t] == old(disk).tasks[t]
      ensures old(states) <= states && Fair(steps, from, t, luck, gaps)
    {
      hide IsRun, Apply, Lucky, NobodyElse;
      for i := 0 to |others|
        invariant Valid() && t in disk.tasks && disk.tasks[t] == old(disk).tasks[t]
        invariant old(states) <= states && Fair(steps, from, t, luck, gaps)
      {
        if Enabled(disk, others[i]) && Actor(others[i]) != Some(t) {
          OthersLeave(disk, others[i], t);
          Do(others[i]);
        }
      }
    }

    method Come(t: TaskId, e: Entry, pid: Pid, loads: bool)
      requires Valid() && t !in disk.tasks
      modifies this
      ensures At(t, e, pid, loads, Start) && old(states) <= states
      ensures steps == old(steps) + [Arrive(t, e, pid, loads)]
    {
      hide IsRun;
      Do(Arrive(t, e, pid, loads));
    }

    /** `lock_entry`: the lock, an error, or a wait that has not ended because another has it. */
    method LockEntry(t: TaskId, e: Entry, pid: Pid, loads: bool, ghost from: nat, gaps: Gaps, luck: Luck)
      returns (got: bool, lock: LockId)
      requires At(t, e, pid, loads, if loads then Opening else Start) && Fair(steps, from, t, luck, gaps)
      modifies this
      ensures Valid() && old(states) <= states && Fair(steps, from, t, luck, gaps)
      ensures got ==> At(t, e, pid, loads, Locked(lock))
      ensures !got ==> At(t, e, pid, loads, if luck.locks then Waiting(lock) else Failed(None))
      ensures !got && luck.locks ==> lock in disk.locks.held
    {
      hide IsRun, Apply, Fair;
      got, lock := false, 0;
      Others(t, gaps.locking, from, luck, gaps);
      if !luck.locks {
        Own(t, Fail(t), from, luck, gaps);
        return;
      }
      Own(t, OpenLock(t), from, luck, gaps);
      lock := disk.tasks[t].stage.lock;
      Others(t, gaps.waiting, from, luck, gaps);
      if lock in disk.locks.held {
        return;
      }
      Own(t, TakeLock(t), from, luck, gaps);
      got := true;
    }

    /** Writes the partial file, or gives up. */
    method WritePartial(t: TaskId, e: Entry, pid: Pid, loads: bool, lock: LockId, ghost from: nat, gaps: Gaps, luck: Luck)
      returns (ok: bool)
      requires At(t, e, pid, loads, Storing(lock)) && Fair(steps, from, t, luck, gaps)
      modifies this
      ensures Valid() && old(states) <= states && Fair(steps, from, t, luck, gaps)
      ensures t in disk.tasks && disk.tasks[t] == Task(e, pid, loads, disk.tasks[t].stage)
      ensures if ok then disk.tasks[t].stage.Written? else disk.tasks[t].stage.Failed?
    {
      hide IsRun, Apply, Load, PartialOpened, NextStore, Fair;
      Others(t, gaps.opening, from, luck, gaps);
      if !luck.opens {
        Own(t, Fail(t), from, luck, gaps);
        return false;
      }
      Own(t, OpenPartial(t), from, luck, gaps);
      Others(t, gaps.writing, from, luck, gaps);
      if !luck.writes {
        Own(t, Fail(t), from, luck, gaps);
        return false;
      }
      FileThere(states, steps, t);
      Own(t, Finish(t), from, luck, gaps);
      ok := true;
    }

    /** `store_entry` with everyone else at work between its file operations. */
    method Store(t: TaskId, e: Entry, pid: Pid, loads: bool, lock: LockId, ghost from: nat, gaps: Gaps, luck: Luck)
      returns (ok: bool)
      requires At(t, e, pid, loads, Storing(lock)) && Fair(steps, from, t, luck, gaps)
      modifies this
      ensures Valid() && old(states) <= states && Fair(steps, from, t, luck, gaps)
      ensures t in disk.tasks && disk.tasks[t].entry == e && disk.tasks[t].loads == loads
      ensures ok ==> disk.tasks[t].stage == Done(if loads then Some(Compile(e)) else None) && e in disk.store.entries
      ensures !ok ==> disk.tasks[t].stage.Failed?
    {
      hide IsRun, Apply, Load, PartialOpened, NextStore, Fair;
      ok := WritePartial(t, e, pid, loads, lock, from, gaps, luck);
      if !ok {
        return;
      }
      Others(t, gaps.renaming, from, luck, gaps);
      if luck.renames {
        Own(t, Rename(t), from, luck, gaps);
      } else {
        Own(t, Fail(t), from, luck, gaps);
      }
      ok := disk.tasks[t].stage.Done?;
    }

    /**
     `load_bytes`, whatever everyone else does meanwhile. It returns the
     entry's own module, and then a file is in place. It returns when it finds
     an artifact at either look; and it returns, leaving the artifact in
     place, when nothing fails, nobody else moves and nobody has the lock.
     It waits only behind another's lock.
     */
    method LoadBytes(t: TaskId, e: Entry, pid: Pid, gaps: Gaps, luck: Luck) returns (answer: Answer)
      requires Valid() && t !in disk.tasks
      modifies this
      ensures Valid() && old(states) <= states && t in disk.tasks && disk.tasks[t].entry == e && disk.tasks[t].loads
      ensures answer == Erred <==> disk.tasks[t].stage.Failed?
      ensures answer.Returned? ==> answer.result == Some(Compile(e)) && e in disk.store.entries
      ensures answer == Blocked ==> disk.tasks[t].stage.Waiting? && disk.tasks[t].stage.lock in disk.locks.held
      ensures forall i :: |old(steps)| <= i < |steps| && Looks(steps[i], t) && Load(states[i].store, e).Some? ==>
                answer == Returned(Load(states[i].store, e))
      ensures Lucky(luck) ==> forall i :: |old(steps)| <= i < |steps| ==> steps[i] != Fail(t)
      ensures Lucky(luck) && NobodyElse(gaps) && LockFree(old(disk), e) ==>
                answer == Returned(Some(Compile(e))) && Load(disk.store, e) == Some(Compile(e))
    {
      ghost var from := |steps|;
      answer := LoadSteps(t, e, pid, gaps, luck);
      assert states[from] == old(disk) && from < |steps|;
      LoadersGetTheirModule(states, steps, |states| - 1);
      LoadSays(states, steps, from, t, e, gaps, luck);
    }

    /** The part of `load_bytes` under the lock. */
    method LoadLocked(t: TaskId, e: Entry, pid: Pid, lock: LockId, ghost from: nat, gaps: Gaps, luck: Luck)
      returns (answer: Answer)
      requires At(t, e, pid, true, Locked(lock)) && Fair(steps, from, t, luck, gaps)
      modifies this
      ensures Valid() && old(states) <= states && Fair(steps, from, t, luck, gaps)
      ensures t in disk.tasks && disk.tasks[t].entry == e && disk.tasks[t].loads
      ensures answer.Returned? ==> disk.tasks[t].stage == Done(answer.result) && e in disk.store.entries
      ensures !answer.Returned? ==> answer == Erred && disk.tasks[t].stage.Failed?
    {
      hide IsRun, Apply, PartialOpened, NextStore, Load, Fair;
      Others(t, gaps.looking, from, luck, gaps);
      var found := Load(disk.store, e);
      Own(t, SecondLook(t), from, luck, gaps);
      if found.Some? {
        return Returned(found);
      }
      Others(t, gaps.compiling, from, luck, gaps);
      if !luck.compiles {
        Own(t, Fail(t), from, luck, gaps);
        return Erred;
      }
      Own(t, Compiled(t), from, luck, gaps);
      var ok := Store(t, e, pid, true, lock, from, gaps, luck);
      answer := if ok then Returned(Some(Compile(e))) else Erred;
    }

    method LoadSteps(t: TaskId, e: Entry, pid: Pid, gaps: Gaps, luck: Luck) returns (answer: Answer)
      requires Valid() && t !in disk.tasks
      modifies this
      ensures Valid() && old(states) <= states && Fair(steps, |old(steps)|, t, luck, gaps)
      ensures t in disk.tasks && disk.tasks[t].entry == e && disk.tasks[t].loads
      ensures answer.Returned? ==> disk.tasks[t].stage == Done(answer.result) && e in disk.store.entries
      ensures answer == Erred ==> disk.tasks[t].stage.Failed?
      ensures answer == Blocked ==> disk.tasks[t].stage.Waiting? && disk.tasks[t].stage.lock in disk.locks.held
    {
      hide IsRun, Apply, PartialOpened, NextStore, Load;
      ghost var from := |steps|;
      Come(t, e, pid, true);
      hide Fair;
      Others(t, gaps.first, from, luck, gaps);
      var found := Load(disk.store, e);
      Own(t, FirstLoad(t), from, luck, gaps);
      if found.Some? {
        return Returned(found);
      }
      var got, lock := LockEntry(t, e, pid, true, from, gaps, luck);
      if got {
        answer := LoadLocked(t, e, pid, lock, from, gaps, luck);
      } else {
        answer := if luck.locks then Blocked else Erred;
      }
    }

    /**
     `save_hashed`: any file in place under the lock is left. When it returns
     a file is in place; and it returns when nothing fails, nobody else moves
     and nobody has the lock.
     */
    method SaveHashed(t: TaskId, e: Entry, pid: Pid, gaps: Gaps, luck: Luck) returns (answer: Answer)
      requires Valid() && t !in disk.tasks
      modifies this
      ensures Valid() && old(states) <= states && t in disk.tasks && disk.tasks[t].entry == e && !disk.tasks[t].loads
      ensures answer == Erred <==> disk.tasks[t].stage.Failed?
      ensures answer.Returned? ==> answer == Returned(None) && e in disk.store.entries
      ensures answer == Blocked ==> disk.tasks[t].stage.Waiting? && disk.tasks[t].stage.lock in disk.locks.held
      ensures Lucky(luck) ==> forall i :: |old(steps)| <= i < |steps| ==> steps[i] != Fail(t)
      ensures Lucky(luck) && NobodyElse(gaps) && LockFree(old(disk), e) ==> answer == Returned(None)
    {
      ghost var from := |steps|;
      answer := SaveSteps(t, e, pid, gaps, luck);
      assert states[from] == old(disk) && from < |steps|;
      if Lucky(luck) && NobodyElse(gaps) && LockFree(states[from], e) {
        AloneSucceeds(states, steps, from, |states| - 1, t, e);
      }
    }

    method SaveSteps(t: TaskId, e: Entry, pid: Pid, gaps: Gaps, luck: Luck) returns (answer: Answer)
      requires Valid() && t !in disk.tasks
      modifies this
      ensures Valid() && old(states) <= states && Fair(steps, |old(steps)|, t, luck, gaps)
      ensures t in disk.tasks && disk.tasks[t].entry == e && !disk.tasks[t].loads
      ensures answer.Returned? ==> answer == Returned(None) && disk.tasks[t].stage == Done(None) && e in disk.store.entries
      ensures answer == Erred ==> disk.tasks[t].stage.Failed?
      ensures answer == Blocked ==> disk.tasks[t].stage.Waiting? && disk.tasks[t].stage.lock in disk.locks.held
    {
      hide IsRun, Apply;
      ghost var from := |steps|;
      Come(t, e, pid, false);
      hide Fair;
      var got, lock := LockEntry(t, e, pid, false, from, gaps, luck);
      if !got {
        return if luck.locks then Blocked else Erred;
      }
      Others(t, gaps.looking, from, luck, gaps);
      var there := e in disk.store.entries;
      Own(t, SecondLook(t), from, luck, gaps);
      if there {
        return Returned(None);
      }
      var ok := Store(t, e, pid, false, lock, from, gaps, luck);
      answer := if ok then Returned(None) else Erred;
    }
  }

  /** A file being written is there. */
  lemma FileThere(states: seq<Disk>, steps: seq<Step>, t: TaskId)
    requires IsRun(states, steps)
    ensures var d := states[|states| - 1];
            t in d.tasks && d.tasks[t].stage.Writing? ==> d.tasks[t].stage.file < |d.store.files|
  {
    RunFiles(states, steps, |states| - 1);
    var d := states[|states| - 1];
    assert t in d.tasks ==> TaskOk(d.store, d.tasks[t]);
  }

  lemma LoadSays(states: seq<Disk>, steps: seq<Step>, from: nat, t: TaskId, e: Entry, gaps: Gaps, luck: Luck)
    requires IsRun(states, steps) && from < |steps| && Fair(steps, from, t, luck, gaps) && t !in states[from].tasks
    requires var d := states[|states| - 1];
             t in d.tasks && d.tasks[t].entry == e && d.tasks[t].loads
    ensures var d := states[|states| - 1];
            && (forall i :: from <= i < |steps| && Looks(steps[i], t) && Load(states[i].store, e).Some? ==>
                  d.tasks[t].stage == Done(Load(states[i].store, e)))
            && (Lucky(luck) && NobodyElse(gaps) && LockFree(states[from], e) ==>
                  && !d.tasks[t].stage.Failed?
                  && (d.tasks[t].stage.Waiting? ==> d.tasks[t].stage.lock !in d.locks.held)
                  && (d.tasks[t].stage.Done? ==> Load(d.store, e) == Some(Compile(e))))
  {
    var n := |states| - 1;
    forall i | from <= i < |steps| && Looks(steps[i], t) && Load(states[i].store, e).Some?
      ensures states[n].tasks[t].stage == Done(Load(states[i].store, e))
    {
      assert Steps(states, steps, i);
      SameTask(states, steps, i, n, t);
      HitDecides(states, steps, i, n, t);
    }
    if Lucky(luck) && NobodyElse(gaps) && LockFree(states[from], e) {
      AloneSucceeds(states, steps, from, n, t, e);
    }
  }

  /** A task stays for its entry. */
  lemma {:induction false} SameTask(states: seq<Disk>, steps: seq<Step>, i: nat, n: nat, t: TaskId)
    requires IsRun(states, steps) && i <= n < |states| && t in states[i].tasks
    ensures t in states[n].tasks
    ensures states[n].tasks[t].entry == states[i].tasks[t].entry && states[n].tasks[t].loads == states[i].tasks[t].loads
    decreases n
  {
    if i < n {
      SameTask(states, steps, i, n - 1, t);
      assert Steps(states, steps, n - 1);
      hide NextStage, NextStore, NextLocks, NextTally;
    }
  }
}
