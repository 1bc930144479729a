/** When a loader or saver of the cache must succeed, and what is in place afterwards. */
module ModuleCacheAnswers {
  import opened Wrappers
  import opened ModuleCache
  import opened ModuleCacheRuns

  // ----- one look

  /** A task looks for its entry's artifact, before the lock or under it. */
  predicate Looks(step: Step, t: TaskId) {
    step == FirstLoad(t) || step == SecondLook(t)
  }

  /** A loader that finds an artifact that loads is done, with that module, and nothing is compiled or written. */
  lemma HitReturns(d: Disk, step: Step, t: TaskId)
    requires Enabled(d, step) && Looks(step, t) && d.tasks[t].loads && Load(d.store, d.tasks[t].entry).Some?
    ensures var d' := Apply(d, step);
            && t in d'.tasks && d'.tasks[t] == d.tasks[t].(stage := Done(Load(d.store, d.tasks[t].entry)))
            && d'.store == d.store && d'.tally == d.tally
  {
    hide Load;
  }

  /** One that finds none goes on to the lock, and under the lock compiles: one compile of its entry, no other. */
  lemma MissGoesOn(d: Disk, step: Step, t: TaskId)
    requires Enabled(d, step) && Looks(step, t) && d.tasks[t].loads && Load(d.store, d.tasks[t].entry).None?
    ensures var d', e := Apply(d, step), d.tasks[t].entry;
            && t in d'.tasks && d'.store == d.store && d'.tally.faults == d.tally.faults
            && (if step.FirstLoad? then d'.tasks[t].stage == Opening && d'.tally == d.tally
                else d'.tasks[t].stage == Compiling(d.tasks[t].stage.lock)
                     && Count(d'.tally.compiles, e) == Count(d.tally.compiles, e) + 1
                     && forall f :: f != e ==> Count(d'.tally.compiles, f) == Count(d.tally.compiles, f))
  {
    hide Load;
  }

  /** A saver that finds any file in place is done and touches nothing; otherwise it stores. */
  lemma SaverLooks(d: Disk, t: TaskId)
    requires Enabled(d, SecondLook(t)) && !d.tasks[t].loads
    ensures var d' := Apply(d, SecondLook(t));
            && t in d'.tasks && d'.store == d.store && d'.tally == d.tally
            && d'.tasks[t].stage == if d.tasks[t].entry in d.store.entries then Done(None) else Storing(d.tasks[t].stage.lock)
  {
  }

  /** A task fails only by an error of its own, or because its partial file was gone when it came to rename it. */
  lemma FailsOnly(d: Disk, step: Step, t: TaskId)
    requires Enabled(d, step) && t in d.tasks && !d.tasks[t].stage.Failed?
    ensures t in Apply(d, step).tasks
    ensures Apply(d, step).tasks[t].stage.Failed? <==>
              step == Fail(t) || (step == Rename(t) && (d.tasks[t].entry, d.tasks[t].pid) !in d.store.partials)
  {
    hide Load, PartialOpened;
  }

  /** A task that is done leaves a file in place, and a loader that did not compile leaves the one it loaded. */
  lemma DoneLeavesFile(d: Disk, step: Step, t: TaskId)
    requires Enabled(d, step) && t in d.tasks && !d.tasks[t].stage.Done? && Apply(d, step).tasks[t].stage.Done?
    ensures Actor(step) == Some(t) && d.tasks[t].entry in Apply(d, step).store.entries
    ensures Looks(step, t) && d.tasks[t].loads ==>
              Load(Apply(d, step).store, d.tasks[t].entry) == Apply(d, step).tasks[t].stage.result
  {
  }

  /** A loader on the entry finds nothing under the lock. */
  ghost predicate BeginsCompile(d: Disk, step: Step, e: Entry) {
    step.SecondLook? && step.t in d.tasks && d.tasks[step.t].loads && d.tasks[step.t].entry == e && Load(d.store, e).None?
  }

  /** The entry's artifact is spoiled or removed, or a task on it that was to store it fails. */
  ghost predicate LosesWork(d: Disk, step: Step, e: Entry)
    requires Enabled(d, step)
  {
    || step == Spoil(e) || step == UnlinkEntry(e)
    || ((step.Fail? || step.Rename?) && step.t in d.tasks && d.tasks[step.t].entry == e && Busy(d.tasks[step.t].stage)
        && Apply(d, step).tasks[step.t].stage.Failed?)
  }

  /** What is counted: compiles as they begin, and work lost; each by one, and for no other entry. */
  lemma TallyExactly(d: Disk, step: Step, e: Entry)
    requires Enabled(d, step)
    ensures Count(Apply(d, step).tally.compiles, e) == Count(d.tally.compiles, e) + if BeginsCompile(d, step, e) then 1 else 0
    ensures Count(Apply(d, step).tally.faults, e) == Count(d.tally.faults, e) + if LosesWork(d, step, e) then 1 else 0
  {
    hide Load, PartialOpened;
  }

  // ----- over runs

  lemma {:induction false} DoneStays(run: seq<Disk>, steps: seq<Step>, i: nat, n: nat, t: TaskId)
    requires IsRun(run, steps) && i <= n < |run| && t in run[i].tasks && run[i].tasks[t].stage.Done?
    ensures t in run[n].tasks && run[n].tasks[t] == run[i].tasks[t]
    ensures n < |steps| ==> Actor(steps[n]) != Some(t)
    decreases n
  {
    if i < n {
      DoneStays(run, steps, i, n - 1, t);
      assert Steps(run, steps, n - 1);
    }
    assert n < |steps| ==> Steps(run, steps, n);
  }

  /** In every run, a loader that finds an artifact has that module for its answer and takes no further step. */
  lemma HitDecides(run: seq<Disk>, steps: seq<Step>, i: nat, n: nat, t: TaskId)
    requires IsRun(run, steps) && i < n < |run| && Looks(steps[i], t) && t in run[i].tasks && run[i].tasks[t].loads
    requires Load(run[i].store, run[i].tasks[t].entry).Some?
    ensures t in run[n].tasks && run[n].tasks[t].stage == Done(Load(run[i].store, run[i].tasks[t].entry))
    ensures n < |steps| ==> Actor(steps[n]) != Some(t)
  {
    assert Steps(run, steps, i);
    HitReturns(run[i], steps[i], t);
    DoneStays(run, steps, i + 1, n, t);
  }

  // ----- locks

  /** A lock that is held is that of a task inside it, and every lock in use was made. */
  ghost predicate HeldOk(d: Disk) {
    && (forall l :: l in d.locks.held ==>
          d.locks.held[l] in d.tasks && Inside(d.tasks[d.locks.held[l]].stage) && d.tasks[d.locks.held[l]].stage.lock == l)
    && (forall e :: e in d.locks.names ==> d.locks.names[e] < d.locks.made)
    && (forall t :: t in d.tasks && HasLockFile(d.tasks[t].stage) ==> d.tasks[t].stage.lock < d.locks.made)
  }

  lemma StepHeld(d: Disk, step: Step)
    requires HeldOk(d) && Enabled(d, step)
    ensures HeldOk(Apply(d, step))
  {
    hide Load, PartialOpened;
  }

  lemma {:induction false} RunHeld(run: seq<Disk>, steps: seq<Step>, n: nat)
    requires IsRun(run, steps) && n < |run|
    ensures HeldOk(run[n])
    decreases n
  {
    if n > 0 {
      RunHeld(run, steps, n - 1);
      assert Steps(run, steps, n - 1);
      hide HeldOk, Apply;
      StepHeld(run[n - 1], steps[n - 1]);
    }
  }

  // ----- a call that nobody disturbs

  /** Nobody holds the entry's lock. */
  ghost predicate LockFree(d: Disk, e: Entry) {
    e in d.locks.names ==> d.locks.names[e] !in d.locks.held
  }

  /** How far a task has got that nobody disturbed, from a cache as it was when it came. */
  ghost predicate Undisturbed(was: Store, s: Store, x: Task, t: TaskId) {
    var name := (x.entry, x.pid);
    match x.stage
    case Writing(_, f) => f < |s.files| && name in s.partials && s.partials[name] == f && s.files[f].writer == t
    case Written(_, f) =>
      f < |s.files| && name in s.partials && s.partials[name] == f && s.files[f].content == Whole(Compile(x.entry))
    case Done(r) => x.entry in s.entries && (x.loads ==> r.Some? && Load(s, x.entry) == r)
    case Failed(_) => false
    case _ => s == was
  }

  lemma StepUndisturbed(was: Store, d: Disk, step: Step, t: TaskId)
    requires StoreOk(d.store) && t in d.tasks && Undisturbed(was, d.store, d.tasks[t], t)
    requires Enabled(d, step) && Actor(step) == Some(t) && step != Fail(t)
    ensures Undisturbed(was, Apply(d, step).store, Apply(d, step).tasks[t], t)
  {
  }

  /** The steps from `from` on are all this one's, and no error. */
  ghost predicate Alone(steps: seq<Step>, from: nat, t: TaskId) {
    forall i :: from <= i < |steps| ==> Actor(steps[i]) == Some(t) && steps[i] != Fail(t)
  }

  lemma {:induction false} AloneUndisturbed(run: seq<Disk>, steps: seq<Step>, from: nat, n: nat, t: TaskId)
    requires IsRun(run, steps) && from < n < |run| && t !in run[from].tasks && Alone(steps, from, t)
    ensures t in run[n].tasks && Undisturbed(run[from].store, run[n].store, run[n].tasks[t], t)
    decreases n
  {
    assert Steps(run, steps, n - 1) && Actor(steps[n - 1]) == Some(t);
    if n == from + 1 {
      assert steps[from].Arrive?;
    } else {
      AloneUndisturbed(run, steps, from, n - 1, t);
      RunFiles(run, steps, n - 1);
      hide Undisturbed, Apply;
      StepUndisturbed(run[from].store, run[n - 1], steps[n - 1], t);
    }
  }

  /** Nobody else's lock comes or goes meanwhile. */
  lemma {:induction false} AloneLocks(run: seq<Disk>, steps: seq<Step>, from: nat, n: nat, t: TaskId)
    requires IsRun(run, steps) && from < n < |run| && t !in run[from].tasks && Alone(steps, from, t)
    ensures t in run[n].tasks
    ensures forall l :: l in run[n].locks.held && run[n].locks.held[l] != t ==> l in run[from].locks.held
    ensures (run[n].tasks[t].stage == Start || run[n].tasks[t].stage == Opening) ==>
              run[n].locks.names == run[from].locks.names && run[n].locks.made == run[from].locks.made
    ensures run[n].tasks[t].stage.Waiting? ==>
              var k, e := run[from].locks, run[n].tasks[t].entry;
              run[n].tasks[t].stage.lock == if e in k.names then k.names[e] else k.made
    decreases n
  {
    assert Steps(run, steps, n - 1) && Actor(steps[n - 1]) == Some(t);
    if n == from + 1 {
      assert steps[from].Arrive?;
    } else {
      AloneLocks(run, steps, from, n - 1, t);
      hide Load, PartialOpened, NextStore;
    }
  }

  /**
   In every run: a task that nobody disturbs, that meets no error and whose
   entry's lock is free when it comes, is never kept waiting; and once it is
   done its artifact is in place, whole if it is a loader's.
   */
  lemma AloneSucceeds(run: seq<Disk>, steps: seq<Step>, from: nat, n: nat, t: TaskId, e: Entry)
    requires IsRun(run, steps) && from < n < |run| && t !in run[from].tasks && Alone(steps, from, t)
    requires t in run[n].tasks && run[n].tasks[t].entry == e && LockFree(run[from], e)
    ensures !run[n].tasks[t].stage.Failed?
    ensures run[n].tasks[t].stage.Waiting? ==> run[n].tasks[t].stage.lock !in run[n].locks.held
    ensures run[n].tasks[t].stage.Done? ==> e in run[n].store.entries
    ensures run[n].tasks[t].stage.Done? && run[n].tasks[t].loads ==>
              run[n].tasks[t].stage == Done(Some(Compile(e))) && Load(run[n].store, e) == Some(Compile(e))
  {
    AloneUndisturbed(run, steps, from, n, t);
    AloneLocks(run, steps, from, n, t);
    RunHeld(run, steps, n);
    RunHeld(run, steps, from);
    LoadersGetTheirModule(run, steps, n);
    hide IsRun, Alone, Load;
  }
}
