/** Exactly when a reader can find part of an artifact, over all runs, locks removed under their holders included. */
module ModuleCacheExact {
  import opened Wrappers
  import opened ModuleCache
  import opened ModuleCacheRuns

  /** Whoever opened the file last is still writing it, or gave up while writing it. */
  predicate Unfinished(d: Disk, f: FileId) {
    && f < |d.store.files| && d.store.files[f].writer in d.tasks
    && var stage := d.tasks[d.store.files[f].writer].stage;
       (stage.Writing? && stage.file == f) || stage == Failed(Some(f))
  }

  /** The step gives an entry's name to a file that is not finished. */
  predicate Overtaken(d: Disk, step: Step) {
    && step.Rename? && step.t in d.tasks
    && var name := (d.tasks[step.t].entry, d.tasks[step.t].pid);
       name in d.store.partials && Unfinished(d, d.store.partials[name])
  }

  /** A file is partial exactly while it is unfinished. */
  ghost predicate PartialOnlyUnfinished(d: Disk) {
    forall f: FileId :: f < |d.store.files| ==> (d.store.files[f].content == Partial <==> Unfinished(d, f))
  }

  ghost predicate NoneSpoiled(s: Store) {
    forall f :: 0 <= f < |s.files| ==> s.files[f].content != Corrupt
  }

  ghost predicate Apart(d: Disk) {
    NamesApart(d.store) && NoneSpoiled(d.store)
  }

  lemma StepApartAlways(d: Disk, step: Step)
    requires FilesOk(d) && Apart(d) && Enabled(d, step) && !step.Spoil?
    ensures Apart(Apply(d, step))
  {
    hide TaskOk, NextLocks, NextTask, NextTally;
  }

  /** A file that the step does not touch stays as finished as it was. */
  lemma UntouchedFile(d: Disk, step: Step, f: FileId)
    requires PartialOnlyUnfinished(d) && Enabled(d, step) && f < |d.store.files| && f < |NextStore(d, step).files|
    requires NextStore(d, step).files[f] == d.store.files[f]
    requires step.Finish? ==> d.tasks[step.t].stage.file != f || d.store.files[f].writer != step.t
    ensures NextStore(d, step).files[f].content == Partial <==> Unfinished(Apply(d, step), f)
  {
    assert d.store.files[f].content == Partial <==> Unfinished(d, f);
    hide NextStore, NextLocks, NextTally;
  }

  lemma StepPartial(d: Disk, step: Step)
    requires FilesOk(d) && PartialOnlyUnfinished(d) && Enabled(d, step) && !step.Spoil?
    ensures PartialOnlyUnfinished(Apply(d, step))
  {
    var after := NextStore(d, step);
    forall f: FileId | f < |after.files|
      ensures after.files[f].content == Partial <==> Unfinished(Apply(d, step), f)
    {
      if step.OpenPartial? && f == PartialOpened(d.store, d.tasks[step.t], step.t).1 {
        PartialOk(d.store, d.tasks[step.t], step.t);
      } else if step.Finish? && f == d.tasks[step.t].stage.file && d.store.files[f].writer == step.t {
        assert after.files[f].content.Whole?;
      } else {
        UntouchedFile(d, step, f);
      }
    }
  }

  /** In every run without spoiled files. */
  lemma {:induction false} RunPartial(run: seq<Disk>, steps: seq<Step>, n: nat)
    requires IsRun(run, steps) && n < |run| && forall i :: 0 <= i < |steps| ==> !steps[i].Spoil?
    ensures FilesOk(run[n]) && Apart(run[n]) && PartialOnlyUnfinished(run[n])
    decreases n
  {
    if n > 0 {
      RunPartial(run, steps, n - 1);
      assert Steps(run, steps, n - 1);
      hide FilesOk, Apart, PartialOnlyUnfinished, Apply;
      StepFiles(run[n - 1], steps[n - 1]);
      StepApartAlways(run[n - 1], steps[n - 1]);
      StepPartial(run[n - 1], steps[n - 1]);
    }
  }

  /** One step leaves every artifact whole exactly unless it names an unfinished file. */
  lemma StepWholeExactly(d: Disk, step: Step)
    requires FilesOk(d) && Apart(d) && PartialOnlyUnfinished(d) && Enabled(d, step) && !step.Spoil? && AllWhole(d.store)
    ensures AllWhole(NextStore(d, step)) <==> !Overtaken(d, step)
  {
    if step.Rename? {
      RenameWholeExactly(d, step.t);
    } else {
      var after := NextStore(d, step);
      forall e | e in after.entries
        ensures Load(after, e) == Some(Compile(e))
      {
        assert Load(d.store, e) == Some(Compile(e));
        EntryKept(d, step, e);
      }
    }
  }

  lemma EntryKept(d: Disk, step: Step, e: Entry)
    requires FilesOk(d) && Apart(d) && Enabled(d, step) && !step.Spoil? && !step.Rename?
    requires Load(d.store, e).Some? && e in NextStore(d, step).entries
    ensures Load(NextStore(d, step), e) == Some(Compile(e))
  {
    assert step.Finish? ==> TaskOk(d.store, d.tasks[step.t]);
    hide TaskOk;
  }

  lemma RenameWholeExactly(d: Disk, t: TaskId)
    requires FilesOk(d) && Apart(d) && PartialOnlyUnfinished(d) && Enabled(d, Rename(t)) && AllWhole(d.store)
    ensures AllWhole(Renamed(d.store, d.tasks[t])) <==> !Overtaken(d, Rename(t))
  {
    var x, after := d.tasks[t], Renamed(d.store, d.tasks[t]);
    if (x.entry, x.pid) in d.store.partials {
      var f := d.store.partials[(x.entry, x.pid)];
      assert d.store.files[f].content == Partial <==> Unfinished(d, f);
      assert after.entries[x.entry] == f && after.files == d.store.files;
      if Unfinished(d, f) {
        assert Load(after, x.entry).None?;
      } else {
        forall e | e in after.entries
          ensures Load(after, e) == Some(Compile(e))
        {
          assert e != x.entry ==> Load(d.store, e) == Some(Compile(e));
        }
      }
    }
  }

  /**
   In every run that spoils no file, every reader finds no artifact or a whole
   one if and only if no rename gives an entry's name to a file that
   its last writer has not finished.
   */
  lemma WholeExactly(run: seq<Disk>, steps: seq<Step>)
    requires IsRun(run, steps) && forall i :: 0 <= i < |steps| ==> !steps[i].Spoil?
    ensures (forall n :: 0 <= n < |run| ==> AllWhole(run[n].store))
            <==> (forall i :: 0 <= i < |steps| ==> !Overtaken(run[i], steps[i]))
  {
    hide AllWhole, Overtaken;
    if forall n :: 0 <= n < |run| ==> AllWhole(run[n].store) {
      forall i: nat | i < |steps|
        ensures !Overtaken(run[i], steps[i])
      {
        NextWhole(run, steps, i);
        assert AllWhole(run[i].store) && AllWhole(run[i + 1].store);
      }
    }
    if forall i :: 0 <= i < |steps| ==> !Overtaken(run[i], steps[i]) {
      forall n: nat | n < |run|
        ensures AllWhole(run[n].store)
      {
        WholeUpTo(run, steps, n);
      }
    }
  }

  lemma NextWhole(run: seq<Disk>, steps: seq<Step>, i: nat)
    requires IsRun(run, steps) && i < |steps| && forall i :: 0 <= i < |steps| ==> !steps[i].Spoil?
    ensures AllWhole(run[i].store) ==> (AllWhole(run[i + 1].store) <==> !Overtaken(run[i], steps[i]))
  {
    RunPartial(run, steps, i);
    assert Steps(run, steps, i);
    hide FilesOk, Apart, PartialOnlyUnfinished, AllWhole, Overtaken, NextStore;
    if AllWhole(run[i].store) {
      StepWholeExactly(run[i], steps[i]);
    }
  }

  lemma {:induction false} WholeUpTo(run: seq<Disk>, steps: seq<Step>, n: nat)
    requires IsRun(run, steps) && n < |run| && forall i :: 0 <= i < |steps| ==> !steps[i].Spoil?
    requires forall i :: 0 <= i < |steps| ==> !Overtaken(run[i], steps[i])
    ensures AllWhole(run[n].store)
    decreases n
  {
    if n > 0 {
      hide Overtaken;
      WholeUpTo(run, steps, n - 1);
      NextWhole(run, steps, n - 1);
      assert !Overtaken(run[n - 1], steps[n - 1]);
    }
  }
}
