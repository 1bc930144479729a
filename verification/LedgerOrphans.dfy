/** What becomes of a clone whose template went down before the clone had armed itself. */
module LedgerOrphans {
  import opened Ledger
  import opened LedgerSteps
  import opened LedgerRuns

  ghost predicate Orphan(s: State, q: Id) {
    q in s.alive && q in s.parent && s.parent[q] !in s.alive
  }

  /** The end of `p` takes the clone's template down while the clone is not armed. */
  ghost predicate LeftBehind(s: State, p: Id, q: Id) {
    q in s.alive && q in s.parent && s.parent[q] in s.alive && q !in s.armed && Falls(s, p, s.parent[q])
  }

  // ----- what time does not change

  /** Forks, arming and serving stay on record, and no number comes back to life. */
  ghost predicate Later(s: State, s': State) {
    && s.next <= s'.next
    && s.armed <= s'.armed && s.served <= s'.served
    && (forall x :: x in s'.alive && x < s.next ==> x in s.alive)
    && (forall x :: x in s.parent ==> x in s'.parent && s'.parent[x] == s.parent[x])
    && (forall x :: x in s'.parent && x < s.next ==> x in s.parent)
  }

  lemma StepLater(s: State, ttl: nat, step: Step)
    requires Inv(s) && Enabled(s, ttl, step)
    ensures Later(s, Apply(s, ttl, step))
  {
    hide Kept, Falls, Pending, AfterFork, AfterDrain, AfterRead, Expired;
  }

  lemma {:induction false} RunLater(run: seq<State>, steps: seq<Step>, ttl: nat, j: nat, i: nat)
    requires IsRun(run, steps, ttl) && j <= i < |run|
    ensures Later(run[j], run[i])
  {
    if j < i {
      RunLater(run, steps, ttl, j, i - 1);
      RunKeeps(run, steps, ttl, i - 1);
      assert Follows(run[i - 1], run[i], ttl, steps[i - 1]);
      StepLater(run[i - 1], ttl, steps[i - 1]);
      hide Inv, Apply, Enabled, IsRun;
    }
  }

  // ----- where orphans come from

  lemma EndOrphans(s: State, p: Id, byOwner: bool, q: Id)
    requires Inv(s) && Guarded(s) && p in s.alive
    ensures Orphan(End(s, p, byOwner), q) <==> q in End(s, p, byOwner).alive && (Orphan(s, q) || LeftBehind(s, p, q))
  {
    hide Kept, Awaited;
    if q in s.parent && q in s.alive && s.parent[q] in s.alive && Falls(s, p, s.parent[q]) && Falls(s, p, q) {
      FallsAbove(s, p, s.parent[q]);
      assert q in s.armed;
    }
  }

  lemma StepOrphans(s: State, ttl: nat, step: Step, q: Id)
    requires Inv(s) && Guarded(s) && Enabled(s, ttl, step)
    ensures var s' := Apply(s, ttl, step);
            Orphan(s', q) <==> q in s'.alive && (Orphan(s, q) || (Ends(step) && LeftBehind(s, Ended(step), q)))
  {
    if Ends(step) {
      EndsByEnd(s, ttl, step);
      hide Inv, Guarded, Orphan, LeftBehind, End;
      EndOrphans(s, Ended(step), ByOwner(step), q);
    } else {
      OtherwiseOrphans(s, ttl, step, q);
    }
  }

  lemma OtherwiseOrphans(s: State, ttl: nat, step: Step, q: Id)
    requires Inv(s) && Enabled(s, ttl, step) && !Ends(step)
    ensures Orphan(Apply(s, ttl, step), q) <==> q in Apply(s, ttl, step).alive && Orphan(s, q)
  {
    hide Shaped, Balanced, Expired, AfterFork, AfterDrain, AfterRead, Pending;
    var s' := Apply(s, ttl, step);
    if step.HostForks? {
      assert Kept(s, step.t);
    } else {
      assert s'.parent == s.parent && s.alive <= s'.alive <= s.alive + {s.next};
    }
  }

  /** In every run, a live clone is an orphan exactly when some step left it behind. */
  lemma {:induction false} OrphansExactly(run: seq<State>, steps: seq<Step>, ttl: nat, i: nat, q: Id)
    requires IsRun(run, steps, ttl) && i < |run| && q in run[i].alive
    ensures Orphan(run[i], q) <==> exists j :: 0 <= j < i && Ends(steps[j]) && LeftBehind(run[j], Ended(steps[j]), q)
  {
    if i > 0 {
      RunGuards(run, steps, ttl, i - 1);
      assert Follows(run[i - 1], run[i], ttl, steps[i - 1]);
      StepOrphans(run[i - 1], ttl, steps[i - 1], q);
      if q in run[i - 1].alive {
        OrphansExactly(run, steps, ttl, i - 1, q);
      } else {
        forall j | 0 <= j < i ensures q !in run[j].alive {
          NotYetAlive(run, steps, ttl, j, i, q);
        }
      }
      hide Inv, Guarded, Apply, Enabled;
    }
  }

  lemma NotYetAlive(run: seq<State>, steps: seq<Step>, ttl: nat, j: nat, i: nat, q: Id)
    requires IsRun(run, steps, ttl) && j < i < |run| && q in run[i].alive && q !in run[i - 1].alive
    ensures q !in run[j].alive
  {
    hide IsRun;
    RunLater(run, steps, ttl, i - 1, i);
    RunLater(run, steps, ttl, j, i - 1);
    RunKeeps(run, steps, ttl, j);
  }

  // ----- what the run must have done

  lemma {:induction false} WasArmed(run: seq<State>, steps: seq<Step>, ttl: nat, i: nat, q: Id) returns (k: nat)
    requires IsRun(run, steps, ttl) && i < |run| && q in run[i].armed
    ensures k < i && steps[k] == Arm(q) && q in run[k].parent && run[k].parent[q] in run[k].alive
  {
    assert Follows(run[i - 1], run[i], ttl, steps[i - 1]);
    hide End, AfterFork, AfterDrain, AfterRead, Expired, Pending;
    if q in run[i - 1].armed {
      k := WasArmed(run, steps, ttl, i - 1, q);
    } else {
      k := i - 1;
    }
  }

  lemma {:induction false} WasFrozen(run: seq<State>, steps: seq<Step>, ttl: nat, i: nat, t: Id) returns (m: nat)
    requires IsRun(run, steps, ttl) && i < |run| && t in run[i].templates
    ensures m < i && steps[m] == Freeze(t)
  {
    assert Follows(run[i - 1], run[i], ttl, steps[i - 1]);
    hide Falls, AfterFork, AfterDrain, AfterRead, Expired, Pending;
    if t in run[i - 1].templates {
      m := WasFrozen(run, steps, ttl, i - 1, t);
    } else {
      m := i - 1;
    }
  }

  lemma {:induction false} ParentWasFrozen(run: seq<State>, steps: seq<Step>, ttl: nat, i: nat, q: Id) returns (m: nat)
    requires IsRun(run, steps, ttl) && i < |run| && q in run[i].parent
    ensures m < i && steps[m] == Freeze(run[i].parent[q])
  {
    assert Follows(run[i - 1], run[i], ttl, steps[i - 1]);
    hide End, AfterFork, AfterDrain, AfterRead, Expired, Pending;
    if steps[i - 1].HostForks? && q == run[i - 1].next {
      m := WasFrozen(run, steps, ttl, i - 1, steps[i - 1].t);
    } else {
      m := ParentWasFrozen(run, steps, ttl, i - 1, q);
    }
  }

  /** An orphan that is a template was an orphan when it was frozen. */
  lemma FrozenAsOrphan(run: seq<State>, steps: seq<Step>, ttl: nat, m: nat, i: nat, x: Id)
    requires IsRun(run, steps, ttl) && m < i < |run| && steps[m] == Freeze(x) && Orphan(run[i], x)
    ensures Orphan(run[m], x)
  {
    RunGuards(run, steps, ttl, m);
    RunGuards(run, steps, ttl, i);
    RunLater(run, steps, ttl, m, i);
    assert Follows(run[m], run[m + 1], ttl, steps[m]);
    assert x in run[m].alive && x < run[m].next && x in run[m].served;
  }

  // ----- ancestors

  lemma {:induction false} DescendsFurther(parent: map<Id, Id>, q: Id, p: Id)
    requires Descends(parent, q, p) && p in parent && forall x :: x in parent ==> parent[x] < x
    ensures Descends(parent, q, parent[p])
    decreases q
  {
    if parent[q] != p {
      DescendsFurther(parent, parent[q], p);
    }
  }

  /** What a clone descends from was settled when it was forked. */
  lemma {:induction false} DescendedThen(s: State, s': State, q: Id, x: Id)
    requires Inv(s) && Later(s, s') && q in s.parent && Descends(s'.parent, q, x)
    ensures Descends(s.parent, q, x)
    decreases q
  {
    if s.parent[q] != x {
      DescendedThen(s, s', s.parent[q], x);
    }
  }

  lemma {:induction false} AncestorWasFrozen(run: seq<State>, steps: seq<Step>, ttl: nat, i: nat, q: Id, x: Id)
    returns (m: nat)
    requires IsRun(run, steps, ttl) && i < |run| && Descends(run[i].parent, q, x)
    ensures m < i && steps[m] == Freeze(x)
    decreases q
  {
    if run[i].parent[q] == x {
      m := ParentWasFrozen(run, steps, ttl, i, q);
    } else {
      m := AncestorWasFrozen(run, steps, ttl, i, run[i].parent[q], x);
    }
  }

  /** Between a live process and a dead ancestor there is an orphan. */
  lemma {:induction false} FindOrphan(s: State, q: Id, a: Id) returns (x: Id)
    requires Inv(s) && q in s.alive && a !in s.alive && Descends(s.parent, q, a)
    ensures Orphan(s, x) && (x == q || (x in s.templates && Descends(s.parent, q, x)))
    decreases q
  {
    if s.parent[q] !in s.alive {
      x := q;
    } else {
      x := FindOrphan(s, s.parent[q], a);
    }
  }

  // ----- orphans that are frozen

  /** Step `j` left the clone behind and step `m` froze it. */
  ghost predicate FrozenLate(run: seq<State>, steps: seq<Step>, j: nat, m: nat, p: Id)
    requires |run| == |steps| + 1
  {
    && j < m < |steps|
    && Ends(steps[j]) && LeftBehind(run[j], Ended(steps[j]), p)
    && steps[m] == Freeze(p)
  }

  /** Every template has all its ancestors alive. */
  ghost predicate TemplatesRooted(s: State) {
    forall t, a :: t in s.templates && Descends(s.parent, t, a) ==> a in s.alive
  }

  lemma FindFrozenLate(run: seq<State>, steps: seq<Step>, ttl: nat, m: nat, i: nat, x: Id) returns (j: nat)
    requires IsRun(run, steps, ttl) && m < i < |run| && steps[m] == Freeze(x) && Orphan(run[i], x)
    ensures FrozenLate(run, steps, j, m, x)
  {
    FrozenAsOrphan(run, steps, ttl, m, i, x);
    OrphansExactly(run, steps, ttl, m, x);
    j :| 0 <= j < m && Ends(steps[j]) && LeftBehind(run[j], Ended(steps[j]), x);
  }

  /** A process left behind never has its parent again. */
  lemma LeftForGood(run: seq<State>, steps: seq<Step>, ttl: nat, j: nat, i: nat, p: Id)
    requires IsRun(run, steps, ttl) && j < i < |run| && Ends(steps[j]) && LeftBehind(run[j], Ended(steps[j]), p)
    ensures p in run[i].parent && run[i].parent[p] == run[j].parent[p] < p && run[i].parent[p] !in run[i].alive
  {
    RunKeeps(run, steps, ttl, j);
    assert Follows(run[j], run[j + 1], ttl, steps[j]);
    EndsByEnd(run[j], ttl, steps[j]);
    RunLater(run, steps, ttl, j, j + 1);
    RunLater(run, steps, ttl, j + 1, i);
    var u := run[j].parent[p];
    assert u !in run[j + 1].alive && u < run[j].next;
    hide Falls, Inv;
  }

  /**
   Exactly when: no template of a run ever lacks a live ancestor if and only if
   no clone left behind by the end of its template was frozen afterwards.
   */
  lemma TemplatesRootedExactly(run: seq<State>, steps: seq<Step>, ttl: nat)
    requires IsRun(run, steps, ttl)
    ensures (forall i :: 0 <= i < |run| ==> TemplatesRooted(run[i])) <==> !(exists j, m, p :: FrozenLate(run, steps, j, m, p))
  {
    if j, m, p :| FrozenLate(run, steps, j, m, p) {
      FrozenLateShows(run, steps, ttl, j, m, p);
    }
    if i :| 0 <= i < |run| && !TemplatesRooted(run[i]) {
      var t, a :| t in run[i].templates && Descends(run[i].parent, t, a) && a !in run[i].alive;
      var j, m, p := FindWhoWasFrozen(run, steps, ttl, i, t, a);
    }
  }

  lemma FrozenLateShows(run: seq<State>, steps: seq<Step>, ttl: nat, j: nat, m: nat, p: Id)
    requires IsRun(run, steps, ttl) && FrozenLate(run, steps, j, m, p)
    ensures !TemplatesRooted(run[m + 1])
  {
    LeftForGood(run, steps, ttl, j, m + 1, p);
    assert Follows(run[m], run[m + 1], ttl, steps[m]);
    assert p in run[m + 1].templates && Descends(run[m + 1].parent, p, run[m + 1].parent[p]);
  }

  lemma FindWhoWasFrozen(run: seq<State>, steps: seq<Step>, ttl: nat, i: nat, t: Id, a: Id) returns (j: nat, m: nat, p: Id)
    requires IsRun(run, steps, ttl) && i < |run|
    requires t in run[i].templates && Descends(run[i].parent, t, a) && a !in run[i].alive
    ensures FrozenLate(run, steps, j, m, p)
  {
    RunKeeps(run, steps, ttl, i);
    assert Kept(run[i], t);
    p := FindOrphan(run[i], t, a);
    m := WasFrozen(run, steps, ttl, i, p);
    j := FindFrozenLate(run, steps, ttl, m, i, p);
  }

  // ----- clones of orphans

  /** Every live clone that armed in time has all its ancestors alive. */
  ghost predicate ArmedRooted(s: State) {
    forall q, a :: q in s.alive && q in s.armed && Descends(s.parent, q, a) ==> a in s.alive
  }

  /** A clone left behind was frozen, and step `k` is the arming, in time, of a clone below it. */
  ghost predicate ForkedLate(run: seq<State>, steps: seq<Step>, j: nat, m: nat, k: nat, p: Id, q: Id)
    requires |run| == |steps| + 1
  {
    && FrozenLate(run, steps, j, m, p) && m < k < |steps|
    && steps[k] == Arm(q) && q in run[k].parent && run[k].parent[q] in run[k].alive
    && Descends(run[k].parent, q, p)
  }

  /**
   Exactly when: in every state of a run each live clone that armed in time has
   all its ancestors alive, if and only if no clone left behind by the end of
   its template was frozen and had a clone below it arm.
   */
  lemma ArmedRootedExactly(run: seq<State>, steps: seq<Step>, ttl: nat)
    requires IsRun(run, steps, ttl)
    ensures (forall i :: 0 <= i < |run| ==> ArmedRooted(run[i]))
            <==> !(exists j, m, k, p, q :: ForkedLate(run, steps, j, m, k, p, q))
  {
    if j, m, k, p, q :| ForkedLate(run, steps, j, m, k, p, q) {
      ForkedLateShows(run, steps, ttl, j, m, k, p, q);
    }
    if i :| 0 <= i < |run| && !ArmedRooted(run[i]) {
      var q, a :| q in run[i].alive && q in run[i].armed && Descends(run[i].parent, q, a) && a !in run[i].alive;
      var j, m, k, p := FindWhoForked(run, steps, ttl, i, q, a);
    }
  }

  lemma ForkedLateShows(run: seq<State>, steps: seq<Step>, ttl: nat, j: nat, m: nat, k: nat, p: Id, q: Id)
    requires IsRun(run, steps, ttl) && ForkedLate(run, steps, j, m, k, p, q)
    ensures !ArmedRooted(run[k + 1])
  {
    LeftForGood(run, steps, ttl, j, k + 1, p);
    LeftForGood(run, steps, ttl, j, k, p);
    assert Follows(run[k], run[k + 1], ttl, steps[k]);
    RunKeeps(run, steps, ttl, k);
    DescendsFurther(run[k].parent, q, p);
  }

  lemma FindWhoForked(run: seq<State>, steps: seq<Step>, ttl: nat, i: nat, q: Id, a: Id)
    returns (j: nat, m: nat, k: nat, p: Id)
    requires IsRun(run, steps, ttl) && i < |run|
    requires q in run[i].alive && q in run[i].armed && Descends(run[i].parent, q, a) && a !in run[i].alive
    ensures ForkedLate(run, steps, j, m, k, p, q)
  {
    RunGuards(run, steps, ttl, i);
    p := FindOrphan(run[i], q, a);
    k := WasArmed(run, steps, ttl, i, q);
    RunKeeps(run, steps, ttl, k);
    RunLater(run, steps, ttl, k, i);
    DescendedThen(run[k], run[i], q, p);
    m := AncestorWasFrozen(run, steps, ttl, k, q, p);
    j := FindFrozenLate(run, steps, ttl, m, i, p);
  }

  // ----- orphans that serve

  /** What can follow a state. */
  ghost predicate Continues(s: State, run: seq<State>, steps: seq<Step>, ttl: nat) {
    && |run| == |steps| + 1 && run[0] == s
    && (forall i :: 0 <= i < |steps| ==> Follows(run[i], run[i + 1], ttl, steps[i]))
  }

  /** The clone can come to be handed out alive. */
  ghost predicate CanServe(s: State, ttl: nat, q: Id) {
    exists run: seq<State>, steps: seq<Step> :: Continues(s, run, steps, ttl) && q in run[|steps|].alive && q in run[|steps|].served
  }

  /** An owner, its host gone, has the answer that names the clone. */
  ghost predicate Heeded(s: State, q: Id)
    requires q in s.parent
  {
    s.parent[q] in s.bereft && Pending(s.bereft[s.parent[q]], q)
  }

  ghost predicate Unheeded(s: State, q: Id) {
    && Inv(s) && Guarded(s)
    && q in s.parent && s.parent[q] !in s.alive && q !in s.served && !Heeded(s, q)
  }

  /** Nobody comes to listen for a clone that nobody listens for. */
  lemma StepUnheeded(s: State, ttl: nat, step: Step, q: Id)
    requires Unheeded(s, q) && Enabled(s, ttl, step)
    ensures Unheeded(Apply(s, ttl, step), q)
  {
    StepKeeps(s, ttl, step);
    StepGuards(s, ttl, step);
    StepLater(s, ttl, step);
    var u := s.parent[q];
    assert u !in s.templates by { assert u in s.templates ==> Kept(s, u); }
    assert u < s.next;
    ServedOnlyHeard(s, ttl, step, q);
    BereftOnlyTemplates(s, ttl, step, u);
    hide Inv, Guarded, Apply, Enabled, Pending;
  }

  lemma ServedOnlyHeard(s: State, ttl: nat, step: Step, q: Id)
    requires Guarded(s) && Enabled(s, ttl, step) && q !in s.served && q in s.parent && s.parent[q] !in s.templates
    requires !Heeded(s, q)
    ensures q !in Apply(s, ttl, step).served
  {
    hide ArmedOk, Falls, AfterFork, AfterDrain, AfterRead;
    if step.Announced? {
      assert Awaited(s, step.t, q);
    } else if step.HeardLate? {
      assert Awaited(s, step.t, q);
    }
  }

  lemma BereftOnlyTemplates(s: State, ttl: nat, step: Step, u: Id)
    requires Enabled(s, ttl, step) && u !in s.templates
    ensures var s' := Apply(s, ttl, step);
            u in s'.bereft ==> u in s.bereft && s'.bereft[u] == s.bereft[u]
  {
    hide Falls, AfterFork, AfterDrain, AfterRead, Pending;
  }

  lemma {:induction false} StaysUnheeded(s: State, run: seq<State>, steps: seq<Step>, ttl: nat, i: nat, q: Id)
    requires Continues(s, run, steps, ttl) && i < |run| && Unheeded(s, q)
    ensures Unheeded(run[i], q)
  {
    if i > 0 {
      StaysUnheeded(s, run, steps, ttl, i - 1, q);
      assert Follows(run[i - 1], run[i], ttl, steps[i - 1]);
      StepUnheeded(run[i - 1], ttl, steps[i - 1], q);
    }
  }

  /** An owner that listens can hear the clone, once it has come past its call to the kernel. */
  lemma HeededServes(s: State, ttl: nat, q: Id)
    requires Orphan(s, q) && Heeded(s, q)
    ensures CanServe(s, ttl, q)
  {
    var u := s.parent[q];
    if Rebuilt(s, q) {
      var run, steps := [s, Apply(s, ttl, HeardLate(u, q))], [HeardLate(u, q)];
      assert Continues(s, run, steps, ttl);
      assert q in run[1].served;
    } else {
      var s1 := Apply(s, ttl, Arm(q));
      var run, steps := [s, s1, Apply(s1, ttl, HeardLate(u, q))], [Arm(q), HeardLate(u, q)];
      assert Follows(run[0], run[1], ttl, steps[0]) && Follows(run[1], run[2], ttl, steps[1]);
      assert Continues(s, run, steps, ttl);
      assert q in run[2].served;
    }
  }

  /**
   Exactly when, in every run: an orphan serves, or can come to serve, if and
   only if it was handed out already or an owner that has not found out about
   its host has the answer that names the clone.
   */
  lemma OrphanServesExactly(run: seq<State>, steps: seq<Step>, ttl: nat, i: nat, q: Id)
    requires IsRun(run, steps, ttl) && i < |run| && Orphan(run[i], q)
    ensures CanServe(run[i], ttl, q) <==> q in run[i].served || Heeded(run[i], q)
  {
    RunGuards(run, steps, ttl, i);
    var s := run[i];
    hide Inv, Guarded, IsRun;
    if q in s.served {
      assert Continues(s, [s], [], ttl);
      assert q in [s][0].alive;
    } else if Heeded(s, q) {
      HeededServes(s, ttl, q);
    } else if CanServe(s, ttl, q) {
      var r: seq<State>, t: seq<Step> :| Continues(s, r, t, ttl) && q in r[|t|].alive && q in r[|t|].served;
      StaysUnheeded(s, r, t, ttl, |t|, q);
    }
  }

  /** A template that goes down leaves its owner, as it was, unless that is who ended it. */
  lemma OwnerOutlives(s: State, p: Id, byOwner: bool, u: Id, q: Id)
    requires u in s.templates && u !in s.bereft && Falls(s, p, u)
    ensures var s' := End(s, p, byOwner);
            u in s'.bereft && Pending(s'.bereft[u], q) <==> Pending(s.templates[u], q) && !(byOwner && u == p)
  {
    hide Pending, Falls;
  }

  /** Who is left behind lives on. */
  lemma LeftAlive(s: State, p: Id, byOwner: bool, q: Id)
    requires Inv(s) && Guarded(s) && LeftBehind(s, p, q)
    ensures var u := s.parent[q];
            && Orphan(End(s, p, byOwner), q) && q !in s.served && u in s.templates && u !in s.bereft
  {
    hide Kept, Awaited;
    FallsAbove(s, p, s.parent[q]);
    assert !Falls(s, p, q);
  }

  /** Its template's owner has the answer, unless the template went down before it sent it. */
  lemma AnsweredOrMade(s: State, q: Id)
    requires Inv(s) && Guarded(s) && q in s.alive && q in s.parent && q !in s.armed && s.parent[q] in s.templates
    ensures Pending(s.templates[s.parent[q]], q) <==> s.templates[s.parent[q]].request != Made(q)
  {
    var u := s.parent[q];
    assert Kept(s, u) && q in s.templates[u].live && Awaited(s, u, q);
    if s.templates[u].request == Made(q) {
      RequestMeansForking(s.templates[u]);
    }
  }

  /** An owner that ends its template otherwise than by a failed fork waits for no clone. */
  lemma OwnerWaitsForNone(s: State, ttl: nat, step: Step, q: Id)
    requires Inv(s) && Enabled(s, ttl, step) && (step.Expire? || step.Disconnect?)
    ensures !Pending(s.templates[step.t], q)
  {
    assert Kept(s, step.t);
  }

  /**
   And told from the step that leaves it behind: the orphan can come to serve
   if and only if its template had answered and did not end because its own
   owner's fork failed.
   */
  lemma LeftToServeExactly(run: seq<State>, steps: seq<Step>, ttl: nat, j: nat, q: Id)
    requires IsRun(run, steps, ttl) && j < |steps| && Ends(steps[j]) && LeftBehind(run[j], Ended(steps[j]), q)
    ensures var u := run[j].parent[q];
            && u in run[j].templates
            && (CanServe(run[j + 1], ttl, q) <==> run[j].templates[u].request != Made(q) && steps[j] != ForkFails(u))
  {
    var s, step := run[j], steps[j];
    RunGuards(run, steps, ttl, j);
    assert Follows(s, run[j + 1], ttl, step);
    EndsByEnd(s, ttl, step);
    LeftAlive(s, Ended(step), ByOwner(step), q);
    OwnerOutlives(s, Ended(step), ByOwner(step), s.parent[q], q);
    AnsweredOrMade(s, q);
    if step.Expire? || step.Disconnect? {
      OwnerWaitsForNone(s, ttl, step, q);
    }
    hide Inv, Guarded, Apply, Enabled, Pending, End, CanServe;
    OrphanServesExactly(run, steps, ttl, j + 1, q);
  }
}
