/** What the ledger guarantees over whole runs: quiet before expiry, and no orphans. */
module LedgerRuns {
  import opened Ledger
  import opened LedgerSteps

  /** A run of the system: its states and the steps between them. */
  ghost predicate IsRun(run: seq<State>, steps: seq<Step>, ttl: nat) {
    && |run| == |steps| + 1
    && Initial(run[0])
    && (forall i :: 0 <= i < |steps| ==> Follows(run[i], run[i + 1], ttl, steps[i]))
  }

  ghost predicate Follows(s: State, s': State, ttl: nat, step: Step) {
    Enabled(s, ttl, step) && s' == Apply(s, ttl, step)
  }

  lemma {:induction false} RunKeeps(run: seq<State>, steps: seq<Step>, ttl: nat, i: nat)
    requires IsRun(run, steps, ttl) && i < |run|
    ensures Inv(run[i])
  {
    if i > 0 {
      RunKeeps(run, steps, ttl, i - 1);
      assert Follows(run[i - 1], run[i], ttl, steps[i - 1]);
      StepKeeps(run[i - 1], ttl, steps[i - 1]);
    }
  }

  /**
   In every reachable state, forks counted plus a fork made but not yet
   counted are clones alive, clones unreaped, exits in the channel and exits
   read but not yet subtracted.
   */
  lemma LedgerBalances(run: seq<State>, steps: seq<Step>, ttl: nat, i: nat, t: Id)
    requires IsRun(run, steps, ttl) && i < |run| && t in run[i].templates
    ensures var x := run[i].templates[t];
            && x.children + Uncounted(x) == |x.live| + |x.zombies| + Exits(x.inbox) + |x.events| + Drained(x)
            && x.live == set q | q in run[i].alive && q in run[i].parent && run[i].parent[q] == t
  {
    RunKeeps(run, steps, ttl, i);
    assert Kept(run[i], t);
  }

  /** No subtraction in a run saturates, and a served fork leaves a count of at least one. */
  lemma NeverSaturates(run: seq<State>, steps: seq<Step>, ttl: nat, i: nat, t: Id)
    requires IsRun(run, steps, ttl) && i < |steps| && t in run[i].templates
    ensures steps[i] == Announced(t) ==>
              run[i + 1].templates[t].children == run[i].templates[t].children + 1 - |run[i].templates[t].events| >= 1
    ensures steps[i] == DrainEnd(t) ==>
              run[i + 1].templates[t].children == run[i].templates[t].children - Drained(run[i].templates[t]) >= 0
  {
    RunKeeps(run, steps, ttl, i);
    assert Kept(run[i], t);
    assert Follows(run[i], run[i + 1], ttl, steps[i]);
    if steps[i] == Announced(t) {
      CountAfterFork(run[i].templates[t], run[i].now);
    } else if steps[i] == DrainEnd(t) {
      CountAfterDrain(run[i].templates[t], run[i].now);
    }
  }

  // ----- quiet before expiry

  lemma {:induction false} TimeGoesOn(run: seq<State>, steps: seq<Step>, ttl: nat, i: nat, j: nat)
    requires IsRun(run, steps, ttl) && i <= j < |run|
    ensures run[i].now <= run[j].now
  {
    if i < j {
      TimeGoesOn(run, steps, ttl, i, j - 1);
      assert Follows(run[j - 1], run[j], ttl, steps[j - 1]);
    }
  }

  /** No fork is counted and none is waiting to be. */
  ghost predicate Settled(x: Template) {
    x.children == 0 && Uncounted(x) == 0
  }

  lemma SettledIsEmpty(x: Template)
    requires Sound(x) && Settled(x)
    ensures x.live == {} && x.zombies == {}
  {
  }

  /** Up to state `i`, template `t` had a live child no later than time `since`. */
  ghost predicate QuietSince(run: seq<State>, i: nat, t: Id, since: nat)
    requires i < |run|
  {
    forall j :: 0 <= j <= i && t in run[j].templates && run[j].templates[t].live != {} ==> run[j].now <= since
  }

  /** An owner that resets its idle time does so now; one that settles otherwise already was. */
  lemma SettlesByDraining(s: State, ttl: nat, step: Step, t: Id)
    requires Inv(s) && Enabled(s, ttl, step) && t in Apply(s, ttl, step).templates
    requires Settled(Apply(s, ttl, step).templates[t])
    ensures var y := Apply(s, ttl, step).templates[t];
            || y.idleSince == Apply(s, ttl, step).now
            || (t in s.templates && Settled(s.templates[t]) && y.idleSince == s.templates[t].idleSince)
  {
    var s' := Apply(s, ttl, step);
    var y := s'.templates[t];
    if t !in s.templates || s.templates[t] == y {
    } else {
      assert Kept(s, t);
      OnlyOwnSteps(s, ttl, step, t);
      SettlesOwn(s, ttl, step, t);
    }
  }

  predicate OwnStep(step: Step, t: Id) {
    || (OwnerStep(step) && step.t == t)
    || step == HostForks(t)
    || Ends(step)
  }

  lemma OnlyOwnSteps(s: State, ttl: nat, step: Step, t: Id)
    requires Inv(s) && Enabled(s, ttl, step) && t in s.templates && t in Apply(s, ttl, step).templates
    requires Apply(s, ttl, step).templates[t] != s.templates[t]
    ensures OwnStep(step, t)
  {
    hide Inv, Falls, AfterFork, AfterDrain, AfterRead, Pending;
  }

  /** The owner brings its account up to date. */
  lemma SettlesByCounting(s: State, ttl: nat, step: Step, t: Id)
    requires Enabled(s, ttl, step) && (step == Announced(t) || step == DrainEnd(t))
    requires t in s.templates && t in Apply(s, ttl, step).templates && Kept(s, t)
    requires Settled(Apply(s, ttl, step).templates[t])
    ensures var y := Apply(s, ttl, step).templates[t];
            || y.idleSince == s.now
            || (Settled(s.templates[t]) && y.idleSince == s.templates[t].idleSince)
  {
    var x := s.templates[t];
    if step.Announced? {
      CountAfterFork(x, s.now);
    } else {
      CountAfterDrain(x, s.now);
      NoForked(x);
    }
  }

  /** A process that ends changes nobody's count or idle time. */
  lemma SettlesByLeaving(s: State, p: Id, byOwner: bool, t: Id)
    requires t in s.templates && t in End(s, p, byOwner).templates
    ensures Settled(End(s, p, byOwner).templates[t]) <==> Settled(s.templates[t])
    ensures End(s, p, byOwner).templates[t].idleSince == s.templates[t].idleSince
  {
    hide Falls;
  }

  /** Messages that come and go leave the count and the idle time alone, and settle nothing. */
  lemma SettlesByTalking(s: State, ttl: nat, step: Step, t: Id)
    requires Enabled(s, ttl, step) && t in s.templates && Sound(s.templates[t])
    requires step == HostForks(t) || (OwnerStep(step) && step.t == t && !step.Announced? && !step.DrainEnd?)
    requires Settled(Apply(s, ttl, step).templates[t])
    ensures Settled(s.templates[t]) && Apply(s, ttl, step).templates[t].idleSince == s.templates[t].idleSince
  {
    hide Balanced;
    var x := s.templates[t];
    if step.HostAnswers? {
      ForkedInPush(x.inbox, Forked(x.request.clone));
    } else if step.HostRefuses? {
      RequestMeansForking(x);
      NoForked(x);
    } else if step.ReadReply? {
      ForkedInPop(x.inbox);
    } else if step.Reap? {
      ForkedInPush(x.inbox, ChildExited(step.z));
    } else if step.DrainOne? {
      NoForked(x);
    }
  }

  lemma SettlesOwn(s: State, ttl: nat, step: Step, t: Id)
    requires Inv(s) && Enabled(s, ttl, step) && OwnStep(step, t)
    requires t in s.templates && t in Apply(s, ttl, step).templates && Kept(s, t)
    requires Settled(Apply(s, ttl, step).templates[t])
    ensures var y := Apply(s, ttl, step).templates[t];
            || y.idleSince == s.now
            || (Settled(s.templates[t]) && y.idleSince == s.templates[t].idleSince)
  {
    hide Inv, Shaped, Balanced, Falls, Survivor, Settled, AfterFork, AfterDrain, AfterRead;
    if step.Announced? || step.DrainEnd? {
      SettlesByCounting(s, ttl, step, t);
    } else if Ends(step) {
      SettlesByLeaving(s, Ended(step), ByOwner(step), t);
    } else {
      SettlesByTalking(s, ttl, step, t);
    }
  }

  lemma ForkedInPush(inbox: seq<Message>, m: Message)
    ensures ForkedIn(inbox + [m]) <==> ForkedIn(inbox) || m.Forked?
  {
    var pushed := inbox + [m];
    assert pushed[|inbox|] == m;
    if ForkedIn(inbox) {
      var i :| 0 <= i < |inbox| && inbox[i].Forked?;
      assert pushed[i].Forked?;
    }
  }

  lemma ForkedInPop(inbox: seq<Message>)
    requires inbox != []
    ensures ForkedIn(inbox) <==> ForkedIn(inbox[1..]) || inbox[0].Forked?
  {
    assert inbox == [inbox[0]] + inbox[1..];
    if ForkedIn(inbox) && !inbox[0].Forked? {
      var i :| 0 <= i < |inbox| && inbox[i].Forked?;
      assert inbox[1..][i - 1].Forked?;
    }
  }

  lemma SettledHasNoClone(s: State, t: Id)
    requires Inv(s) && t in s.templates && Settled(s.templates[t])
    ensures s.templates[t].live == {}
  {
    assert Kept(s, t);
    SettledIsEmpty(s.templates[t]);
  }

  lemma SettlesInRun(run: seq<State>, steps: seq<Step>, ttl: nat, i: nat, t: Id)
    requires IsRun(run, steps, ttl) && i < |run| && t in run[i].templates && Settled(run[i].templates[t])
    ensures i > 0 && run[i].templates[t].live == {}
    ensures || run[i].templates[t].idleSince == run[i].now
            || (t in run[i - 1].templates && Settled(run[i - 1].templates[t])
                && run[i].templates[t].idleSince == run[i - 1].templates[t].idleSince)
  {
    hide Inv, Settled, Apply, Enabled;
    RunKeeps(run, steps, ttl, i);
    SettledHasNoClone(run[i], t);
    RunKeeps(run, steps, ttl, i - 1);
    assert Follows(run[i - 1], run[i], ttl, steps[i - 1]);
    SettlesByDraining(run[i - 1], ttl, steps[i - 1], t);
  }

  /** While an owner's books are settled, its idle time is an honest one. */
  lemma {:induction false} IdleIsHonest(run: seq<State>, steps: seq<Step>, ttl: nat, i: nat, t: Id)
    requires IsRun(run, steps, ttl) && i < |run| && t in run[i].templates && Settled(run[i].templates[t])
    ensures QuietSince(run, i, t, run[i].templates[t].idleSince)
  {
    SettlesInRun(run, steps, ttl, i, t);
    hide Settled, Follows;
    if run[i].templates[t].idleSince == run[i].now {
      forall j | 0 <= j <= i ensures run[j].now <= run[i].now { TimeGoesOn(run, steps, ttl, j, i); }
    } else {
      IdleIsHonest(run, steps, ttl, i - 1, t);
    }
  }

  /**
   A template expires only after `ttl` without a live child: at no moment of
   that time, in no state of the run, did it have one.
   */
  lemma QuietBeforeExpiry(run: seq<State>, steps: seq<Step>, ttl: nat, k: nat, t: Id, j: nat)
    requires IsRun(run, steps, ttl) && k < |steps| && steps[k] == Expire(t)
    requires j <= k && t in run[j].templates && run[j].now + ttl > run[k].now
    ensures run[j].templates[t].live == {}
    ensures forall q :: q in run[j].alive && q in run[j].parent ==> run[j].parent[q] != t
  {
    assert Follows(run[k], run[k + 1], ttl, steps[k]);
    RunKeeps(run, steps, ttl, k);
    assert Kept(run[k], t);
    NoForked(run[k].templates[t]);
    IdleIsHonest(run, steps, ttl, k, t);
    RunKeeps(run, steps, ttl, j);
    assert Kept(run[j], t);
  }

  // ----- clones and their templates

  lemma {:induction false} RunGuards(run: seq<State>, steps: seq<Step>, ttl: nat, i: nat)
    requires IsRun(run, steps, ttl) && i < |run|
    ensures Inv(run[i]) && Guarded(run[i])
  {
    RunKeeps(run, steps, ttl, i);
    if i > 0 {
      RunGuards(run, steps, ttl, i - 1);
      assert Follows(run[i - 1], run[i], ttl, steps[i - 1]);
      hide Inv, Guarded, Apply;
      StepGuards(run[i - 1], ttl, steps[i - 1]);
    }
  }

  /** `a` is an ancestor of `q`: its parent, or an ancestor of its parent. */
  ghost predicate Descends(parent: map<Id, Id>, q: Id, a: Id)
    decreases q
  {
    q in parent && (parent[q] == a || (parent[q] < q && Descends(parent, parent[q], a)))
  }

  lemma {:induction false} FallsUnderLife(s: State, q: Id, a: Id)
    requires Inv(s) && Guarded(s) && q in s.alive && q != a && Falls(s, a, q)
    ensures a in s.alive && a in s.templates && Descends(s.parent, q, a)
    decreases q
  {
    if s.parent[q] != a {
      FallsUnderLife(s, s.parent[q], a);
    }
  }

  /**
   In every run, however templates end: a live clone that armed in time, as did
   every process between it and `a`, has `a` alive and frozen above it, and
   the end of `a` is its own.
   */
  lemma ClonesDieWithTheirTemplates(run: seq<State>, steps: seq<Step>, ttl: nat, i: nat, q: Id, a: Id)
    requires IsRun(run, steps, ttl) && i < |run|
    requires q in run[i].alive && q != a && Falls(run[i], a, q)
    ensures a in run[i].alive && a in run[i].templates && Descends(run[i].parent, q, a)
    ensures i < |steps| && Ends(steps[i]) && Ended(steps[i]) == a ==> q !in run[i + 1].alive
  {
    RunGuards(run, steps, ttl, i);
    FallsUnderLife(run[i], q, a);
    if i < |steps| && Ends(steps[i]) {
      assert Follows(run[i], run[i + 1], ttl, steps[i]);
      EndsByEnd(run[i], ttl, steps[i]);
      hide Inv, Guarded, IsRun, Descends, Falls, Apply, Enabled;
    }
  }

  /** Every live clone's parent is alive. */
  ghost predicate Rooted(s: State) {
    forall q :: q in s.alive && q in s.parent ==> s.parent[q] in s.alive
  }

  /** A template that goes down with `p` has a live clone between its fork and its arming. */
  ghost predicate InWindow(s: State, p: Id) {
    exists t, q :: t in s.templates && Falls(s, p, t) && q in s.templates[t].live && q !in s.armed
  }

  lemma EndRooted(s: State, p: Id, byOwner: bool)
    requires Inv(s) && Rooted(s) && p in s.alive
    ensures Rooted(End(s, p, byOwner)) <==> !InWindow(s, p)
  {
    hide Shaped, Balanced;
    var s' := End(s, p, byOwner);
    if InWindow(s, p) {
      var t, q :| t in s.templates && Falls(s, p, t) && q in s.templates[t].live && q !in s.armed;
      assert Kept(s, t);
      FallsAbove(s, p, t);
      assert q in s'.alive && s.parent[q] !in s'.alive;
    }
    if !Rooted(s') {
      var q :| q in s'.alive && q in s'.parent && s'.parent[q] !in s'.alive;
      var t := s.parent[q];
      assert Falls(s, p, t) && !Falls(s, p, q) && t < q;
      assert Kept(s, t) && q in s.templates[t].live && q !in s.armed;
    }
  }

  lemma OtherwiseRooted(s: State, ttl: nat, step: Step)
    requires Inv(s) && Rooted(s) && Enabled(s, ttl, step) && !Ends(step)
    ensures Rooted(Apply(s, ttl, step))
  {
    hide Shaped, Balanced, Expired, AfterFork, AfterDrain, AfterRead;
    var s' := Apply(s, ttl, step);
    if step.HostForks? {
      assert Kept(s, step.t);
    } else {
      assert s'.parent == s.parent && s.alive <= s'.alive <= s.alive + {s.next};
    }
  }

  /** A step leaves no orphan exactly when it does not end a template, or one above it, between a fork and its arming. */
  lemma StepRooted(s: State, ttl: nat, step: Step)
    requires Inv(s) && Rooted(s) && Enabled(s, ttl, step)
    ensures Rooted(Apply(s, ttl, step)) <==> !(Ends(step) && InWindow(s, Ended(step)))
  {
    if Ends(step) {
      EndsByEnd(s, ttl, step);
      hide Inv, Rooted, InWindow, End;
      EndRooted(s, Ended(step), ByOwner(step));
    } else {
      OtherwiseRooted(s, ttl, step);
    }
  }

  lemma {:induction false} RootedUpTo(run: seq<State>, steps: seq<Step>, ttl: nat, i: nat)
    requires IsRun(run, steps, ttl) && i < |run|
    requires forall k :: 0 <= k < i && Ends(steps[k]) ==> !InWindow(run[k], Ended(steps[k]))
    ensures Rooted(run[i])
  {
    if i > 0 {
      RootedUpTo(run, steps, ttl, i - 1);
      RunKeeps(run, steps, ttl, i - 1);
      assert Follows(run[i - 1], run[i], ttl, steps[i - 1]);
      hide Inv, Rooted, InWindow, Apply;
      StepRooted(run[i - 1], ttl, steps[i - 1]);
    }
  }

  /**
   Exactly when: no state of a run has a live clone whose parent is gone if
   and only if no template of it went down between a fork and the clone's
   arming.
   */
  lemma NoOrphansExactly(run: seq<State>, steps: seq<Step>, ttl: nat)
    requires IsRun(run, steps, ttl)
    ensures (forall i :: 0 <= i < |run| ==> Rooted(run[i]))
            <==> (forall k :: 0 <= k < |steps| && Ends(steps[k]) ==> !InWindow(run[k], Ended(steps[k])))
  {
    hide Rooted, InWindow;
    if forall k :: 0 <= k < |steps| && Ends(steps[k]) ==> !InWindow(run[k], Ended(steps[k])) {
      forall i | 0 <= i < |run| ensures Rooted(run[i]) { RootedUpTo(run, steps, ttl, i); }
    }
    if forall i :: 0 <= i < |run| ==> Rooted(run[i]) {
      forall k | 0 <= k < |steps| && Ends(steps[k])
        ensures !InWindow(run[k], Ended(steps[k]))
      {
        assert Rooted(run[k]) && Rooted(run[k + 1]);
        RunKeeps(run, steps, ttl, k);
        assert Follows(run[k], run[k + 1], ttl, steps[k]);
        StepRooted(run[k], ttl, steps[k]);
      }
    }
  }

  /** A process without a live child goes down alone. */
  lemma {:induction false} FallsAlone(s: State, p: Id, u: Id)
    requires Inv(s) && Guarded(s) && u in s.alive
    requires forall c :: c in s.alive && c in s.parent ==> s.parent[c] != p
    ensures Falls(s, p, u) ==> u == p
    decreases u
  {
    if Falls(s, p, u) && u != p {
      FallsAlone(s, p, s.parent[u]);
    }
  }

  /** In every run, an expiry leaves no orphan: nothing goes down but the template. */
  lemma ExpiryNeverOrphans(run: seq<State>, steps: seq<Step>, ttl: nat, k: nat, t: Id)
    requires IsRun(run, steps, ttl) && k < |steps| && steps[k] == Expire(t)
    ensures !InWindow(run[k], t)
    ensures run[k + 1].alive == run[k].alive - {t}
  {
    RunGuards(run, steps, ttl, k);
    assert Follows(run[k], run[k + 1], ttl, steps[k]);
    var s := run[k];
    assert Kept(s, t);
    NoForked(s.templates[t]);
    SettledIsEmpty(s.templates[t]);
    hide Shaped, Balanced, Guarded;
    forall u | u in s.alive
      ensures Falls(s, t, u) ==> u == t
    {
      FallsAlone(s, t, u);
    }
    assert forall u :: u in s.templates ==> Kept(s, u);
  }

  /**
   In every run, an owner that stops for want of handles leaves none of its
   own clones behind: each is armed and goes down with the template.
   */
  lemma DisconnectTakesItsClones(run: seq<State>, steps: seq<Step>, ttl: nat, k: nat, t: Id, q: Id)
    requires IsRun(run, steps, ttl) && k < |steps| && steps[k] == Disconnect(t)
    requires t in run[k].templates && q in run[k].templates[t].live
    ensures q in run[k].armed && q !in run[k + 1].alive
  {
    RunGuards(run, steps, ttl, k);
    assert Follows(run[k], run[k + 1], ttl, steps[k]);
    var s := run[k];
    assert Kept(s, t);
    NoForked(s.templates[t]);
    assert !Expected(s.templates[t], q) && Awaited(s, t, q);
    assert Falls(s, t, t) && s.parent[q] == t;
    assert Falls(s, t, q);
  }

  /** And it leaves an orphan exactly when a template further down is between a fork and the clone's arming. */
  lemma DisconnectOrphansExactly(run: seq<State>, steps: seq<Step>, ttl: nat, k: nat, t: Id)
    requires IsRun(run, steps, ttl) && k < |steps| && steps[k] == Disconnect(t) && Rooted(run[k])
    ensures Rooted(run[k + 1]) <==>
              forall u, q :: u in run[k].templates && u != t && Falls(run[k], t, u) && q in run[k].templates[u].live ==>
                q in run[k].armed
  {
    RunKeeps(run, steps, ttl, k);
    assert Follows(run[k], run[k + 1], ttl, steps[k]);
    StepRooted(run[k], ttl, steps[k]);
    forall q | q in run[k].templates[t].live
      ensures q in run[k].armed
    {
      DisconnectTakesItsClones(run, steps, ttl, k, t, q);
    }
    hide Inv, Rooted, IsRun, Falls;
  }

  lemma {:induction false} AncestorsAlive(s: State, q: Id, a: Id)
    requires Inv(s) && Rooted(s) && q in s.alive && Descends(s.parent, q, a)
    ensures a in s.alive && a in s.templates
    decreases q
  {
    if s.parent[q] != a {
      AncestorsAlive(s, s.parent[q], a);
    }
  }

  /** An end that does not look at the count. */
  predicate Abrupt(step: Step) {
    step.ForkFails? || step.Disconnect? || step.HostLost?
  }

  /** A process that never was a template has nothing below it. */
  lemma LeafHasNothingBelow(s: State, p: Id)
    requires Inv(s) && Guarded(s) && p in s.alive && p !in s.templates
    ensures !InWindow(s, p)
  {
    forall t | t in s.templates
      ensures !Falls(s, p, t)
    {
      assert Kept(s, t);
      FallsAlone(s, p, t);
    }
  }

  lemma {:induction false} RootedByExpiry(run: seq<State>, steps: seq<Step>, ttl: nat, i: nat)
    requires IsRun(run, steps, ttl) && i < |run| && forall k :: 0 <= k < |steps| ==> !Abrupt(steps[k])
    ensures Rooted(run[i])
  {
    hide InWindow, Falls;
    forall k | 0 <= k < i && Ends(steps[k])
      ensures !InWindow(run[k], Ended(steps[k]))
    {
      assert Follows(run[k], run[k + 1], ttl, steps[k]) && !Abrupt(steps[k]);
      if steps[k].Expire? {
        ExpiryNeverOrphans(run, steps, ttl, k, steps[k].t);
      } else {
        RunGuards(run, steps, ttl, k);
        LeafHasNothingBelow(run[k], steps[k].p);
      }
    }
    RootedUpTo(run, steps, ttl, i);
  }

  /**
   In a run where templates end only by expiry, every live process has all
   its ancestors alive, frozen and owned: chains unwind leaf-first.
   */
  lemma ChainsUnwindLeafFirst(run: seq<State>, steps: seq<Step>, ttl: nat, i: nat, q: Id, a: Id)
    requires IsRun(run, steps, ttl) && i < |run|
    requires forall k :: 0 <= k < |steps| ==> !Abrupt(steps[k])
    requires q in run[i].alive && Descends(run[i].parent, q, a)
    ensures a in run[i].alive && a in run[i].templates
  {
    RootedByExpiry(run, steps, ttl, i);
    RunKeeps(run, steps, ttl, i);
    AncestorsAlive(run[i], q, a);
  }

  /** In such a run an expiring template had no live descendant at all for `ttl`. */
  lemma {:induction false} NoDescendantBeforeExpiry(run: seq<State>, steps: seq<Step>, ttl: nat, k: nat, t: Id, j: nat, q: Id)
    requires IsRun(run, steps, ttl) && k < |steps| && steps[k] == Expire(t)
    requires forall i :: 0 <= i < |steps| ==> !Abrupt(steps[i])
    requires j <= k && t in run[j].templates && run[j].now + ttl > run[k].now
    requires Descends(run[j].parent, q, t)
    ensures q !in run[j].alive
    decreases q
  {
    RootedByExpiry(run, steps, ttl, j);
    QuietBeforeExpiry(run, steps, ttl, k, t, j);
    if q in run[j].alive && run[j].parent[q] != t {
      NoDescendantBeforeExpiry(run, steps, ttl, k, t, j, run[j].parent[q]);
    }
  }
}
