/** When a template expires: what its idle clock says, and that it is looked at as the code looks at it. */
module LedgerClock {
  import opened Ledger
  import opened LedgerSteps
  import opened LedgerRuns

  /** The drain takes exits, and with them the last child counted. */
  ghost predicate LastExits(s: State, step: Step, t: Id) {
    && step == DrainEnd(t) && t in s.templates
    && Drained(s.templates[t]) > 0 && Drained(s.templates[t]) == s.templates[t].children
  }

  lemma CountingClock(x: Template, now: nat)
    requires Sound(x)
    ensures x.owner.Announcing? ==> AfterFork(x, now).idleSince == x.idleSince
    ensures x.owner.Draining? && x.inbox == [] ==>
              AfterDrain(x, x.owner.exits, now).idleSince
              == if x.owner.exits > 0 && x.owner.exits == x.children then now else x.idleSince
  {
    if x.owner.Announcing? {
      CountAfterFork(x, now);
    } else if x.owner.Draining? && x.inbox == [] {
      CountAfterDrain(x, now);
    }
  }

  lemma OtherwiseClock(s: State, ttl: nat, step: Step, t: Id)
    requires Enabled(s, ttl, step) && t in s.templates && t in Apply(s, ttl, step).templates
    requires step != Announced(t) && step != DrainEnd(t) && step != Freeze(t)
    ensures Apply(s, ttl, step).templates[t].idleSince == s.templates[t].idleSince
  {
    hide Falls, Pending, AfterFork, AfterDrain, Expired;
  }

  /** A step sets the idle clock exactly when it drains the last exits; nothing else moves it. */
  lemma ClockExactly(s: State, ttl: nat, step: Step, t: Id)
    requires Inv(s) && Enabled(s, ttl, step) && t in s.templates && t in Apply(s, ttl, step).templates
    ensures Apply(s, ttl, step).templates[t].idleSince == if LastExits(s, step, t) then s.now else s.templates[t].idleSince
  {
    if step == Announced(t) || step == DrainEnd(t) {
      assert Kept(s, t);
      hide Inv, Sound, AfterFork, AfterDrain;
      CountingClock(s.templates[t], s.now);
    } else {
      hide Inv, Apply;
      OtherwiseClock(s, ttl, step, t);
    }
  }

  /** Step `k` is the freeze, or a drain of the last exits. */
  ghost predicate SetsClock(run: seq<State>, steps: seq<Step>, k: nat, t: Id) {
    k < |steps| && k < |run| && (steps[k] == Freeze(t) || LastExits(run[k], steps[k], t))
  }

  /** In every run, the idle clock is the time of the last such step. */
  lemma {:induction false} IdleSinceWhen(run: seq<State>, steps: seq<Step>, ttl: nat, i: nat, t: Id) returns (k: nat)
    requires IsRun(run, steps, ttl) && i < |run| && t in run[i].templates
    ensures k < i && SetsClock(run, steps, k, t) && run[i].templates[t].idleSince == run[k].now
    ensures forall j :: k < j < i ==> !SetsClock(run, steps, j, t)
    decreases i
  {
    hide Inv, Apply, LastExits;
    assert i > 0 && Follows(run[i - 1], run[i], ttl, steps[i - 1]);
    RunKeeps(run, steps, ttl, i - 1);
    var s, step := run[i - 1], steps[i - 1];
    if t in s.templates {
      ClockExactly(s, ttl, step, t);
      if LastExits(s, step, t) {
        k := i - 1;
      } else {
        k := IdleSinceWhen(run, steps, ttl, i - 1, t);
      }
    } else {
      NewlyFrozen(s, ttl, step, t);
      k := i - 1;
    }
  }

  lemma NewlyFrozen(s: State, ttl: nat, step: Step, t: Id)
    requires Enabled(s, ttl, step) && t !in s.templates && t in Apply(s, ttl, step).templates
    ensures step == Freeze(t) && Apply(s, ttl, step).templates[t].idleSince == s.now
  {
    hide Falls, Pending, AfterFork, AfterDrain, AfterRead, Expired;
  }

  /**
   In every run, an owner that has drained expires its template exactly when no
   clone is alive, unreaped or unreported and the clock has stood for `ttl`;
   otherwise it goes on serving.
   */
  lemma ExpiresExactly(run: seq<State>, steps: seq<Step>, ttl: nat, i: nat, t: Id)
    requires IsRun(run, steps, ttl) && i < |run| && t in run[i].templates && run[i].templates[t].owner == Deciding
    ensures var x := run[i].templates[t];
            && (Enabled(run[i], ttl, Expire(t)) <==>
                  x.live == {} && x.zombies == {} && x.inbox == [] && run[i].now - x.idleSince >= ttl)
            && (Enabled(run[i], ttl, KeepServing(t)) <==> !Enabled(run[i], ttl, Expire(t)))
  {
    RunKeeps(run, steps, ttl, i);
    var x := run[i].templates[t];
    assert Kept(run[i], t);
    NoForked(x);
    if x.inbox != [] {
      assert x.inbox[0].ChildExited?;
      ExitsAtLeastOne(x.inbox, 0);
    }
  }
}
