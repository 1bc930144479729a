/** Runs through the window between a fork and the clone's call to the kernel. */
module LedgerWindow {
  import opened Ledger
  import opened LedgerRuns
  import opened LedgerOrphans

  // ----- a host lost, and what comes of the clone

  function LostTemplates(i: nat): map<Id, Template> {
    var idle := Fresh(0);
    if i < 2 || 6 <= i < 9 then map[]
    else if i == 2 then map[0 := idle]
    else if i == 3 then map[0 := idle.(owner := Forking, request := Asked)]
    else if i == 4 then map[0 := idle.(owner := Forking, request := Made(1), live := {1})]
    else if i == 5 then map[0 := idle.(owner := Forking, inbox := [Forked(1)], live := {1})]
    else if i == 9 then map[1 := idle]
    else if i == 10 then map[1 := idle.(owner := Forking, request := Asked)]
    else map[1 := idle.(owner := Forking, request := Made(2), live := {2})]
  }

  /** Two processes and their grandchild, state by state. */
  function LostState(i: nat): State {
    State(0, if i == 0 then 0 else if i < 4 then 1 else if i < 11 then 2 else 3,
          if i == 0 then {} else if i < 4 then {0} else if i < 6 then {0, 1} else if i < 11 then {1} else {1, 2},
          if i < 4 then map[] else if i < 11 then map[1 := 0] else map[1 := 0, 2 := 1],
          if i < 12 then {} else {2}, if i < 7 then {} else {1}, if i < 8 then {} else {1},
          LostTemplates(i), if 6 <= i < 8 then LostTemplates(5) else map[])
  }

  function LostStep(i: nat): Step {
    if i == 0 then Spawn else if i == 1 then Freeze(0) else if i == 2 then TakeFork(0) else if i == 3 then HostForks(0)
    else if i == 4 then HostAnswers(0) else if i == 5 then HostLost(0) else if i == 6 then Arm(1)
    else if i == 7 then HeardLate(0, 1) else if i == 8 then Freeze(1) else if i == 9 then TakeFork(1)
    else if i == 10 then HostForks(1) else Arm(2)
  }

  lemma LostForks(ttl: nat, i: nat)
    requires i < 5
    ensures Follows(LostState(i), LostState(i + 1), ttl, LostStep(i))
  {
    if i == 3 {
      assert LostState(3).templates[0].live + {1} == {1} && {0} + {1} == {0, 1};
    } else if i == 4 {
      assert LostState(4).templates[0].inbox + [Forked(1)] == [Forked(1)];
    }
  }

  lemma LostEnds(ttl: nat)
    ensures Follows(LostState(5), LostState(6), ttl, HostLost(0))
  {
    var s := LostState(5);
    assert Falls(s, 0, 0) && !Falls(s, 0, 1);
    assert End(s, 0, false).alive == {1} && End(s, 0, false).templates == map[];
    assert End(s, 0, false).bereft == s.templates;
  }

  lemma LostServes(ttl: nat, i: nat)
    requires 6 <= i < 8
    ensures Follows(LostState(i), LostState(i + 1), ttl, LostStep(i))
  {
    if i == 7 {
      assert LostTemplates(5)[0].inbox[0] == Forked(1);
    }
  }

  lemma LostForksAgain(ttl: nat, i: nat)
    requires 8 <= i < 12
    ensures Follows(LostState(i), LostState(i + 1), ttl, LostStep(i))
  {
    if i == 10 {
      assert LostState(10).templates[1].live + {2} == {2} && {1} + {2} == {1, 2};
    }
  }

  lemma LostRun(ttl: nat, n: nat) returns (run: seq<State>, steps: seq<Step>)
    requires n <= 12
    ensures |run| == n + 1 && IsRun(run, steps, ttl)
    ensures forall i :: 0 <= i <= n ==> run[i] == LostState(i)
    ensures forall i :: 0 <= i < n ==> steps[i] == LostStep(i)
  {
    run, steps := seq(n + 1, i requires 0 <= i <= n => LostState(i)), seq(n, i requires 0 <= i < n => LostStep(i));
    assert Initial(run[0]);
    hide LostState, LostStep, Follows;
    forall i | 0 <= i < n
      ensures Follows(run[i], run[i + 1], ttl, steps[i])
    {
      if i < 5 {
        LostForks(ttl, i);
      } else if i == 5 {
        LostEnds(ttl);
        assert LostStep(5) == HostLost(0) by { LostHost(); }
      } else if i < 8 {
        LostServes(ttl, i);
      } else {
        LostForksAgain(ttl, i);
      }
    }
  }

  lemma LostHost()
    ensures LostStep(5) == HostLost(0)
  {
  }

  /** A host lost between a fork and the clone's arming leaves the clone without its template. */
  lemma LostHostOrphans(ttl: nat) returns (run: seq<State>, steps: seq<Step>)
    ensures IsRun(run, steps, ttl)
    ensures steps != [] && steps[|steps| - 1] == HostLost(0)
    ensures !Rooted(run[|run| - 1])
  {
    run, steps := LostRun(ttl, 6);
    var s := run[6];
    assert 1 in s.alive && s.parent[1] == 0 && 0 !in s.alive;
  }

  /**
   And the clone can be handed out, be frozen, and have a clone of its own that
   arms in time and lives without its grandparent.
   */
  lemma OrphanServes(ttl: nat) returns (run: seq<State>, steps: seq<Step>)
    ensures IsRun(run, steps, ttl) && |run| == 13
    ensures Orphan(run[8], 1) && 1 in run[8].served
    ensures Orphan(run[9], 1) && 1 in run[9].templates
    ensures 2 in run[12].alive && 2 in run[12].armed && Descends(run[12].parent, 2, 0) && 0 !in run[12].alive
  {
    run, steps := LostRun(ttl, 12);
    assert run[8] == LostState(8) && run[9] == LostState(9) && run[12] == LostState(12);
    assert Descends(run[12].parent, 1, 0);
  }

  // ----- a base disconnected while a template on it forks

  function BelowBase(i: nat): map<Id, Template> {
    var idle := Fresh(0);
    if i < 2 || i == 13 then map[]
    else if i == 2 then map[0 := idle]
    else if i == 3 then map[0 := idle.(owner := Forking, request := Asked)]
    else if i == 4 then map[0 := idle.(owner := Forking, request := Made(1), live := {1})]
    else if i < 7 then map[0 := idle.(owner := Forking, inbox := [Forked(1)], live := {1})]
    else if i == 7 then map[0 := idle.(owner := Announcing(1), live := {1})]
    else map[0 := idle.(children := 1, live := {1})]
  }

  function BelowRecipe(i: nat): map<Id, Template> {
    var idle := Fresh(0);
    if i < 9 || i == 13 then map[]
    else if i == 9 then map[1 := idle]
    else if i == 10 then map[1 := idle.(owner := Forking, request := Asked)]
    else if i == 11 then map[1 := idle.(owner := Forking, request := Made(2), live := {2})]
    else map[1 := idle.(owner := Forking, inbox := [Forked(2)], live := {2})]
  }

  function BelowState(i: nat): State {
    State(0, if i == 0 then 0 else if i < 4 then 1 else if i < 11 then 2 else 3,
          if i == 0 then {} else if i < 4 then {0} else if i < 11 then {0, 1} else if i < 13 then {0, 1, 2} else {2},
          if i < 4 then map[] else if i < 11 then map[1 := 0] else map[1 := 0, 2 := 1],
          if i < 6 then {} else {1}, {}, if i < 8 then {} else {1},
          BelowBase(i) + BelowRecipe(i), if i < 13 then map[] else BelowRecipe(12))
  }

  function BelowStep(i: nat): Step {
    if i == 0 then Spawn else if i == 1 then Freeze(0) else if i == 2 then TakeFork(0) else if i == 3 then HostForks(0)
    else if i == 4 then HostAnswers(0) else if i == 5 then Arm(1) else if i == 6 then ReadReply(0)
    else if i == 7 then Announced(0) else if i == 8 then Freeze(1) else if i == 9 then TakeFork(1)
    else if i == 10 then HostForks(1) else if i == 11 then HostAnswers(1) else Disconnect(0)
  }

  lemma BelowForks(ttl: nat, i: nat)
    requires i < 6
    ensures Follows(BelowState(i), BelowState(i + 1), ttl, BelowStep(i))
  {
    if i == 3 {
      assert BelowState(3).templates[0].live + {1} == {1} && {0} + {1} == {0, 1};
    } else if i == 4 {
      assert BelowState(4).templates[0].inbox + [Forked(1)] == [Forked(1)];
    }
  }

  lemma BelowFreezes(ttl: nat, i: nat)
    requires 6 <= i < 9
    ensures Follows(BelowState(i), BelowState(i + 1), ttl, BelowStep(i))
  {
    assert [Forked(1)][1..] == [];
  }

  lemma BelowAsks(ttl: nat)
    ensures Follows(BelowState(9), BelowState(10), ttl, BelowStep(9))
  {
  }

  lemma BelowForksAgain(ttl: nat)
    ensures Follows(BelowState(10), BelowState(11), ttl, BelowStep(10))
  {
    assert BelowState(10).templates[1].live + {2} == {2} && {0, 1} + {2} == {0, 1, 2};
  }

  lemma BelowAnswers(ttl: nat)
    ensures Follows(BelowState(11), BelowState(12), ttl, BelowStep(11))
  {
    assert BelowState(11).templates[1].inbox + [Forked(2)] == [Forked(2)];
  }

  /** The base takes the template on it along, and not the clone. */
  lemma EndOfTwo(s: State)
    requires s.alive == {0, 1, 2} && s.templates.Keys == {0, 1} && s.bereft == map[]
    requires s.parent == map[1 := 0, 2 := 1] && s.armed == {1}
    ensures End(s, 0, true) == s.(alive := {2}, templates := map[], bereft := map[1 := s.templates[1]])
  {
    assert Falls(s, 0, 0) && Falls(s, 0, 1) && !Falls(s, 0, 2);
    hide Falls, Survivor;
    assert End(s, 0, true).alive == {2};
    assert End(s, 0, true).templates == map[];
    assert End(s, 0, true).bereft == map[1 := s.templates[1]];
  }

  lemma BelowEnds(ttl: nat)
    ensures Follows(BelowState(12), BelowState(13), ttl, Disconnect(0))
  {
    hide End;
    EndOfTwo(BelowState(12));
  }

  /** Disconnecting a base can orphan a clone two levels down, in that window; and that clone can come to serve. */
  lemma DisconnectOrphansBelow(ttl: nat) returns (run: seq<State>, steps: seq<Step>)
    ensures IsRun(run, steps, ttl)
    ensures steps != [] && steps[|steps| - 1] == Disconnect(0)
    ensures Orphan(run[|run| - 1], 2) && CanServe(run[|run| - 1], ttl, 2)
  {
    run, steps := seq(14, i requires 0 <= i < 14 => BelowState(i)), seq(13, i requires 0 <= i < 13 => BelowStep(i));
    assert Initial(run[0]) && steps[12] == BelowStep(12) == Disconnect(0);
    assert Orphan(run[13], 2) && Heeded(run[13], 2) by { BelowOrphan(); }
    hide BelowState, BelowStep, Follows, Orphan, Heeded, CanServe;
    forall i | 0 <= i < 13
      ensures Follows(run[i], run[i + 1], ttl, steps[i])
    {
      if i < 6 {
        BelowForks(ttl, i);
      } else if i < 9 {
        BelowFreezes(ttl, i);
      } else if i == 9 {
        BelowAsks(ttl);
      } else if i == 10 {
        BelowForksAgain(ttl);
      } else if i == 11 {
        BelowAnswers(ttl);
      } else {
        BelowEnds(ttl);
      }
    }
    HeededServes(run[13], ttl, 2);
  }

  lemma BelowOrphan()
    ensures Orphan(BelowState(13), 2) && Heeded(BelowState(13), 2)
  {
    assert BelowRecipe(12)[1].inbox[0] == Forked(2);
  }
}
