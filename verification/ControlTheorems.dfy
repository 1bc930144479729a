/** What the control protocol guarantees: replies pair with requests, phases only advance. */
module ControlTheorems {
  import opened Wrappers
  import opened Control

  // ----- one link

  /** An unsolicited child exit leaves the pairing alone. */
  lemma EventKeeps(l: Link)
    requires LinkInv(l) && !l.host.ended
    ensures !l.host.reborn ==> LinkInv(Says(l, Exited(ChildRun), None))
  {
    var l' := Says(l, Exited(ChildRun), None);
    assert forall i: nat :: Answers(l', i) ==> Answers(l, i) && l'.log[i] == l.log[i];
    assert forall i: nat :: Answers(l, i) ==> Answers(l', i);
  }

  lemma GuestExitKeeps(l: Link)
    requires LinkInv(l) && Ticking(l.host)
    ensures LinkInv(Says(WithHost(l, l.host.(ended := true)), Exited(GuestRun), None))
  {
    var l' := Says(WithHost(l, l.host.(ended := true)), Exited(GuestRun), None);
    assert forall i: nat :: Answers(l', i) ==> Answers(l, i) && l'.log[i] == l.log[i];
  }

  /** Answering the request that is outstanding, by a host that is then free. */
  lemma AnswerKeeps(l: Link, h: Host, reply: Reply, id: nat)
    requires LinkInv(l) && !l.host.ended && NoAnswer(l) && l.outstanding == Some(id)
    requires ScansFrozen(h) && h.busy.None? && !h.reborn
    ensures LinkInv(Says(WithHost(l.(wire := None), h), reply, Some(id)))
  {
    var l' := Says(WithHost(l.(wire := None), h), reply, Some(id));
    assert forall i: nat :: Answers(l', i) ==> i == |l.log| by {
      forall i: nat | Answers(l', i) ensures i == |l.log| {
        assert !Answers(l, i);
      }
    }
    assert forall i :: 0 <= i < |l'.log| && i != |l.log| ==> l'.log[i] == l.log[i];
  }

  lemma BusyKeeps(l: Link, h: Host, job: Job)
    requires LinkInv(l) && !l.host.ended && l.host.busy.None? && !l.host.reborn
    requires l.wire == Some(job) && h.busy == Some(job) && !h.reborn && !h.ended && ScansFrozen(h)
    ensures LinkInv(WithHost(l.(wire := None), h))
  {
    var l' := WithHost(l.(wire := None), h);
    assert forall i: nat :: Answers(l', i) <==> Answers(l, i);
  }

  lemma EndKeeps(l: Link)
    requires LinkInv(l)
    ensures LinkInv(WithHost(l.(wire := None), l.host.(ended := true)))
  {
    var l' := WithHost(l.(wire := None), l.host.(ended := true));
    assert forall i: nat :: Answers(l', i) <==> Answers(l, i);
  }

  lemma HandleKeeps(l: Link, job: Job, outcome: Outcome, child: Pid)
    requires LinkInv(l) && Ticking(l.host) && l.host.busy.None? && l.wire == Some(job)
    ensures LinkInv(Handle(l, job, outcome, child))
  {
    hide Paired, Unsolicited, NoAnswer;
    var h := l.host;
    match job.request
    case Prepare =>
      if h.phase != Fresh || outcome == Bad { AnswerKeeps(l, h, Error, job.id); }
      else if outcome == Immediate { AnswerKeeps(l, h.(phase := Prepared), Exited(PrepareRun), job.id); }
      else { BusyKeeps(l, h.(busy := Some(job)), job); }
    case Start =>
      if !(h.phase == Fresh || h.phase == Prepared) || outcome == Bad { AnswerKeeps(l, h, Error, job.id); }
      else { BusyKeeps(l, h.(phase := Running(false), guest := true, busy := Some(job)), job); }
    case Initialize =>
      if h.phase != Running(true) || outcome == Bad { AnswerKeeps(l, h, Error, job.id); }
      else { BusyKeeps(l, h.(busy := Some(job)), job); }
    case Freeze =>
      if h.phase != Running(true) { AnswerKeeps(l, h, Error, job.id); }
      else if outcome == Bad { AnswerKeeps(l, h.(phase := Frozen, ended := true), Error, job.id); }
      else { AnswerKeeps(l, h.(phase := Frozen, scanning := true), FrozenReply, job.id); }
    case Fork =>
      if h.phase != Frozen || outcome == Bad { AnswerKeeps(l, h, Error, job.id); }
      else { AnswerKeeps(l, h, Forked(child), job.id); }
    case Stop => EndKeeps(l);
  }

  lemma CompleteKeeps(l: Link, outcome: Outcome)
    requires LinkInv(l) && !l.host.ended && l.host.busy.Some?
    ensures LinkInv(Complete(l, outcome))
  {
    hide Paired, Unsolicited, NoAnswer;
    var job := l.host.busy.value;
    var h := l.host.(busy := None);
    assert l.wire.None?;
    assert l.(wire := None) == l;
    match job.request
    case Prepare => AnswerKeeps(l, h.(phase := Prepared), Exited(PrepareRun), job.id);
    case Start =>
      if outcome == Bad { AnswerKeeps(l, h, Error, job.id); }
      else if outcome == GuestDied { AnswerKeeps(l, h, Exited(GuestRun), job.id); }
      else if outcome == NoEndpoint { AnswerKeeps(l, h.(phase := Running(true)), Error, job.id); }
      else { AnswerKeeps(l, h.(phase := Running(true)), Ready, job.id); }
    case _ => AnswerKeeps(l, h, Exited(InitializerRun), job.id);
  }

  lemma ReadKeeps(l: Link)
    requires LinkInv(l) && l.outstanding.Some? && l.read < |l.log|
    ensures LinkInv(ReadOne(l))
    ensures Judge(l.log[l.read].reply) == Answer ==> l.log[l.read].answers == l.outstanding
    ensures l.log[l.read].reply == Error ==> l.log[l.read].answers == l.outstanding
    ensures Judge(l.log[l.read].reply) == Failed ==>
              l.log[l.read].answers == l.outstanding || (l.host.ended && l.read + 1 == |l.log|)
  {
    var l' := ReadOne(l);
    var m := l.log[l.read];
    assert m.answers.Some? ==> Answers(l, l.read);
    assert forall i: nat :: Answers(l', i) ==> Answers(l, i) && l'.log[i] == l.log[i] && i != l.read;
    if m.answers.Some? {
      assert NoAnswer(l');
    } else if Judge(m.reply) != Event {
      assert GuestGone(l, l.read);
      assert NoAnswer(l');
    }
    assert NoAnswer(l) ==> NoAnswer(l');
  }

  lemma IntroduceKeeps(l: Link, p: Pid, outcome: Outcome)
    requires LinkInv(l) && !l.host.ended && l.host.reborn
    ensures LinkInv(Introduce(l, p, outcome))
  {
    var l' := Introduce(l, p, outcome);
    assert l.log == [] && l.read == 0 && l.wire.None?;
    assert forall i: nat :: Answers(l', i) ==> i == 0;
  }

  // ----- the whole system

  lemma StepKeeps(s: System, step: Step)
    requires Inv(s) && Enabled(s, step)
    ensures Inv(Apply(s, step))
  {
    hide LinkInv;
    var s' := Apply(s, step);
    assert LinkInv(s'[step.p]) by { StepKeepsOne(s, step); }
    if step.Accept? && Forks(s[step.p], s[step.p].wire.value, step.outcome) {
      RebornKeeps(s[step.p]);
    }
  }

  lemma RebornKeeps(l: Link)
    requires LinkInv(l) && l.host.phase == Frozen && l.host.busy.None?
    ensures LinkInv(Reborn(l))
  {
    assert forall i: nat :: !Answers(Reborn(l), i);
  }

  lemma StepKeepsOne(s: System, step: Step)
    requires Inv(s) && Enabled(s, step)
    ensures LinkInv(Apply(s, step)[step.p])
  {
    hide Paired, Unsolicited, Unanswered, ScansFrozen;
    var s' := Apply(s, step);
    if !step.Spawn? {
      assert LinkInv(s[step.p]);
    }
    match step
    case Read(p) => ReadKeeps(s[p]);
    case ChildExits(p) => EventKeeps(s[p]);
    case GuestExits(p) => GuestExitKeeps(s[p]);
    case Accept(p, outcome, child) => HandleKeeps(s[p], s[p].wire.value, outcome, child);
    case Finish(p, outcome) => CompleteKeeps(s[p], outcome);
    case RefuseBusy(p) => BusyHearsNothing(s[p]); assert false;
    case Announce(p, outcome) => IntroduceKeeps(s[p], p, outcome);
    case _ => QuietStepKeeps(s, step);
  }

  /** With one request outstanding at a time, a busy host never has another to refuse. */
  lemma BusyHearsNothing(l: Link)
    requires LinkInv(l) && !l.host.ended && l.host.busy.Some?
    ensures l.wire.None?
  {
  }

  lemma QuietStepKeeps(s: System, step: Step)
    requires Inv(s) && Enabled(s, step)
    requires step.Spawn? || step.Send? || step.ReadClosed? || step.ReadEvent? || step.Slice?
    ensures LinkInv(Apply(s, step)[step.p])
  {
    var l' := Apply(s, step)[step.p];
    if step.Spawn? {
      assert NoAnswer(l');
    } else {
      var l := s[step.p];
      assert LinkInv(l);
      assert forall i: nat :: Answers(l', i) ==> Answers(l, i) && l'.log[i] == l.log[i];
      if l.outstanding.None? {
        assert forall i: nat :: Answers(l, i) ==> l.log[i].answers.None?;
        assert NoAnswer(l);
      }
      assert NoAnswer(l) ==> NoAnswer(l');
    }
  }

  // ----- runs

  ghost predicate IsRun(run: seq<System>, steps: seq<Step>) {
    && |run| == |steps| + 1
    && run[0] == map[]
    && (forall i :: 0 <= i < |steps| ==> Follows(run[i], run[i + 1], steps[i]))
  }

  ghost predicate Follows(s: System, s': System, step: Step) {
    Enabled(s, step) && s' == Apply(s, step)
  }

  lemma {:induction false} RunKeeps(run: seq<System>, steps: seq<Step>, i: nat)
    requires IsRun(run, steps) && i < |run|
    ensures Inv(run[i])
  {
    if i > 0 {
      RunKeeps(run, steps, i - 1);
      assert Follows(run[i - 1], run[i], steps[i - 1]);
      StepKeeps(run[i - 1], steps[i - 1]);
    }
  }

  /**
   Whatever a run interleaves, a message `reply` returns answers the very
   request outstanding; so does every refusal; and when it fails because the
   guest exited instead, the host is gone and has said its last.
   */
  lemma RepliesPairWithRequests(run: seq<System>, steps: seq<Step>, i: nat, p: Pid)
    requires IsRun(run, steps) && i < |steps| && steps[i] == Read(p)
    ensures p in run[i] && run[i][p].outstanding.Some? && run[i][p].read < |run[i][p].log|
    ensures var l := run[i][p];
            var m := l.log[l.read];
            && (Judge(m.reply) == Answer ==> m.answers == l.outstanding)
            && (m.reply == Error ==> m.answers == l.outstanding)
            && (Judge(m.reply) == Failed ==> m.answers == l.outstanding || (l.host.ended && l.read + 1 == |l.log|))
  {
    assert Follows(run[i], run[i + 1], steps[i]);
    RunKeeps(run, steps, i);
    ReadKeeps(run[i][p]);
  }

  /** The host never answers `busy` to a manager that waits its turn. */
  lemma NeverRefusedAsBusy(run: seq<System>, steps: seq<Step>, i: nat)
    requires IsRun(run, steps) && i < |steps|
    ensures !steps[i].RefuseBusy?
  {
    assert Follows(run[i], run[i + 1], steps[i]);
    RunKeeps(run, steps, i);
    if steps[i].RefuseBusy? {
      BusyHearsNothing(run[i][steps[i].p]);
      assert false;
    }
  }

  // ----- a clone's first words

  /** `p` was forked, not spawned. */
  ghost predicate IsClone(steps: seq<Step>, run: seq<System>, i: nat, p: Pid)
    requires |run| == |steps| + 1
  {
    exists k :: 0 <= k < i && k < |steps| && steps[k].Accept? && steps[k].child == p && p !in run[k] && p in run[k + 1]
  }

  ghost predicate FirstWords(l: Link, p: Pid) {
    l.log == [] || l.log[0] == Sent(Forked(p), Some(0)) || l.log[0] == Sent(Error, Some(0))
  }

  /** A clone keeps silent until it announces itself. */
  ghost predicate SilentOrIntroduced(l: Link, p: Pid) {
    if l.log == [] then l.host.reborn || l.host.ended else FirstWords(l, p)
  }

  lemma SpeaksAfterIntroduction(s: System, step: Step, p: Pid)
    requires Inv(s) && Enabled(s, step) && p in s && SilentOrIntroduced(s[p], p)
    ensures p in Apply(s, step) && SilentOrIntroduced(Apply(s, step)[p], p)
  {
    assert LinkInv(s[p]);
    if step.p == p {
      var l, l' := s[p], Apply(s, step)[p];
      if l.log != [] {
        assert l'.log[..|l.log|] == l.log;
      }
    }
  }

  lemma BornSilent(s: System, step: Step, p: Pid)
    requires Enabled(s, step) && p !in s && p in Apply(s, step) && step.Accept? && step.child == p
    ensures SilentOrIntroduced(Apply(s, step)[p], p)
  {
  }

  /** A clone's first message is always its own announcement, or its error. */
  lemma {:induction false} CloneIntroducesItself(run: seq<System>, steps: seq<Step>, i: nat, p: Pid)
    requires IsRun(run, steps) && i < |run| && IsClone(steps, run, i, p)
    ensures p in run[i] && SilentOrIntroduced(run[i][p], p)
  {
    hide Inv, Enabled, Apply, SilentOrIntroduced;
    var k :| 0 <= k < i && k < |steps| && steps[k].Accept? && steps[k].child == p && p !in run[k] && p in run[k + 1];
    assert Follows(run[i - 1], run[i], steps[i - 1]);
    RunKeeps(run, steps, i - 1);
    if k == i - 1 {
      BornSilent(run[k], steps[k], p);
    } else {
      assert IsClone(steps, run, i - 1, p);
      CloneIntroducesItself(run, steps, i - 1, p);
      SpeaksAfterIntroduction(run[i - 1], steps[i - 1], p);
    }
  }

  // ----- phases

  function Rank(phase: Phase): nat {
    match phase
    case Fresh => 0
    case Prepared => 1
    case Running(ready) => if ready then 3 else 2
    case Frozen => 4
  }

  /** One step advances the phase of a process or leaves it; a new process is fresh or a clone at work. */
  lemma StepAdvances(s: System, step: Step, p: Pid)
    requires Inv(s) && Enabled(s, step) && p in Apply(s, step)
    ensures p in s ==> Rank(s[p].host.phase) <= Rank(Apply(s, step)[p].host.phase)
    ensures p !in s ==> Apply(s, step)[p].host.phase == (if step.Spawn? then Fresh else Running(true))
  {
    if p in s {
      assert LinkInv(s[p]);
    }
  }

  /** A process is never forgotten. */
  lemma {:induction false} StaysKnown(run: seq<System>, steps: seq<Step>, i: nat, j: nat, p: Pid)
    requires IsRun(run, steps) && i <= j < |run| && p in run[i]
    ensures p in run[j]
  {
    if i < j {
      StaysKnown(run, steps, i, j - 1, p);
      assert Follows(run[j - 1], run[j], steps[j - 1]);
    }
  }

  /**
   Over any run, through any chain of freezes and forks, the phase of one
   process only moves forward, and a frozen one stays frozen.
   */
  lemma {:induction false} PhasesOnlyAdvance(run: seq<System>, steps: seq<Step>, i: nat, j: nat, p: Pid)
    requires IsRun(run, steps) && i <= j < |run| && p in run[i]
    ensures p in run[j] && Rank(run[i][p].host.phase) <= Rank(run[j][p].host.phase)
    ensures run[i][p].host.phase == Frozen ==> run[j][p].host.phase == Frozen
  {
    hide Inv, Enabled, Apply;
    if i < j {
      PhasesOnlyAdvance(run, steps, i, j - 1, p);
      assert Follows(run[j - 1], run[j], steps[j - 1]);
      RunKeeps(run, steps, j - 1);
      StaysKnown(run, steps, j - 1, j, p);
      StepAdvances(run[j - 1], steps[j - 1], p);
    }
  }

  /** A slice of the zero-page scan only ever runs in a frozen process. */
  lemma SlicesRunFrozen(run: seq<System>, steps: seq<Step>, i: nat, p: Pid, done: bool)
    requires IsRun(run, steps) && i < |steps| && steps[i] == Slice(p, done)
    ensures p in run[i] && run[i][p].host.phase == Frozen && run[i + 1][p].host.phase == Frozen
  {
    assert Follows(run[i], run[i + 1], steps[i]);
    RunKeeps(run, steps, i);
    assert LinkInv(run[i][p]);
  }
}
