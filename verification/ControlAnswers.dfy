/** Which reply answers which request, and in which phases a host takes it, over every run. */
module ControlAnswers {
  import opened Wrappers
  import opened Control
  import opened ControlTheorems

  /** The phases in which a host takes a request. */
  predicate Admits(request: Request, phase: Phase) {
    match request
    case Prepare => phase == Fresh
    case Start => phase == Fresh || phase == Prepared
    case Initialize => phase == Running(true)
    case Freeze => phase == Running(true)
    case Fork => phase == Frozen
    case Stop => true
  }

  /** The replies a request can get. */
  predicate Fits(request: Request, reply: Reply) {
    match request
    case Prepare => reply == Exited(PrepareRun) || reply == Error
    case Start => reply == Ready || reply == Exited(GuestRun) || reply == Error
    case Initialize => reply == Exited(InitializerRun) || reply == Error
    case Freeze => reply == FrozenReply || reply == Error
    case Fork => reply.Forked? || reply == Error
    case Stop => false
  }

  /** The process says something new in the step, and it is an answer to request `id`. */
  ghost predicate Answered(s: System, s': System, p: Pid, id: nat, reply: Reply) {
    p in s && p in s' && Grew(s[p].log, s'[p].log, Sent(reply, Some(id)))
  }

  ghost predicate Grew(log: seq<Sent>, log': seq<Sent>, m: Sent) {
    |log'| == |log| + 1 && log'[..|log|] == log && log'[|log|] == m
  }

  /** A process of this number is there that was not, a clone at work that has said nothing. */
  ghost predicate Born(s: System, s': System, c: Pid) {
    c !in s && c in s' && s'[c].host.phase == Running(true) && s'[c].host.reborn && s'[c].log == []
  }

  // ----- taking a request

  /**
   A host answers a request with an error on the spot exactly when it does not
   take it in its phase, or something it needs is missing; and unless it was
   freezing, nothing else about it changes and no process is made.
   */
  lemma RefusedExactly(s: System, step: Step)
    requires Inv(s) && Enabled(s, step) && step.Accept?
    ensures var s', l := Apply(s, step), s[step.p];
            var job := l.wire.value;
            && (Answered(s, s', step.p, job.id, Error) <==>
                  job.request != Stop && (!Admits(job.request, l.host.phase) || step.outcome == Bad))
            && (Answered(s, s', step.p, job.id, Error) && !(job.request == Freeze && l.host.phase == Running(true)) ==>
                  s'.Keys == s.Keys && s'[step.p].host == l.host)
  {
  }

  /**
   What it does with a request that it takes: it answers, with what the request
   asks for done; or it is at work on it and has said nothing; or it ends.
   */
  lemma TakenExactly(s: System, step: Step)
    requires Inv(s) && Enabled(s, step) && step.Accept? && step.outcome != Bad
    requires Admits(s[step.p].wire.value.request, s[step.p].host.phase)
    ensures var s', l := Apply(s, step), s[step.p];
            var job, l' := l.wire.value, s'[step.p];
            && l'.wire.None? && l'.read == l.read && l'.outstanding == l.outstanding
            && (forall q :: q in s && q != step.p ==> q in s' && s'[q] == s[q])
            && (job.request != Fork ==> s'.Keys == s.Keys)
            && match job.request
               case Prepare =>
                 if step.outcome == Immediate
                 then Answered(s, s', step.p, job.id, Exited(PrepareRun)) && l'.host == l.host.(phase := Prepared)
                 else l'.log == l.log && l'.host == l.host.(busy := Some(job))
               case Start => l'.log == l.log && l'.host == l.host.(phase := Running(false), guest := true, busy := Some(job))
               case Initialize => l'.log == l.log && l'.host == l.host.(busy := Some(job))
               case Freeze =>
                 Answered(s, s', step.p, job.id, FrozenReply) && l'.host == l.host.(phase := Frozen, scanning := true)
               case Fork =>
                 && Answered(s, s', step.p, job.id, Forked(step.child)) && l'.host == l.host
                 && Born(s, s', step.child) && s'.Keys == s.Keys + {step.child}
               case Stop => l'.log == l.log && l'.host == l.host.(ended := true)
  {
  }

  /** What it says and becomes when the run it waited for is over. */
  lemma FinishedExactly(s: System, step: Step)
    requires Inv(s) && Enabled(s, step) && step.Finish?
    ensures var s', l := Apply(s, step), s[step.p];
            var job, h' := l.host.busy.value, s'[step.p].host;
            && s'.Keys == s.Keys && h'.busy.None? && h' == l.host.(busy := None, phase := h'.phase)
            && match job.request
               case Prepare => Answered(s, s', step.p, job.id, Exited(PrepareRun)) && h'.phase == Prepared
               case Initialize => Answered(s, s', step.p, job.id, Exited(InitializerRun)) && h'.phase == l.host.phase
               case Start =>
                 && (Answered(s, s', step.p, job.id, Ready) <==> step.outcome == Good || step.outcome == Immediate)
                 && (Answered(s, s', step.p, job.id, Exited(GuestRun)) <==> step.outcome == GuestDied)
                 && (Answered(s, s', step.p, job.id, Error) <==> step.outcome == Bad || step.outcome == NoEndpoint)
                 && h'.phase == if step.outcome == Bad || step.outcome == GuestDied then Running(false) else Running(true)
               case _ => false
  {
    assert LinkInv(s[step.p]);
  }

  /** What it does with a request that comes while it waits for a run. */
  lemma BusyExactly(s: System, step: Step)
    requires Enabled(s, step) && step.RefuseBusy?
    ensures var s', l := Apply(s, step), s[step.p];
            && s'.Keys == s.Keys && s'[step.p].wire.None?
            && if l.wire.value.request == Stop then s'[step.p].log == l.log && s'[step.p].host == l.host.(ended := true)
               else Answered(s, s', step.p, l.wire.value.id, Error) && s'[step.p].host == l.host
  {
  }

  /** What a clone says first, and that it goes on without the scan it inherited, or ends. */
  lemma IntroducedExactly(s: System, step: Step)
    requires Inv(s) && Enabled(s, step) && step.Announce?
    ensures var s', l := Apply(s, step), s[step.p];
            var h' := s'[step.p].host;
            && s'.Keys == s.Keys && !h'.reborn && h'.phase == Running(true)
            && (Answered(s, s', step.p, 0, Forked(step.p)) <==> step.outcome != Bad && step.outcome != NoEndpoint)
            && (Answered(s, s', step.p, 0, Error) <==> step.outcome == Bad)
            && (s'[step.p].log == l.log <==> step.outcome == NoEndpoint)
            && (h'.ended <==> step.outcome == Bad || step.outcome == NoEndpoint)
            && (!h'.ended ==> !h'.scanning)
  {
    assert LinkInv(s[step.p]);
  }

  // ----- over runs

  /** Request `id` of the process's channel, as its manager sent it in step `j`. */
  ghost predicate SentAt(run: seq<System>, steps: seq<Step>, j: nat, p: Pid, id: nat, request: Request) {
    j < |steps| && j < |run| && steps[j] == Send(p, request) && p in run[j] && run[j][p].count == id
  }

  ghost predicate WasSent(run: seq<System>, steps: seq<Step>, i: nat, p: Pid, id: nat, request: Request) {
    exists j: nat :: j < i && SentAt(run, steps, j, p, id, request)
  }

  /** A request on its way or being worked on is one that the manager sent. */
  lemma {:induction false} JobsWereSent(run: seq<System>, steps: seq<Step>, i: nat, p: Pid)
    requires IsRun(run, steps) && i < |run| && p in run[i]
    ensures run[i][p].wire.Some? ==> WasSent(run, steps, i, p, run[i][p].wire.value.id, run[i][p].wire.value.request)
    ensures run[i][p].host.busy.Some? ==>
              WasSent(run, steps, i, p, run[i][p].host.busy.value.id, run[i][p].host.busy.value.request)
    decreases i
  {
    if i > 0 {
      assert Follows(run[i - 1], run[i], steps[i - 1]);
      JobFrom(run[i - 1], steps[i - 1], p);
      if p in run[i - 1] {
        JobsWereSent(run, steps, i - 1, p);
      }
      if steps[i - 1].Send? && steps[i - 1].p == p {
        assert SentAt(run, steps, i - 1, p, run[i - 1][p].count, steps[i - 1].request);
      }
    }
  }

  /** A request moves from the wire to the host, and comes from nowhere else. */
  lemma JobFrom(s: System, step: Step, p: Pid)
    requires Enabled(s, step) && p in Apply(s, step)
    ensures var l' := Apply(s, step)[p];
            && (p !in s ==> l'.wire.None? && l'.host.busy.None?)
            && (p in s && l'.wire.Some? ==> l'.wire == s[p].wire || (step == Send(p, l'.wire.value.request) && l'.wire.value.id == s[p].count))
            && (p in s && l'.host.busy.Some? ==> l'.host.busy == s[p].host.busy || l'.host.busy == s[p].wire)
  {
  }

  /** The message is news, a clone's announcement, or an answer that fits the request the process has. */
  ghost predicate FitsHost(l: Link, p: Pid, m: Sent) {
    || m.answers.None?
    || (l.host.reborn && m.answers == Some(0) && (m.reply == Forked(p) || m.reply == Error))
    || (l.wire.Some? && m.answers == Some(l.wire.value.id) && Fits(l.wire.value.request, m.reply))
    || (l.host.busy.Some? && m.answers == Some(l.host.busy.value.id) && Fits(l.host.busy.value.request, m.reply))
  }

  /** A step adds nothing to a process's log, or one such message. */
  lemma StepAnswers(s: System, step: Step, p: Pid)
    requires Inv(s) && Enabled(s, step) && p in s
    ensures p in Apply(s, step)
    ensures var l, l' := s[p], Apply(s, step)[p];
            l'.log == l.log || (|l'.log| == |l.log| + 1 && l'.log[..|l.log|] == l.log && FitsHost(l, p, l'.log[|l.log|]))
  {
    assert LinkInv(s[p]);
  }

  /** Who has yet to announce itself is a clone. */
  lemma {:induction false} RebornIsClone(run: seq<System>, steps: seq<Step>, i: nat, p: Pid)
    requires IsRun(run, steps) && i < |run| && p in run[i] && run[i][p].host.reborn
    ensures IsClone(steps, run, i, p)
    decreases i
  {
    assert Follows(run[i - 1], run[i], steps[i - 1]);
    if p in run[i - 1] {
      RebornIsClone(run, steps, i - 1, p);
    }
  }

  /** The message answers a request of its own kind, or is the announcement a clone's owner waits for. */
  ghost predicate Fitting(run: seq<System>, steps: seq<Step>, i: nat, p: Pid, m: Sent)
    requires |run| == |steps| + 1
  {
    m.answers.Some? ==>
      || (exists request :: WasSent(run, steps, i, p, m.answers.value, request) && Fits(request, m.reply))
      || (m.answers.value == 0 && IsClone(steps, run, i, p) && (m.reply == Forked(p) || m.reply == Error))
  }

  /** In every run, every answer a host ever gave fits the request of its number. */
  lemma {:induction false} RepliesFitRequests(run: seq<System>, steps: seq<Step>, i: nat, p: Pid, n: nat)
    requires IsRun(run, steps) && i < |run| && p in run[i] && n < |run[i][p].log|
    ensures Fitting(run, steps, i, p, run[i][p].log[n])
    decreases i
  {
    hide Inv, Enabled, Apply, Fits;
    assert Follows(run[i - 1], run[i], steps[i - 1]);
    RunKeeps(run, steps, i - 1);
    BornWithoutWords(run[i - 1], steps[i - 1], p);
    StepAnswers(run[i - 1], steps[i - 1], p);
    var l := run[i - 1][p];
    var m := run[i][p].log[n];
    if n < |l.log| {
      RepliesFitRequests(run, steps, i - 1, p, n);
      assert m == l.log[n];
    } else {
      JobsWereSent(run, steps, i - 1, p);
      if l.host.reborn {
        RebornIsClone(run, steps, i - 1, p);
      }
    }
  }

  lemma BornWithoutWords(s: System, step: Step, p: Pid)
    requires Enabled(s, step) && p in Apply(s, step) && Apply(s, step)[p].log != []
    ensures p in s
  {
  }

  /** A channel's requests have numbers of their own. */
  lemma {:induction false} NumbersGrow(run: seq<System>, steps: seq<Step>, j: nat, i: nat, p: Pid)
    requires IsRun(run, steps) && j <= i < |run| && p in run[j]
    ensures p in run[i] && run[j][p].count <= run[i][p].count
    decreases i
  {
    if j < i {
      NumbersGrow(run, steps, j, i - 1, p);
      assert Follows(run[i - 1], run[i], steps[i - 1]);
    }
  }

  lemma NumberedOnce(run: seq<System>, steps: seq<Step>, j: nat, k: nat, p: Pid, id: nat, one: Request, other: Request)
    requires IsRun(run, steps) && SentAt(run, steps, j, p, id, one) && SentAt(run, steps, k, p, id, other)
    ensures j == k && one == other
  {
    if j < k {
      assert Follows(run[j], run[j + 1], steps[j]);
      NumbersGrow(run, steps, j + 1, k, p);
    } else if k < j {
      assert Follows(run[k], run[k + 1], steps[k]);
      NumbersGrow(run, steps, k + 1, j, p);
    }
  }

  /** Number 0 on a clone's channel is the announcement, which nobody sent for. */
  lemma ClonesCountFromOne(run: seq<System>, steps: seq<Step>, i: nat, p: Pid, j: nat)
    requires IsRun(run, steps) && i < |run| && IsClone(steps, run, i, p) && j < |run| && p in run[j]
    ensures run[j][p].count > 0
  {
    var k :| 0 <= k < i && k < |steps| && steps[k].Accept? && steps[k].child == p && p !in run[k] && p in run[k + 1];
    assert Follows(run[k], run[k + 1], steps[k]);
    if j <= k {
      StaysKnown(run, steps, j, k, p);
    } else {
      NumbersGrow(run, steps, k + 1, j, p);
    }
  }

  /**
   In every run, what `reply` returns after a request is of that request's
   kind: the message read answers the outstanding request, and fits the one
   the manager sent under that number.
   */
  lemma ReplyFitsRequest(run: seq<System>, steps: seq<Step>, i: nat, p: Pid, j: nat, request: Request)
    requires IsRun(run, steps) && i < |steps| && steps[i] == Read(p) && j < i
    requires p in run[i] && run[i][p].outstanding.Some? && run[i][p].read < |run[i][p].log|
    requires SentAt(run, steps, j, p, run[i][p].outstanding.value, request)
    ensures var m := run[i][p].log[run[i][p].read];
            Judge(m.reply) == Answer || m.reply == Error ==> Fits(request, m.reply)
  {
    var l := run[i][p];
    var m := l.log[l.read];
    RepliesPairWithRequests(run, steps, i, p);
    RepliesFitRequests(run, steps, i, p, l.read);
    if Judge(m.reply) == Answer || m.reply == Error {
      if IsClone(steps, run, i, p) {
        ClonesCountFromOne(run, steps, i, p, j);
      }
      var other :| WasSent(run, steps, i, p, m.answers.value, other) && Fits(other, m.reply);
      var k: nat :| k < i && SentAt(run, steps, k, p, m.answers.value, other);
      NumberedOnce(run, steps, j, k, p, m.answers.value, request, other);
    }
  }
}
