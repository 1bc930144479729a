/**
 The host's control loop as the code runs it, beside every other process and
 the manager: each turn of it is a run of the protocol's own steps.
 */
module HostLoop {
  import opened Wrappers
  import opened Control
  import Theorems = ControlTheorems

  /** The exits of `n` clones, said one after another. */
  function ChildrenExit(l: Link, n: nat): Link {
    if n == 0 then l else Says(ChildrenExit(l, n - 1), Exited(ChildRun), None)
  }

  function GuestGoes(l: Link): Link {
    Says(WithHost(l, l.host.(ended := true)), Exited(GuestRun), None)
  }

  /** One `tick`: the guest's exit ends the host before any clone's exit is looked for. */
  function Tick(l: Link, guestExited: bool, zombies: nat): Link {
    if l.host.phase != Frozen && l.host.guest && guestExited then GuestGoes(l) else ChildrenExit(l, zombies)
  }

  /**
   What a tick says and does: the guest's exit, once, and the host ends; or the
   exit of each clone that can be reaped, and nothing about the host changes.
   */
  lemma {:induction false} TickSays(l: Link, guestExited: bool, zombies: nat)
    ensures var l' := Tick(l, guestExited, zombies);
            if l.host.guest && guestExited && l.host.phase != Frozen
            then l'.host == l.host.(ended := true) && l'.log == l.log + [Sent(Exited(GuestRun), None)]
            else l'.host == l.host && l'.log == l.log + seq(zombies, i => Sent(Exited(ChildRun), None))
    decreases zombies
  {
    var said := seq(zombies, i => Sent(Exited(ChildRun), None));
    if !(l.host.guest && guestExited && l.host.phase != Frozen) {
      if zombies == 0 {
        assert said == [] && l.log + said == l.log;
      } else {
        TickSays(l, guestExited, zombies - 1);
        assert said == seq(zombies - 1, i => Sent(Exited(ChildRun), None)) + [Sent(Exited(ChildRun), None)];
      }
    }
  }

  // ----- the host's end of a link

  /** A link without the manager's end. */
  function EndOf(l: Link): Link {
    Link(l.host, l.wire, l.log, 0, None, 0, [])
  }

  /** A link with the host's end as `v` has it. */
  function Merge(l: Link, v: Link): Link {
    l.(host := v.host, wire := v.wire, log := v.log)
  }

  lemma HandleIsTheHosts(l: Link, job: Job, outcome: Outcome, child: Pid)
    ensures Merge(l, Handle(EndOf(l), job, outcome, child)) == Handle(l, job, outcome, child)
    ensures EndOf(Handle(l, job, outcome, child)) == Handle(EndOf(l), job, outcome, child)
  {
  }

  lemma CompleteIsTheHosts(l: Link, outcome: Outcome)
    requires l.host.busy.Some?
    ensures Merge(l, Complete(EndOf(l), outcome)) == Complete(l, outcome)
  {
  }

  lemma IntroduceIsTheHosts(l: Link, p: Pid, outcome: Outcome)
    ensures Merge(l, Introduce(EndOf(l), p, outcome)) == Introduce(l, p, outcome)
  {
  }

  lemma TickIsTheHosts(l: Link, guestExited: bool, zombies: nat)
    ensures Merge(l, Tick(EndOf(l), guestExited, zombies)) == Tick(l, guestExited, zombies)
    ensures TickSteps(EndOf(l), 0, guestExited, zombies) == TickSteps(l, 0, guestExited, zombies)
  {
    ChildrenAreTheHosts(l, zombies);
  }

  lemma {:induction false} ChildrenAreTheHosts(l: Link, n: nat)
    ensures Merge(l, ChildrenExit(EndOf(l), n)) == ChildrenExit(l, n)
  {
    ChildrenOnlyTalk(l, n);
    ChildrenOnlyTalk(EndOf(l), n);
    if n > 0 {
      ChildrenAreTheHosts(l, n - 1);
    }
  }

  // ----- everything else

  /** A step that only host `p` takes. */
  predicate OfHost(step: Step, p: Pid) {
    && step.p == p
    && (step.ChildExits? || step.GuestExits? || step.Accept? || step.Finish? || step.RefuseBusy? || step.Announce?
        || step.Slice?)
  }

  /** Steps of others leave a host and what it said alone. */
  lemma OthersLeave(s: System, step: Step, p: Pid)
    requires p in s && Enabled(s, step) && !OfHost(step, p)
    ensures p in Apply(s, step) && Apply(s, step)[p].host == s[p].host && Apply(s, step)[p].log == s[p].log
  {
  }

  /** States that follow one another by enabled steps, from any system. */
  ghost predicate Runs(states: seq<System>, steps: seq<Step>) {
    |states| == |steps| + 1 && forall i :: 0 <= i < |steps| ==> Theorems.Follows(states[i], states[i + 1], steps[i])
  }

  lemma {:induction false} ExtendRun(run: seq<System>, steps: seq<Step>, more: seq<Step>, t: System) returns (longer: seq<System>)
    requires Runs(run, steps) && Leads(run[|run| - 1], more, t)
    ensures Runs(longer, steps + more) && run <= longer && longer[|longer| - 1] == t
    decreases |more|
  {
    if more == [] {
      longer := run;
      assert steps + more == steps;
    } else {
      var s := run[|run| - 1];
      var next := run + [Apply(s, more[0])];
      var taken := steps + [more[0]];
      hide Enabled, Apply;
      forall i | 0 <= i < |taken|
        ensures Theorems.Follows(next[i], next[i + 1], taken[i])
      {
        if i < |steps| {
          assert Theorems.Follows(run[i], run[i + 1], steps[i]);
        }
      }
      longer := ExtendRun(next, taken, more[1..], t);
      assert taken + more[1..] == steps + more;
    }
  }

  /** All processes, channels and managers, and the run that led here from some system. */
  class World {
    var system: System
    ghost var states: seq<System>
    ghost var steps: seq<Step>

    ghost predicate Valid()
      reads this
    {
      Runs(states, steps) && system == states[|states| - 1]
    }

    constructor (system: System)
      ensures Valid() && this.system == system && states == [system] && steps == []
    {
      this.system, this.states, this.steps := system, [system], [];
    }

    /** The world goes on by enabled steps, and the run with it. */
    method Advance(after: System, ghost more: seq<Step>)
      requires Valid() && Leads(system, more, after)
      modifies this
      ensures Valid() && system == after && steps == old(steps) + more && old(states) <= states
    {
      hide Leads, Runs;
      ghost var longer := ExtendRun(states, steps, more, after);
      system, states, steps := after, longer, steps + more;
    }

    /** What the others do meanwhile: of these steps, those that are not `p`'s and can be taken. */
    method Others(p: Pid, others: seq<Step>) returns (ghost theirs: seq<Step>)
      requires Valid() && p in system
      modifies this
      ensures Valid() && steps == old(steps) + theirs && old(states) <= states
      ensures forall i :: 0 <= i < |theirs| ==> theirs[i] in others && !OfHost(theirs[i], p)
      ensures p in system && system[p].host == old(system)[p].host && system[p].log == old(system)[p].log
    {
      hide Leads, Runs;
      theirs := [];
      for i := 0 to |others|
        invariant Valid() && steps == old(steps) + theirs && old(states) <= states
        invariant forall j :: 0 <= j < |theirs| ==> theirs[j] in others && !OfHost(theirs[j], p)
        invariant p in system && system[p].host == old(system)[p].host && system[p].log == old(system)[p].log
      {
        var step := others[i];
        if Enabled(system, step) && !OfHost(step, p) {
          OneStep(system, step);
          OthersLeave(system, step, p);
          Advance(Apply(system, step), [step]);
          assert old(steps) + (theirs + [step]) == old(steps) + theirs + [step];
          theirs := theirs + [step];
        }
      }
    }
  }

  /** The turn accepts the request and, if that started a run it saw the end of, ends with its answer. */
  ghost predicate Settles(p: Pid, turn: Turn, rest: seq<Step>) {
    && rest != [] && rest[0].Accept? && rest[0].p == p && rest[0].child == turn.child
    && (rest[0].outcome == turn.outcome || rest[0].outcome == Bad)
    && (forall i :: 1 <= i < |rest| && OfHost(rest[i], p) ==>
          rest[i].ChildExits? || rest[i].GuestExits? || rest[i].RefuseBusy? || rest[i] == Finish(p, turn.result))
  }

  /** Of the host's own steps, only exits and refusals. */
  ghost predicate OnlyWaits(steps: seq<Step>, p: Pid) {
    forall i :: 0 <= i < |steps| && OfHost(steps[i], p) ==>
      steps[i].ChildExits? || steps[i].GuestExits? || steps[i].RefuseBusy?
  }

  /** What a wait for a run meets next, or the end of the run. */
  datatype Wake = Woken(others: seq<Step>, guestExited: bool, zombies: nat) | Over

  /** One turn of the loop: what the others did, what there is to reap, and what comes of a request. */
  datatype Turn = Turn(others: seq<Step>, guestExited: bool, zombies: nat, outcome: Outcome, child: Pid,
                       wakes: seq<Wake>, result: Outcome, done: bool)

  /** One host process: its phase, its guest, the request in its channel, and what it said. */
  class HostProcess {
    var phase: Phase
    var guest: bool
    var scanning: bool
    var reborn: bool
    var busy: Option<Job>
    var ended: bool
    var wire: Option<Job>
    var log: seq<Sent>

    constructor ()
      ensures View() == Link(Host(Fresh, false, false, false, None, false), None, [], 0, None, 0, [])
    {
      phase, guest, scanning, reborn, busy, ended, wire, log := Fresh, false, false, false, None, false, None, [];
    }

    /** This end of the link; the manager's end is left blank. */
    ghost function View(): Link
      reads this
    {
      Link(Host(phase, guest, scanning, reborn, busy, ended), wire, log, 0, None, 0, [])
    }

    method Send(reply: Reply, answers: Option<nat>)
      modifies this`log
      ensures log == old(log) + [Sent(reply, answers)]
    {
      log := log + [Sent(reply, answers)];
    }

    // ----- between requests

    /** `tick`: at most one exit of the guest, or every clone that can be reaped. */
    method DoTick(guestExited: bool, zombies: nat) returns (end: bool)
      modifies this
      ensures View() == Tick(old(View()), guestExited, zombies)
      ensures end <==> old(phase) != Frozen && old(guest) && guestExited
    {
      if phase != Frozen && guest && guestExited {
        Send(Exited(GuestRun), None);
        ended := true;
        return true;
      }
      for i := 0 to zombies
        invariant View() == ChildrenExit(old(View()), i)
      {
        Send(Exited(ChildRun), None);
      }
      return false;
    }

    /** `compact`: a slice of the scan, if one is under way. */
    method Compact(done: bool)
      modifies this`scanning
      ensures scanning == (old(scanning) && !done)
      ensures old(scanning) ==> View() == WithHost(old(View()), old(View()).host.(scanning := !done))
    {
      if scanning && done {
        scanning := false;
      }
    }

    // ----- requests

    method Refused(id: nat)
      modifies this
      ensures View() == Refuse(old(View()), id)
    {
      wire := None;
      Send(Error, Some(id));
    }

    method DoPrepare(job: Job, outcome: Outcome, child: Pid)
      requires job.request == Prepare
      modifies this
      ensures View() == Handle(old(View()), job, outcome, child)
    {
      if phase != Fresh || outcome == Bad {
        Refused(job.id);
        return;
      }
      wire := None;
      if outcome != Immediate {
        busy := Some(job);
        return;
      }
      phase := Prepared;
      Send(Exited(PrepareRun), Some(job.id));
    }

    method DoStart(job: Job, outcome: Outcome, child: Pid)
      requires job.request == Start
      modifies this
      ensures View() == Handle(old(View()), job, outcome, child)
    {
      if (phase != Fresh && phase != Prepared) || outcome == Bad {
        Refused(job.id);
        return;
      }
      wire, guest, phase, busy := None, true, Running(false), Some(job);
    }

    method DoInitialize(job: Job, outcome: Outcome, child: Pid)
      requires job.request == Initialize
      modifies this
      ensures View() == Handle(old(View()), job, outcome, child)
    {
      if phase != Running(true) || outcome == Bad {
        Refused(job.id);
        return;
      }
      wire, busy := None, Some(job);
    }

    method DoFreeze(job: Job, outcome: Outcome, child: Pid)
      requires job.request == Freeze
      modifies this
      ensures View() == Handle(old(View()), job, outcome, child)
    {
      if phase != Running(true) {
        Refused(job.id);
        return;
      }
      // Terminal from here, whatever happens.
      phase := Frozen;
      if outcome == Bad {
        Refused(job.id);
        ended := true;
        return;
      }
      wire := None;
      Send(FrozenReply, Some(job.id));
      scanning := true;
    }

    /** `fork` in the parent. */
    method DoFork(job: Job, outcome: Outcome, child: Pid)
      requires job.request == Fork
      modifies this
      ensures View() == Handle(old(View()), job, outcome, child)
    {
      if phase != Frozen || outcome == Bad {
        Refused(job.id);
        return;
      }
      wire := None;
      Send(Forked(child), Some(job.id));
    }

    /** `handle`. */
    method DoHandle(job: Job, outcome: Outcome, child: Pid)
      modifies this
      ensures View() == Handle(old(View()), job, outcome, child)
    {
      match job.request
      case Prepare => DoPrepare(job, outcome, child);
      case Start => DoStart(job, outcome, child);
      case Initialize => DoInitialize(job, outcome, child);
      case Freeze => DoFreeze(job, outcome, child);
      case Fork => DoFork(job, outcome, child);
      case Stop => wire, ended := None, true;
    }

    /** A clone's first words: the inherited scan is dropped, or the host ends. */
    method Introduced(pid: Pid, outcome: Outcome)
      modifies this
      ensures View() == Introduce(old(View()), pid, outcome)
    {
      reborn := false;
      if outcome == Bad {
        Send(Error, Some(0));
        ended := true;
        return;
      }
      scanning := false;
      if outcome == NoEndpoint {
        ended := true;
        return;
      }
      Send(Forked(pid), Some(0));
    }

    // ----- runs

    /** The answer to the request that waited for a run. */
    method FinishRun(outcome: Outcome)
      requires busy.Some?
      modifies this
      ensures View() == Complete(old(View()), outcome)
    {
      var job := busy.value;
      busy := None;
      match job.request
      case Prepare =>
        phase := Prepared;
        Send(Exited(PrepareRun), Some(job.id));
      case Start =>
        if outcome == Bad {
          Send(Error, Some(job.id));
        } else if outcome == GuestDied {
          Send(Exited(GuestRun), Some(job.id));
        } else {
          phase := Running(true);
          Send(if outcome == NoEndpoint then Error else Ready, Some(job.id));
        }
      case _ =>
        Send(Exited(InitializerRun), Some(job.id));
    }

    // ----- the loop

    /** This end of the link is the world's. */
    ghost predicate Mirrors(w: World, p: Pid)
      reads this, w
    {
      w.Valid() && p in w.system && EndOf(w.system[p]) == View()
    }

    /** Between requests, with nothing to wait for. */
    ghost predicate Serving()
      reads this
    {
      !ended && !reborn && busy.None?
    }

    /** Others act; the channel may hold a request afterwards. */
    method Hear(w: World, p: Pid, others: seq<Step>) returns (ghost theirs: seq<Step>)
      requires Mirrors(w, p)
      modifies this`wire, w
      ensures Mirrors(w, p) && w.steps == old(w.steps) + theirs && old(w.states) <= w.states
      ensures forall i :: 0 <= i < |theirs| ==> theirs[i] in others && !OfHost(theirs[i], p)
    {
      hide Runs;
      theirs := w.Others(p, others);
      wire := w.system[p].wire;
    }

    method TickTurn(w: World, p: Pid, guestExited: bool, zombies: nat) returns (end: bool)
      requires Mirrors(w, p) && Ticking(View().host)
      modifies this, w
      ensures Mirrors(w, p) && old(w.states) <= w.states
      ensures w.steps == old(w.steps) + TickSteps(old(w.system)[p], p, guestExited, zombies)
      ensures w.system == old(w.system)[p := Tick(old(w.system)[p], guestExited, zombies)]
      ensures end <==> ended
      ensures View() == old(View()).(host := old(View()).host.(ended := ended), log := log)
    {
      hide Runs, Leads, TickSteps, Tick;
      ghost var l := w.system[p];
      TickIsSteps(w.system, p, guestExited, zombies);
      TickIsTheHosts(l, guestExited, zombies);
      TickOnlyTalks(View(), guestExited, zombies);
      end := DoTick(guestExited, zombies);
      var link := w.system[p];
      var after := w.system[p := link.(host := Host(phase, guest, scanning, reborn, busy, ended), wire := wire, log := log)];
      w.Advance(after, TickSteps(l, p, guestExited, zombies));
    }

    /** A quiet turn: a slice of the scan. */
    method SliceTurn(w: World, p: Pid, done: bool)
      requires Mirrors(w, p) && Serving()
      modifies this, w
      ensures Mirrors(w, p) && Serving() && old(w.states) <= w.states
      ensures w.steps == old(w.steps) + if old(scanning) then [Slice(p, done)] else []
    {
      hide Runs, Leads;
      if scanning {
        ghost var step := Slice(p, done);
        OneStep(w.system, step);
        Compact(done);
        var link := w.system[p];
        w.Advance(w.system[p := link.(host := Host(phase, guest, scanning, reborn, busy, ended))], [step]);
      }
    }

    /** A request: a fork whose child has no new number does not happen. */
    method HandleTurn(w: World, p: Pid, outcome: Outcome, child: Pid)
      requires Mirrors(w, p) && Serving() && wire.Some?
      modifies this, w
      ensures Mirrors(w, p) && !reborn && old(w.states) <= w.states
      ensures w.steps == old(w.steps) + [Accept(p, if child in old(w.system) then Bad else outcome, child)]
    {
      hide Runs, Leads;
      var came := if child in w.system then Bad else outcome;
      var job := wire.value;
      ghost var step := Accept(p, came, child);
      OneStep(w.system, step);
      HandleIsTheHosts(w.system[p], job, came, child);
      var link := w.system[p];
      var forks := Forks(link, job, came);
      DoHandle(job, came, child);
      var after := w.system[p := link.(host := Host(phase, guest, scanning, reborn, busy, ended), wire := wire, log := log)];
      if forks {
        after := after[child := Reborn(link)];
      }
      w.Advance(after, [step]);
    }

    /**
     A request that comes while a run is under way is refused, or ends the host.
     In a world that began empty none comes: a manager sends its next request
     when it has the last one's answer (`ControlTheorems.NeverRefusedAsBusy`).
     */
    method RefuseTurn(w: World, p: Pid)
      requires Mirrors(w, p) && !ended && !reborn && busy.Some? && wire.Some?
      modifies this, w
      ensures Mirrors(w, p) && !reborn && busy == old(busy) && old(w.states) <= w.states
      ensures w.steps == old(w.steps) + [RefuseBusy(p)]
    {
      hide Runs, Leads;
      ghost var step := RefuseBusy(p);
      OneStep(w.system, step);
      var link := w.system[p];
      if wire.value.request == Stop {
        wire, ended := None, true;
      } else {
        Refused(wire.value.id);
      }
      w.Advance(w.system[p := link.(host := Host(phase, guest, scanning, reborn, busy, ended), wire := wire, log := log)], [step]);
    }

    /** One wake of a wait; the wait of `start` does not tick. */
    method WakeTurn(w: World, p: Pid, others: seq<Step>, guestExited: bool, zombies: nat)
      requires Mirrors(w, p) && !ended && !reborn && busy.Some?
      modifies this, w
      ensures Mirrors(w, p) && !reborn && busy == old(busy) && old(w.states) <= w.states
      ensures old(w.steps) <= w.steps && OnlyWaits(w.steps[|old(w.steps)|..], p)
    {
      hide Runs, Leads, Tick;
      ghost var theirs := Hear(w, p, others);
      ghost var ticks: seq<Step>, refusal: seq<Step> := [], [];
      if busy.value.request != Start {
        ticks := TickSteps(w.system[p], p, guestExited, zombies);
        var end := TickTurn(w, p, guestExited, zombies);
      }
      if !ended && wire.Some? {
        RefuseTurn(w, p);
        refusal := [RefuseBusy(p)];
      }
      assert w.steps[|old(w.steps)|..] == theirs + ticks + refusal;
    }

    /** `wait_run`, and the wait of `start`: until the run ends, or the host does. */
    method WaitTurns(w: World, p: Pid, wakes: seq<Wake>)
      requires Mirrors(w, p) && !ended && !reborn && busy.Some?
      modifies this, w
      ensures Mirrors(w, p) && !reborn && busy == old(busy) && old(w.states) <= w.states
      ensures old(w.steps) <= w.steps && OnlyWaits(w.steps[|old(w.steps)|..], p)
    {
      hide Runs, Leads, OfHost;
      ghost var was := w.steps;
      for i := 0 to |wakes|
        invariant Mirrors(w, p) && !ended && !reborn && busy == old(busy) && old(w.states) <= w.states
        invariant was <= w.steps && OnlyWaits(w.steps[|was|..], p)
      {
        match wakes[i] {
          case Over =>
            return;
          case Woken(others, guestExited, zombies) =>
            ghost var before := w.steps;
            WakeTurn(w, p, others, guestExited, zombies);
            assert w.steps[|was|..] == before[|was|..] + w.steps[|before|..];
            if ended {
              return;
            }
        }
      }
    }

    method FinishTurn(w: World, p: Pid, outcome: Outcome)
      requires Mirrors(w, p) && !ended && !reborn && busy.Some?
      modifies this, w
      ensures Mirrors(w, p) && Serving() && old(w.states) <= w.states
      ensures w.steps == old(w.steps) + [Finish(p, outcome)]
    {
      hide Runs, Leads;
      ghost var step := Finish(p, outcome);
      OneStep(w.system, step);
      CompleteIsTheHosts(w.system[p], outcome);
      var link := w.system[p];
      FinishRun(outcome);
      w.Advance(w.system[p := link.(host := Host(phase, guest, scanning, reborn, busy, ended), wire := wire, log := log)], [step]);
    }

    /**
     One turn of `serve`: the others' steps, a tick, and then a slice when the
     channel is quiet or a request when it is not. `heard` is the world after
     the others; `rest` is what the turn does after its tick.
     */
    method ServeTurn(w: World, p: Pid, turn: Turn)
      returns (ghost theirs: seq<Step>, ghost heard: System, ghost rest: seq<Step>)
      requires Mirrors(w, p) && Serving()
      modifies this, w
      ensures Mirrors(w, p) && (ended || Serving()) && old(w.states) <= w.states
      ensures p in heard && forall i :: 0 <= i < |theirs| ==> !OfHost(theirs[i], p)
      ensures w.steps == old(w.steps) + theirs + TickSteps(heard[p], p, turn.guestExited, turn.zombies) + rest
      ensures if Tick(heard[p], turn.guestExited, turn.zombies).host.ended then rest == []
              else if heard[p].wire.None? then rest == if heard[p].host.scanning then [Slice(p, turn.done)] else []
              else Settles(p, turn, rest)
    {
      hide Runs, TickSteps, Tick, Settles;
      theirs := Hear(w, p, turn.others);
      heard, rest := w.system, [];
      TickOnlyTalks(heard[p], turn.guestExited, turn.zombies);
      var end := TickTurn(w, p, turn.guestExited, turn.zombies);
      if end {
        return;
      }
      ghost var ticked := w.steps;
      if wire.None? {
        SliceTurn(w, p, turn.done);
        rest := if heard[p].host.scanning then [Slice(p, turn.done)] else [];
        return;
      }
      rest := AnswerTurn(w, p, turn);
      assert w.steps == ticked + rest;
    }

    /** A request, and the wait for the run it starts. */
    method AnswerTurn(w: World, p: Pid, turn: Turn) returns (ghost rest: seq<Step>)
      requires Mirrors(w, p) && Serving() && wire.Some?
      modifies this, w
      ensures Mirrors(w, p) && (ended || Serving()) && old(w.states) <= w.states
      ensures w.steps == old(w.steps) + rest && Settles(p, turn, rest)
    {
      hide Runs;
      ghost var was := w.steps;
      HandleTurn(w, p, turn.outcome, turn.child);
      ghost var accepted := w.steps;
      rest := w.steps[|was|..];
      if ended || busy.None? {
        return;
      }
      WaitTurns(w, p, turn.wakes);
      rest := w.steps[|was|..];
      assert rest == [accepted[|was|]] + w.steps[|accepted|..];
      if !ended {
        ghost var waited := rest;
        FinishTurn(w, p, turn.result);
        rest := w.steps[|was|..];
        assert rest == waited + [Finish(p, turn.result)];
      }
    }

    /**
     `serve`. Whatever the others do between its turns and while it waits, the
     world goes on by the protocol's enabled steps only, and this process's
     state and messages are the protocol's. So what holds of all runs holds of
     the loop: from an empty world, its phase only moves forward.
     */
    method Serve(w: World, p: Pid, schedule: seq<Turn>)
      requires Mirrors(w, p) && Serving()
      modifies this, w
      ensures Mirrors(w, p) && (ended || Serving()) && old(w.steps) <= w.steps && old(w.states) <= w.states
      ensures w.states[0] == map[] ==> Theorems.IsRun(w.states, w.steps)
      ensures w.states[0] == map[] ==>
                Theorems.Rank(old(phase)) <= Theorems.Rank(phase) && (old(phase) == Frozen ==> phase == Frozen)
    {
      ServeTurns(w, p, schedule);
      if w.states[0] == map[] {
        Theorems.PhasesOnlyAdvance(w.states, w.steps, |old(w.states)| - 1, |w.states| - 1, p);
      }
    }

    method ServeTurns(w: World, p: Pid, schedule: seq<Turn>)
      requires Mirrors(w, p) && Serving()
      modifies this, w
      ensures Mirrors(w, p) && (ended || Serving()) && old(w.steps) <= w.steps && old(w.states) <= w.states
    {
      hide Runs;
      for i := 0 to |schedule|
        invariant Mirrors(w, p) && Serving() && old(w.steps) <= w.steps && old(w.states) <= w.states
      {
        ghost var theirs, heard, rest := ServeTurn(w, p, schedule[i]);
        if ended {
          return;
        }
      }
    }

    /** The child's side of a fork: it says who it is, or why it cannot serve, and goes on in the loop. */
    method ServeAsClone(w: World, p: Pid, outcome: Outcome, schedule: seq<Turn>)
      requires Mirrors(w, p) && !ended && reborn && busy.None?
      modifies this, w
      ensures Mirrors(w, p) && (ended || Serving()) && old(w.steps) <= w.steps && old(w.states) <= w.states
    {
      hide Runs;
      ghost var step := Announce(p, outcome);
      OneStep(w.system, step);
      IntroduceIsTheHosts(w.system[p], p, outcome);
      var link := w.system[p];
      Introduced(p, outcome);
      w.Advance(w.system[p := link.(host := Host(phase, guest, scanning, reborn, busy, ended), wire := wire, log := log)], [step]);
      if !ended {
        Serve(w, p, schedule);
      }
    }
  }

  lemma TickOnlyTalks(l: Link, guestExited: bool, zombies: nat)
    ensures var t := Tick(l, guestExited, zombies);
            && t.host == l.host.(ended := t.host.ended) && t == l.(host := t.host, log := t.log)
            && (!l.host.ended ==> (t.host.ended <==> l.host.phase != Frozen && l.host.guest && guestExited))
  {
    ChildrenOnlyTalk(l, zombies);
  }

  lemma {:induction false} ChildrenOnlyTalk(l: Link, n: nat)
    ensures ChildrenExit(l, n).host == l.host && |ChildrenExit(l, n).log| == |l.log| + n
    ensures ChildrenExit(l, n) == l.(log := ChildrenExit(l, n).log)
  {
    if n > 0 {
      ChildrenOnlyTalk(l, n - 1);
    }
  }

  // ----- the same, step by step

  /** Applying the steps one after another, while they are enabled. */
  ghost predicate Leads(s: System, steps: seq<Step>, t: System)
    decreases |steps|
  {
    if steps == [] then s == t else Enabled(s, steps[0]) && Leads(Apply(s, steps[0]), steps[1..], t)
  }

  /** The protocol's steps that a tick takes. */
  function TickSteps(l: Link, p: Pid, guestExited: bool, zombies: nat): seq<Step> {
    if l.host.phase != Frozen && l.host.guest && guestExited then [GuestExits(p)] else seq(zombies, i => ChildExits(p))
  }

  /** A tick is a run of the protocol's own steps. */
  lemma {:induction false} TickIsSteps(s: System, p: Pid, guestExited: bool, zombies: nat)
    requires p in s && Ticking(s[p].host)
    ensures Leads(s, TickSteps(s[p], p, guestExited, zombies), s[p := Tick(s[p], guestExited, zombies)])
    decreases zombies
  {
    var l := s[p];
    var steps := TickSteps(l, p, guestExited, zombies);
    if l.host.phase != Frozen && l.host.guest && guestExited {
      OneStep(s, GuestExits(p));
    } else if zombies == 0 {
      assert s[p := l] == s && steps == [];
    } else {
      ExitFirst(l, zombies);
      var t := Apply(s, ChildExits(p));
      TickIsSteps(t, p, guestExited, zombies - 1);
      assert steps[0] == ChildExits(p) && steps[1..] == TickSteps(t[p], p, guestExited, zombies - 1);
      assert t[p := Tick(t[p], guestExited, zombies - 1)] == s[p := Tick(l, guestExited, zombies)];
    }
  }

  lemma OneStep(s: System, step: Step)
    requires Enabled(s, step)
    ensures Leads(s, [step], Apply(s, step))
  {
    assert [step][1..] == [];
    assert Leads(Apply(s, step), [], Apply(s, step));
  }

  /** Exits are said in order, whichever is taken off first. */
  lemma {:induction false} ExitFirst(l: Link, n: nat)
    requires n > 0
    ensures ChildrenExit(l, n) == ChildrenExit(Says(l, Exited(ChildRun), None), n - 1)
  {
    if n > 1 {
      ExitFirst(l, n - 1);
    }
  }
}
