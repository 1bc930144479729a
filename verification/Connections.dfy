/**
 The guest's connections: accepted in two steps and dropped in two, with
 descriptor numbers that the kernel uses again, and the shutdown that a freeze
 asks for.
 */
module Connections {
  import opened Wrappers

  type Fd = nat
  type StreamId = nat

  /** What a descriptor number stands for in the process. */
  datatype Socket = Listener | Stream(id: StreamId) | Other

  /** Accepted and not yet tracked; held by the guest; forgotten and not yet closed; closed. */
  datatype Phase = Accepted | Held | Forgotten | Closed

  /** `outbound` streams come from `connect_tcp`, the others from `try_accept`. */
  datatype Connection = Connection(fd: Fd, phase: Phase, outbound: bool)

  /** `tracked` is the set of numbers in `Connections`; `shut` the streams that were shut down both ways. */
  datatype Net = Net(open: map<Fd, Socket>, streams: map<StreamId, Connection>, tracked: set<Fd>,
                     listener: Option<Fd>, refusing: bool, shut: set<StreamId>)

  /** What `shutdown` answers for a number. */
  datatype Answer = Fine | NotConnected | Error

  datatype Step =
    | Adopt(fd: Fd)
    | Accept(id: StreamId, fd: Fd)
    | Track(id: StreamId)
    | Connect(id: StreamId, fd: Fd)
    | Forget(id: StreamId)
    | Close(id: StreamId)
    | OpenOther(fd: Fd)
    | CloseOther(fd: Fd)
    | ShutDown(answers: map<Fd, Answer>, reached: set<Fd>)

  function PutStream(n: Net, id: StreamId, c: Connection): Net {
    n.(streams := n.streams[id := c])
  }

  /** The connection open under a number, if it is one. */
  function StreamAt(n: Net, fd: Fd): Option<StreamId> {
    if fd in n.open && n.open[fd].Stream? then Some(n.open[fd].id) else None
  }

  /** A number whose shutdown fails: not open, or refused for another reason than not being connected. */
  predicate Fails(n: Net, answers: map<Fd, Answer>, fd: Fd) {
    fd !in n.open || (fd in answers && answers[fd] == Error)
  }

  /** The streams behind a set of numbers. */
  function Behind(n: Net, fds: set<Fd>): set<StreamId> {
    set fd | fd in fds && StreamAt(n, fd).Some? :: StreamAt(n, fd).value
  }

  predicate ListenerFails(n: Net, answers: map<Fd, Answer>) {
    n.listener.Some? && Fails(n, answers, n.listener.value)
  }

  /** `shut_down_sockets` succeeds. */
  predicate Succeeds(n: Net, answers: map<Fd, Answer>) {
    !ListenerFails(n, answers) && forall fd :: fd in n.tracked ==> !Fails(n, answers, fd)
  }

  /** The numbers shut before the first failure: all of them on success, some without it. */
  predicate Reachable(n: Net, answers: map<Fd, Answer>, reached: set<Fd>) {
    && reached <= n.tracked
    && (forall fd :: fd in reached ==> !Fails(n, answers, fd))
    && (ListenerFails(n, answers) ==> reached == {})
    && (Succeeds(n, answers) ==> reached == n.tracked)
  }

  predicate Enabled(n: Net, step: Step) {
    match step
    case Adopt(fd) => n.listener.None? && fd !in n.open
    case Accept(id, fd) => n.listener.Some? && !n.refusing && id !in n.streams && fd !in n.open
    case Track(id) => id in n.streams && n.streams[id].phase == Accepted
    case Connect(id, fd) => id !in n.streams && fd !in n.open
    case Forget(id) => id in n.streams && n.streams[id].phase == Held && !n.streams[id].outbound
    case Close(id) =>
      id in n.streams && (n.streams[id].phase == Forgotten || (n.streams[id].phase == Held && n.streams[id].outbound))
    case OpenOther(fd) => fd !in n.open
    case CloseOther(fd) => fd in n.open && n.open[fd].Other?
    case ShutDown(answers, reached) => Reachable(n, answers, reached)
  }

  function Apply(n: Net, step: Step): Net
    requires Enabled(n, step)
  {
    match step
    case Adopt(fd) => n.(open := n.open[fd := Listener], listener := Some(fd))
    case Accept(id, fd) => PutStream(n.(open := n.open[fd := Stream(id)]), id, Connection(fd, Accepted, false))
    case Track(id) => PutStream(n.(tracked := n.tracked + {n.streams[id].fd}), id, n.streams[id].(phase := Held))
    case Connect(id, fd) => PutStream(n.(open := n.open[fd := Stream(id)]), id, Connection(fd, Held, true))
    case Forget(id) => PutStream(n.(tracked := n.tracked - {n.streams[id].fd}), id, n.streams[id].(phase := Forgotten))
    case Close(id) => PutStream(n.(open := n.open - {n.streams[id].fd}), id, n.streams[id].(phase := Closed))
    case OpenOther(fd) => n.(open := n.open[fd := Other])
    case CloseOther(fd) => n.(open := n.open - {fd})
    case ShutDown(answers, reached) =>
      n.(refusing := n.refusing || (n.listener.Some? && !ListenerFails(n, answers)), shut := n.shut + Behind(n, reached))
  }

  const EMPTY: Net := Net(map[], map[], {}, None, false, {})

  ghost predicate Steps(run: seq<Net>, steps: seq<Step>, i: nat) {
    i < |steps| && i + 1 < |run| && Enabled(run[i], steps[i]) && run[i + 1] == Apply(run[i], steps[i])
  }

  ghost predicate IsRun(run: seq<Net>, steps: seq<Step>) {
    |run| == |steps| + 1 && run[0] == EMPTY && forall i :: 0 <= i < |steps| ==> Steps(run, steps, i)
  }

  // ----- what every run keeps

  /** A stream that is not closed has its number, and is tracked under it exactly while the guest holds it. */
  ghost predicate StreamOk(n: Net, id: StreamId)
    requires id in n.streams
  {
    var c := n.streams[id];
    && (c.phase != Closed ==> c.fd in n.open && n.open[c.fd] == Stream(id))
    && (c.phase == Held && !c.outbound ==> c.fd in n.tracked)
    && (c.outbound ==> c.phase == Held || c.phase == Closed)
    && (c.phase != Closed && (c.outbound || c.phase != Held) ==> c.fd !in n.tracked)
  }

  /** A tracked number is open as a connection that the guest accepted and holds. */
  ghost predicate TrackedOk(n: Net, fd: Fd) {
    && fd in n.open && n.open[fd].Stream? && n.open[fd].id in n.streams
    && n.streams[n.open[fd].id] == Connection(fd, Held, false)
  }

  ghost predicate OpenOk(n: Net, fd: Fd)
    requires fd in n.open
  {
    n.open[fd].Stream? ==> n.open[fd].id in n.streams && n.streams[n.open[fd].id].fd == fd
                           && n.streams[n.open[fd].id].phase != Closed
  }

  ghost predicate Inv(n: Net) {
    && (forall id :: id in n.streams ==> StreamOk(n, id))
    && (forall fd :: fd in n.tracked ==> TrackedOk(n, fd))
    && (forall fd :: fd in n.open ==> OpenOk(n, fd))
    && (n.listener.Some? ==> n.listener.value in n.open && n.open[n.listener.value].Listener?)
    && (forall id :: id in n.shut ==> id in n.streams && !n.streams[id].outbound)
  }

  lemma StepStreams(n: Net, step: Step)
    requires Inv(n) && Enabled(n, step)
    ensures forall id :: id in Apply(n, step).streams ==> StreamOk(Apply(n, step), id)
  {
    var after := Apply(n, step);
    forall id | id in after.streams
      ensures StreamOk(after, id)
    {
      assert id in n.streams ==> StreamOk(n, id);
      if step.Track? || step.Forget? || step.Close? {
        assert StreamOk(n, step.id);
      }
    }
  }

  lemma StepTracked(n: Net, step: Step)
    requires Inv(n) && Enabled(n, step)
    ensures forall fd :: fd in Apply(n, step).tracked ==> TrackedOk(Apply(n, step), fd)
  {
    var after := Apply(n, step);
    forall fd | fd in after.tracked
      ensures TrackedOk(after, fd)
    {
      assert fd in n.tracked ==> TrackedOk(n, fd);
      if step.Track? || step.Forget? || step.Close? {
        assert StreamOk(n, step.id);
      }
    }
  }

  lemma StepOpen(n: Net, step: Step)
    requires Inv(n) && Enabled(n, step)
    ensures forall fd :: fd in Apply(n, step).open ==> OpenOk(Apply(n, step), fd)
    ensures Apply(n, step).listener.Some? ==>
              Apply(n, step).listener.value in Apply(n, step).open && Apply(n, step).open[Apply(n, step).listener.value].Listener?
  {
    var after := Apply(n, step);
    if step.Close? {
      assert StreamOk(n, step.id);
    }
    forall fd | fd in after.open
      ensures OpenOk(after, fd)
    {
      assert fd in n.open ==> OpenOk(n, fd);
    }
  }

  /** Only accepted connections are ever shut down. */
  lemma StepShut(n: Net, step: Step)
    requires Inv(n) && Enabled(n, step)
    ensures forall id :: id in Apply(n, step).shut ==> id in Apply(n, step).streams && !Apply(n, step).streams[id].outbound
  {
    if step.ShutDown? {
      forall id | id in Behind(n, step.reached)
        ensures id in n.streams && !n.streams[id].outbound
      {
        var fd :| fd in step.reached && StreamAt(n, fd) == Some(id);
        assert TrackedOk(n, fd);
      }
    }
  }

  lemma {:induction false} RunKeeps(run: seq<Net>, steps: seq<Step>, n: nat)
    requires IsRun(run, steps) && n < |run|
    ensures Inv(run[n])
    decreases n
  {
    if n > 0 {
      RunKeeps(run, steps, n - 1);
      assert Steps(run, steps, n - 1);
      hide Apply;
      StepStreams(run[n - 1], steps[n - 1]);
      StepTracked(run[n - 1], steps[n - 1]);
      StepOpen(run[n - 1], steps[n - 1]);
      StepShut(run[n - 1], steps[n - 1]);
    }
  }

  // ----- theorems

  /** In every run, with numbers used again, a number is tracked exactly while it is that of an accepted stream the guest holds. */
  lemma TrackedExactly(run: seq<Net>, steps: seq<Step>, n: nat, fd: Fd)
    requires IsRun(run, steps) && n < |run|
    ensures fd in run[n].tracked <==>
              && fd in run[n].open && run[n].open[fd].Stream? && run[n].open[fd].id in run[n].streams
              && run[n].streams[run[n].open[fd].id] == Connection(fd, Held, false)
  {
    RunKeeps(run, steps, n);
    if fd in run[n].tracked {
      assert TrackedOk(run[n], fd);
    } else if fd in run[n].open && run[n].open[fd].Stream? && run[n].open[fd].id in run[n].streams {
      assert StreamOk(run[n], run[n].open[fd].id);
    }
  }

  /** No stream is between the two steps of being accepted or of being dropped. */
  ghost predicate Settled(n: Net) {
    forall id :: id in n.streams ==> n.streams[id].phase == Held || n.streams[id].phase == Closed
  }

  /** The guest has the connection. */
  predicate Has(n: Net, id: StreamId) {
    id in n.streams && n.streams[id].phase != Closed
  }

  /**
   In every run, a shutdown that succeeds shuts every accepted connection that
   is held, touches no connection that is not held, and makes the listener
   refuse. With no step in flight it reaches every connection the guest has
   exactly when none of them is outbound.
   */
  lemma ShutDownReaches(run: seq<Net>, steps: seq<Step>, n: nat, answers: map<Fd, Answer>)
    requires IsRun(run, steps) && n < |run| && Succeeds(run[n], answers)
    ensures Enabled(run[n], ShutDown(answers, run[n].tracked))
    ensures var after := Apply(run[n], ShutDown(answers, run[n].tracked));
            && (forall id :: id in run[n].streams && run[n].streams[id].phase == Held && !run[n].streams[id].outbound ==>
                  id in after.shut)
            && (forall id :: id in after.shut && id !in run[n].shut ==>
                  id in run[n].streams && run[n].streams[id].phase == Held && !run[n].streams[id].outbound)
            && (run[n].listener.Some? ==> after.refusing)
            && (Settled(run[n]) ==>
                  ((forall id :: Has(run[n], id) ==> id in after.shut)
                   <==> forall id :: Has(run[n], id) ==> !run[n].streams[id].outbound))
  {
    RunKeeps(run, steps, n);
    var net := run[n];
    var after := Apply(net, ShutDown(answers, net.tracked));
    forall id | id in net.streams && net.streams[id].phase == Held && !net.streams[id].outbound
      ensures id in after.shut
    {
      assert StreamOk(net, id);
      assert StreamAt(net, net.streams[id].fd) == Some(id);
    }
    forall id | id in Behind(net, net.tracked)
      ensures id in net.streams && net.streams[id].phase == Held && !net.streams[id].outbound
    {
      var fd :| fd in net.tracked && StreamAt(net, fd) == Some(id);
      assert TrackedOk(net, fd);
    }
  }

  /** From a settled shutdown on: the listener refuses, and every accepted connection the guest has is shut. */
  ghost predicate Quiet(n: Net) {
    && n.listener.Some? && n.refusing
    && (forall id :: Has(n, id) && !n.streams[id].outbound ==> n.streams[id].phase != Accepted && id in n.shut)
  }

  lemma QuietKept(n: Net, step: Step)
    requires Quiet(n) && Enabled(n, step)
    ensures Quiet(Apply(n, step))
  {
    hide Reachable, Behind, ListenerFails;
  }

  /**
   In every run, after a shutdown that succeeds with no step in flight, no
   accepted connection that is not shut down ever appears again.
   */
  lemma {:induction false} ShutDownLasts(run: seq<Net>, steps: seq<Step>, n: nat, m: nat)
    requires IsRun(run, steps) && n < m < |run| && steps[n].ShutDown?
    requires Succeeds(run[n], steps[n].answers) && Settled(run[n]) && run[n].listener.Some?
    ensures Quiet(run[m])
    decreases m
  {
    assert Steps(run, steps, m - 1);
    if m == n + 1 {
      assert steps[n].reached == run[n].tracked;
      ShutDownReaches(run, steps, n, steps[n].answers);
    } else {
      ShutDownLasts(run, steps, n, m - 1);
      QuietKept(run[m - 1], steps[m - 1]);
    }
  }

  /** A shutdown that fails part of the way still shuts only connections that are held. */
  lemma FailedShutDownIsSafe(run: seq<Net>, steps: seq<Step>, n: nat, answers: map<Fd, Answer>, reached: set<Fd>)
    requires IsRun(run, steps) && n < |run| && Enabled(run[n], ShutDown(answers, reached))
    ensures var after := Apply(run[n], ShutDown(answers, reached));
            forall id :: id in after.shut && id !in run[n].shut ==>
              id in run[n].streams && run[n].streams[id].phase == Held && !run[n].streams[id].outbound
  {
    RunKeeps(run, steps, n);
    forall id | id in Behind(run[n], reached)
      ensures id in run[n].streams && run[n].streams[id].phase == Held && !run[n].streams[id].outbound
    {
      var fd :| fd in reached && StreamAt(run[n], fd) == Some(id);
      assert TrackedOk(run[n], fd);
    }
  }

  /** In every run, the numbers a shutdown tries are open: it never fails for a closed one. */
  lemma ShutDownFailsOnlyByAnswer(run: seq<Net>, steps: seq<Step>, n: nat, answers: map<Fd, Answer>)
    requires IsRun(run, steps) && n < |run|
    ensures Succeeds(run[n], answers) <==>
              && (run[n].listener.Some? && run[n].listener.value in answers ==> answers[run[n].listener.value] != Error)
              && forall fd :: fd in run[n].tracked && fd in answers ==> answers[fd] != Error
  {
    RunKeeps(run, steps, n);
    assert forall fd :: fd in run[n].tracked ==> TrackedOk(run[n], fd);
  }

  /** An outbound connection outlives a shutdown that succeeds, whatever its number. */
  lemma OutboundOutlivesShutDown(fd: Fd)
    ensures var s := [Connect(0, fd), ShutDown(map[], {})];
            var one := EMPTY.(open := map[fd := Stream(0)], streams := map[0 := Connection(fd, Held, true)]);
            && IsRun([EMPTY, one, one], s) && Succeeds(one, map[]) && Settled(one)
            && Has(one, 0) && 0 !in one.shut
  {
    var s := [Connect(0, fd), ShutDown(map[], {})];
    var one := EMPTY.(open := map[fd := Stream(0)], streams := map[0 := Connection(fd, Held, true)]);
    assert Steps([EMPTY, one, one], s, 0);
    assert Behind(one, {}) == {};
    assert Steps([EMPTY, one, one], s, 1);
  }

  // ----- the calls, as the code makes them

  lemma BehindNone(n: Net)
    ensures Behind(n, {}) == {}
  {
  }

  /** Whether a shutdown fails does not depend on what was shut. */
  lemma FailsAlike(n: Net, m: Net, answers: map<Fd, Answer>, fd: Fd)
    requires m.open == n.open
    ensures Fails(n, answers, fd) <==> Fails(m, answers, fd)
    ensures !Fails(n, answers, fd) ==> fd in n.open
  {
  }

  lemma BehindOne(n: Net, fds: set<Fd>, fd: Fd)
    requires fd in n.open
    ensures Behind(n, fds + {fd}) == Behind(n, fds) + if n.open[fd].Stream? then {n.open[fd].id} else {}
  {
    if n.open[fd].Stream? {
      assert StreamAt(n, fd) == Some(n.open[fd].id);
    }
  }

  class HostNetworking {
    var net: Net

    constructor ()
      ensures net == EMPTY
    {
      net := EMPTY;
    }

    /** One tracked number after another, up to the first that fails. */
    method ShutTracked(answers: map<Fd, Answer>) returns (ok: bool, ghost reached: set<Fd>)
      modifies this
      ensures reached <= old(net).tracked && forall fd :: fd in reached ==> !Fails(old(net), answers, fd)
      ensures ok ==> reached == old(net).tracked
      ensures !ok ==> exists fd :: fd in old(net).tracked && Fails(old(net), answers, fd)
      ensures net == old(net).(shut := old(net).shut + Behind(old(net), reached))
    {
      ghost var was := net;
      var open, left := net.open, net.tracked;
      reached := {};
      hide Behind, Fails;
      BehindNone(was);
      while left != {}
        invariant left <= was.tracked && reached == was.tracked - left
        invariant forall fd :: fd in reached ==> !Fails(was, answers, fd)
        invariant net == was.(shut := was.shut + Behind(was, reached))
        decreases |left|
      {
        var fd :| fd in left;
        if Fails(net, answers, fd) {
          FailsAlike(was, net, answers, fd);
          return false, reached;
        }
        FailsAlike(was, net, answers, fd);
        BehindOne(was, reached, fd);
        if open[fd].Stream? {
          net := net.(shut := net.shut + {open[fd].id});
        }
        reached := reached + {fd};
        left := left - {fd};
      }
      return true, reached;
    }

    /** `shut_down_sockets`: the listener first, then the tracked numbers. */
    method ShutDownSockets(answers: map<Fd, Answer>) returns (ok: bool, ghost reached: set<Fd>)
      modifies this
      ensures Enabled(old(net), ShutDown(answers, reached)) && net == Apply(old(net), ShutDown(answers, reached))
      ensures ok <==> Succeeds(old(net), answers)
    {
      reached := {};
      if net.listener.Some? {
        if Fails(net, answers, net.listener.value) {
          assert Behind(net, {}) == {};
          return false, {};
        }
        net := net.(refusing := true);
      }
      ghost var was := net;
      ok, reached := ShutTracked(answers);
      assert Behind(was, reached) == Behind(old(net), reached);
    }
  }
}
