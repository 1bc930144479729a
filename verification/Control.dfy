/**
 The control protocol as one system: the manager's end of every channel, the
 host at the other end, and the hosts that fork off it.
 */
module Control {
  import opened Wrappers

  type Pid = nat

  datatype Phase = Fresh | Prepared | Running(ready: bool) | Frozen

  datatype Request = Prepare | Start | Initialize | Freeze | Fork | Stop

  datatype Run = PrepareRun | GuestRun | InitializerRun | ChildRun

  datatype Reply =
    | Ready
    | Exited(run: Run)
    | FrozenReply
    | Forked(pid: Pid)
    | Error

  /** A message and the request it answers, by its number on the channel. */
  datatype Sent = Sent(reply: Reply, answers: Option<nat>)

  /** A request the host is working on: a run it waits for. */
  datatype Job = Job(id: nat, request: Request)

  /**
   One host process and the channel to it. `reborn` marks a clone between the
   fork and its announcement; `scanning` a zero-page scan under way.
   */
  datatype Host = Host(phase: Phase, guest: bool, scanning: bool, reborn: bool, busy: Option<Job>, ended: bool)

  datatype Link = Link(
    host: Host,
    wire: Option<Job>,
    log: seq<Sent>,
    read: nat,
    outstanding: Option<nat>,
    count: nat,
    events: seq<Reply>)

  type System = map<Pid, Link>

  /** What the environment made of a request: see `Accept` and `Finish`. */
  datatype Outcome =
    | Bad          // a descriptor missing, a spawn or the fork failed, the freeze failed
    | Immediate    // prepare without a module
    | Good
    | GuestDied    // start: before it was ready
    | NoEndpoint   // start: ready, but the endpoint cannot be read

  datatype Step =
    | Spawn(p: Pid)
    | Send(p: Pid, request: Request)
    | Read(p: Pid)
    | ReadClosed(p: Pid)
    | ReadEvent(p: Pid)
    | ChildExits(p: Pid)
    | GuestExits(p: Pid)
    | Accept(p: Pid, outcome: Outcome, child: Pid)
    | Finish(p: Pid, outcome: Outcome)
    | RefuseBusy(p: Pid)
    | Announce(p: Pid, outcome: Outcome)
    | Slice(p: Pid, done: bool)

  // ----- the manager's end

  function Inbox(l: Link): seq<Sent>
    requires l.read <= |l.log|
  {
    l.log[l.read..]
  }

  /** What one message means to `reply`. */
  datatype Verdict = Event | Failed | Answer

  function Judge(reply: Reply): Verdict {
    match reply
    case Error => Failed
    case Exited(GuestRun) => Failed
    case Exited(ChildRun) => Event
    case _ => Answer
  }

  // ----- the host's end

  /** The host is where `tick` runs: between requests, or waiting for a run. */
  predicate Ticking(h: Host) {
    !h.ended && !h.reborn && (h.busy.None? || h.busy.value.request != Start)
  }

  function Says(l: Link, reply: Reply, answers: Option<nat>): Link {
    l.(log := l.log + [Sent(reply, answers)])
  }

  function WithHost(l: Link, h: Host): Link {
    l.(host := h)
  }

  /** The request is refused or fails; the host keeps serving. */
  function Refuse(l: Link, id: nat): Link {
    Says(l.(wire := None), Error, Some(id))
  }

  /** Handling a request, in the process that received it. */
  function Handle(l: Link, job: Job, outcome: Outcome, child: Pid): Link {
    var h := l.host;
    var l' := l.(wire := None);
    match job.request
    case Prepare =>
      if h.phase != Fresh || outcome == Bad then Refuse(l, job.id)
      else if outcome == Immediate then Says(WithHost(l', h.(phase := Prepared)), Exited(PrepareRun), Some(job.id))
      else WithHost(l', h.(busy := Some(job)))
    case Start =>
      if !(h.phase == Fresh || h.phase == Prepared) || outcome == Bad then Refuse(l, job.id)
      else WithHost(l', h.(phase := Running(false), guest := true, busy := Some(job)))
    case Initialize =>
      if h.phase != Running(true) || outcome == Bad then Refuse(l, job.id)
      else WithHost(l', h.(busy := Some(job)))
    case Freeze =>
      if h.phase != Running(true) then Refuse(l, job.id)
      else if outcome == Bad then WithHost(Refuse(l, job.id), h.(phase := Frozen, ended := true))
      else Says(WithHost(l', h.(phase := Frozen, scanning := true)), FrozenReply, Some(job.id))
    case Fork =>
      if h.phase != Frozen || outcome == Bad then Refuse(l, job.id)
      else Says(l', Forked(child), Some(job.id))
    case Stop => WithHost(l', h.(ended := true))
  }

  /** Whether handling the request forks. */
  predicate Forks(l: Link, job: Job, outcome: Outcome) {
    job.request == Fork && l.host.phase == Frozen && outcome != Bad
  }

  /** The clone as `fork` leaves it, its own channel new and its owner waiting for it. */
  function Reborn(l: Link): Link {
    Link(l.host.(phase := Running(true), reborn := true, busy := None), None, [], 0, Some(0), 1, [])
  }

  /** The run a job waited for is over. */
  function Complete(l: Link, outcome: Outcome): Link
    requires l.host.busy.Some?
  {
    var job := l.host.busy.value;
    var h := l.host.(busy := None);
    match job.request
    case Prepare => Says(WithHost(l, h.(phase := Prepared)), Exited(PrepareRun), Some(job.id))
    case Start =>
      (match outcome
       case Bad => Says(WithHost(l, h), Error, Some(job.id))
       case GuestDied => Says(WithHost(l, h), Exited(GuestRun), Some(job.id))
       case NoEndpoint => Says(WithHost(l, h.(phase := Running(true))), Error, Some(job.id))
       case _ => Says(WithHost(l, h.(phase := Running(true))), Ready, Some(job.id)))
    case _ => Says(WithHost(l, h), Exited(InitializerRun), Some(job.id))
  }

  // ----- steps

  predicate Enabled(s: System, step: Step) {
    match step
    case Spawn(p) => p !in s
    case Send(p, _) => p in s && s[p].outstanding.None?
    case Read(p) => p in s && s[p].outstanding.Some? && s[p].read < |s[p].log|
    case ReadClosed(p) => p in s && s[p].outstanding.Some? && s[p].read >= |s[p].log| && s[p].host.ended
    case ReadEvent(p) => p in s && s[p].outstanding.None? && s[p].read < |s[p].log|
    case ChildExits(p) => p in s && Ticking(s[p].host)
    case GuestExits(p) => p in s && Ticking(s[p].host) && s[p].host.guest && s[p].host.phase != Frozen
    case Accept(p, outcome, child) =>
      && p in s && Ticking(s[p].host) && s[p].host.busy.None? && s[p].wire.Some?
      && (Forks(s[p], s[p].wire.value, outcome) ==> child !in s)
    case Finish(p, _) => p in s && !s[p].host.ended && s[p].host.busy.Some?
    case RefuseBusy(p) => p in s && !s[p].host.ended && s[p].host.busy.Some? && s[p].wire.Some?
    case Announce(p, _) => p in s && !s[p].host.ended && s[p].host.reborn
    case Slice(p, _) => p in s && Ticking(s[p].host) && s[p].host.busy.None? && s[p].host.scanning
  }

  function Apply(s: System, step: Step): System
    requires Enabled(s, step)
  {
    match step
    case Spawn(p) => s[p := Link(Host(Fresh, false, false, false, None, false), None, [], 0, None, 0, [])]
    case Send(p, request) => s[p := Ask(s[p], request)]
    case Read(p) => s[p := ReadOne(s[p])]
    case ReadClosed(p) => s[p := s[p].(outstanding := None)]
    case ReadEvent(p) => s[p := s[p].(read := s[p].read + 1)]
    case ChildExits(p) => s[p := Says(s[p], Exited(ChildRun), None)]
    case GuestExits(p) => s[p := Says(WithHost(s[p], s[p].host.(ended := true)), Exited(GuestRun), None)]
    case Accept(p, outcome, child) =>
      var job := s[p].wire.value;
      var s' := s[p := Handle(s[p], job, outcome, child)];
      if Forks(s[p], job, outcome) then s'[child := Reborn(s[p])] else s'
    case Finish(p, outcome) => s[p := Complete(s[p], outcome)]
    case RefuseBusy(p) =>
      var l := s[p];
      s[p := if l.wire.value.request == Stop then WithHost(l.(wire := None), l.host.(ended := true))
             else Refuse(l, l.wire.value.id)]
    case Announce(p, outcome) => s[p := Introduce(s[p], p, outcome)]
    case Slice(p, done) => s[p := WithHost(s[p], s[p].host.(scanning := !done))]
  }

  function Ask(l: Link, request: Request): Link {
    l.(wire := Some(Job(l.count, request)), outstanding := Some(l.count), count := l.count + 1)
  }

  /** One message of `reply`. */
  function ReadOne(l: Link): Link
    requires l.read < |l.log|
  {
    var m := l.log[l.read];
    match Judge(m.reply)
    case Event => l.(read := l.read + 1, events := l.events + [m.reply])
    case _ => l.(read := l.read + 1, outstanding := None)
  }

  /** The clone drops the inherited scan and says who it is, or why it cannot serve. */
  function Introduce(l: Link, p: Pid, outcome: Outcome): Link {
    match outcome
    case Bad => WithHost(Says(l, Error, Some(0)), l.host.(reborn := false, ended := true))
    case NoEndpoint => WithHost(l, l.host.(reborn := false, scanning := false, ended := true))
    case _ => WithHost(Says(l, Forked(p), Some(0)), l.host.(reborn := false, scanning := false))
  }

  // ----- what every state keeps

  /** A message waiting to be read that answers some request. */
  ghost predicate Answers(l: Link, i: nat) {
    l.read <= i < |l.log| && l.log[i].answers.Some?
  }

  ghost predicate NoAnswer(l: Link) {
    forall i: nat :: !Answers(l, i)
  }

  ghost predicate GuestGone(l: Link, i: nat)
    requires i < |l.log|
  {
    l.log[i] == Sent(Exited(GuestRun), None)
  }

  /** An unsolicited message is a child's exit, or the guest's and then the last. */
  ghost predicate Unsolicited(l: Link) {
    forall i :: 0 <= i < |l.log| && l.log[i].answers.None? ==>
      l.log[i].reply == Exited(ChildRun) || (GuestGone(l, i) && i == |l.log| - 1 && l.host.ended)
  }

  /** Waiting answers are to the outstanding request, one at most. */
  ghost predicate Paired(l: Link) {
    && (forall i: nat :: Answers(l, i) ==> l.outstanding == l.log[i].answers)
    && (forall i: nat, j: nat :: Answers(l, i) && Answers(l, j) ==> i == j)
  }

  /** A request not yet answered is the outstanding one, and in one place only. */
  ghost predicate Unanswered(l: Link) {
    !l.host.ended ==>
      && (l.wire.Some? ==> l.outstanding == Some(l.wire.value.id) && l.host.busy.None? && !l.host.reborn && NoAnswer(l))
      && (l.host.busy.Some? ==> l.outstanding == Some(l.host.busy.value.id) && !l.host.reborn && NoAnswer(l))
      && (l.host.reborn ==> l.outstanding == Some(0) && l.log == [])
  }

  /** A scan under way in a host that can run a slice of it is of a frozen guest. */
  ghost predicate ScansFrozen(h: Host) {
    && (h.scanning && !h.reborn && !h.ended ==> h.phase == Frozen)
    && (h.reborn ==> h.phase == Running(true) && h.busy.None?)
    && (h.busy.Some? ==> h.phase != Frozen && !h.scanning && (h.busy.value.request == Prepare ==> h.phase == Fresh)
                         && (h.busy.value.request == Start ==> h.phase == Running(false))
                         && (h.busy.value.request == Initialize ==> h.phase == Running(true))
                         && h.busy.value.request in {Prepare, Start, Initialize})
  }

  ghost predicate LinkInv(l: Link) {
    && l.read <= |l.log|
    && Unsolicited(l)
    && Paired(l)
    && Unanswered(l)
    && ScansFrozen(l.host)
  }

  ghost predicate Inv(s: System) {
    forall p :: p in s ==> LinkInv(s[p])
  }
}
