/**
 The process tree as a ledger: owner threads, their hosts and the channels
 between them, interleaved step by step, for any number of templates standing
 on one another.
 */
module Ledger {
  type Id = nat

  /** What a frozen host sends its owner, in order. */
  datatype Message = Forked(clone: Id) | ChildExited(clone: Id) | Refused

  /** Where an owner thread is. */
  datatype Owner =
    | Waiting                // for a command
    | Forking                // a fork requested, its answer not read
    | Announcing(clone: Id)  // the answer read, the clone not heard from
    | Draining(exits: nat)   // reading events until none is left
    | Deciding               // drained; whether to expire is open

  /** The fork the host has been asked for: read, or made and not answered yet. */
  datatype Request = NoRequest | Asked | Made(clone: Id)

  /** A template: its owner's account, the channel, and the host's children. */
  datatype Template = Template(
    owner: Owner,
    children: nat,
    idleSince: nat,
    events: seq<Id>,
    request: Request,
    inbox: seq<Message>,
    live: set<Id>,
    zombies: set<Id>)

  /**
   `parent` keeps every fork ever made; `alive` the processes running now.
   `armed` are the clones that asked the kernel, while their template lived,
   to be killed with it; `late` those that asked when it was gone, so that the
   request holds for whoever adopted them. `served` are the clones that an
   owner heard from and handed out. `templates` are the frozen hosts with
   their owners; `bereft` the owners, as they were, whose host went down and
   who have not found out: one that has its answer goes on listening for the
   clone.
   */
  datatype State = State(
    now: nat,
    next: Id,
    alive: set<Id>,
    parent: map<Id, Id>,
    armed: set<Id>,
    late: set<Id>,
    served: set<Id>,
    templates: map<Id, Template>,
    bereft: map<Id, Template>)

  datatype Step =
    | Pass(ticks: nat)
    | Spawn
    | Freeze(p: Id)
    | Exit(p: Id)
    | TakeFork(t: Id)
    | HostForks(t: Id)
    | HostAnswers(t: Id)
    | Arm(p: Id)
    | HostRefuses(t: Id)
    | Reap(t: Id, z: Id)
    | ReadReply(t: Id)
    | Announced(t: Id)
    | HeardLate(t: Id, q: Id)
    | GivesUp(t: Id)
    | Timeout(t: Id)
    | DrainOne(t: Id)
    | DrainEnd(t: Id)
    | KeepServing(t: Id)
    | Expire(t: Id)
    | ForkFails(t: Id)
    | Disconnect(t: Id)
    | HostLost(t: Id)

  // ----- the owner's arithmetic

  function SaturatingSub(a: nat, b: nat): nat { if a < b then 0 else a - b }

  /** A fork served and the exits seen while waiting for it. */
  function AfterFork(t: Template, now: nat): Template {
    var children := SaturatingSub(t.children + 1, |t.events|);
    t.(owner := Waiting, children := children, events := [],
       idleSince := if children == 0 then now else t.idleSince)
  }

  /** The exits drained between commands. */
  function AfterDrain(t: Template, exits: nat, now: nat): Template {
    var children := SaturatingSub(t.children, exits);
    t.(owner := Deciding, children := children,
       idleSince := if exits > 0 && children == 0 then now else t.idleSince)
  }

  // ----- steps

  function Fresh(now: nat): Template {
    Template(Waiting, 0, now, [], NoRequest, [], {}, {})
  }

  predicate HasTemplate(s: State, t: Id, owner: Owner) {
    t in s.templates && s.templates[t].owner == owner
  }

  /** `q` goes down with `p`: it is `p`, or armed and a child of one that goes down. */
  predicate Falls(s: State, p: Id, q: Id)
    decreases q
  {
    q == p || (q in s.armed && q in s.parent && s.parent[q] < q && Falls(s, p, s.parent[q]))
  }

  /** What is left of a template when `p` ends: a parent has a zombie until it reaps. */
  function Survivor(s: State, p: Id, t: Id): Template
    requires t in s.templates
  {
    var x := s.templates[t];
    if p in s.parent && s.parent[p] == t then x.(live := x.live - {p}, zombies := x.zombies + {p}) else x
  }

  /**
   `p` ends, and with it everything that the kernel kills for it. Owners
   outlive their hosts, but for `p`'s own when it is the one that ended it.
   */
  function End(s: State, p: Id, byOwner: bool): State {
    s.(alive := (set q | q in s.alive && !Falls(s, p, q)),
       templates := (map t | t in s.templates && !Falls(s, p, t) :: Survivor(s, p, t)),
       bereft := s.bereft + map t | t in s.templates && Falls(s, p, t) && !(byOwner && t == p) :: s.templates[t])
  }

  /** The clone has come past its call to the kernel, in time or not. */
  predicate Rebuilt(s: State, q: Id) {
    q in s.armed || q in s.late
  }

  /** The owner has the answer that names the clone, read or not, and has not heard the clone. */
  predicate Pending(x: Template, q: Id) {
    x.owner == Announcing(q) || exists i :: 0 <= i < |x.inbox| && x.inbox[i] == Forked(q)
  }

  predicate Enabled(s: State, ttl: nat, step: Step) {
    match step
    case Pass(_) => true
    case Spawn => true
    case Freeze(p) => p in s.alive && p !in s.templates && (p in s.parent ==> p in s.served)
    case Exit(p) => p in s.alive && p !in s.templates
    case TakeFork(t) => HasTemplate(s, t, Waiting)
    case HostForks(t) => t in s.templates && s.templates[t].request == Asked
    case HostAnswers(t) => t in s.templates && s.templates[t].request.Made?
    case Arm(p) => p in s.alive && p in s.parent && !Rebuilt(s, p)
    case HostRefuses(t) => t in s.templates && s.templates[t].request == Asked
    case Reap(t, z) => t in s.templates && z in s.templates[t].zombies && !s.templates[t].request.Made?
    case ReadReply(t) => HasTemplate(s, t, Forking) && s.templates[t].inbox != [] && !s.templates[t].inbox[0].Refused?
    case Announced(t) =>
      t in s.templates && s.templates[t].owner.Announcing? && Rebuilt(s, s.templates[t].owner.clone)
    case HeardLate(t, q) => t in s.bereft && Pending(s.bereft[t], q) && Rebuilt(s, q)
    case GivesUp(t) => t in s.bereft
    case Timeout(t) => HasTemplate(s, t, Waiting)
    case DrainOne(t) => t in s.templates && s.templates[t].owner.Draining? && s.templates[t].inbox != []
                        && s.templates[t].inbox[0].ChildExited?
    case DrainEnd(t) => t in s.templates && s.templates[t].owner.Draining? && s.templates[t].inbox == []
    case KeepServing(t) => HasTemplate(s, t, Deciding) && !Expired(s.templates[t], s.now, ttl)
    case Expire(t) => HasTemplate(s, t, Deciding) && Expired(s.templates[t], s.now, ttl)
    case ForkFails(t) => t in s.templates
                         && (|| s.templates[t].owner.Announcing?
                             || (s.templates[t].owner.Forking? && s.templates[t].inbox != [] && s.templates[t].inbox[0].Refused?))
    case Disconnect(t) => HasTemplate(s, t, Waiting)
    case HostLost(t) => t in s.templates
  }

  predicate Expired(t: Template, now: nat, ttl: nat) {
    t.children == 0 && now - t.idleSince >= ttl
  }

  function Apply(s: State, ttl: nat, step: Step): State
    requires Enabled(s, ttl, step)
  {
    match step
    case Pass(ticks) => s.(now := s.now + ticks)
    case Spawn => s.(next := s.next + 1, alive := s.alive + {s.next})
    case Freeze(p) => s.(templates := s.templates[p := Fresh(s.now)])
    case Exit(p) => End(s, p, false)
    case TakeFork(t) => s.(templates := s.templates[t := s.templates[t].(owner := Forking, request := Asked)])
    case HostForks(t) =>
      var x := s.templates[t];
      s.(next := s.next + 1, alive := s.alive + {s.next}, parent := s.parent[s.next := t],
         templates := s.templates[t := x.(request := Made(s.next), live := x.live + {s.next})])
    case HostAnswers(t) =>
      var x := s.templates[t];
      s.(templates := s.templates[t := x.(request := NoRequest, inbox := x.inbox + [Forked(x.request.clone)])])
    case Arm(p) =>
      if s.parent[p] in s.alive then s.(armed := s.armed + {p}) else s.(late := s.late + {p})
    case HostRefuses(t) =>
      var x := s.templates[t];
      s.(templates := s.templates[t := x.(request := NoRequest, inbox := x.inbox + [Refused])])
    case Reap(t, z) =>
      var x := s.templates[t];
      s.(templates := s.templates[t := x.(zombies := x.zombies - {z}, inbox := x.inbox + [ChildExited(z)])])
    case ReadReply(t) => s.(templates := s.templates[t := AfterRead(s.templates[t])])
    case Announced(t) =>
      s.(served := s.served + {s.templates[t].owner.clone}, templates := s.templates[t := AfterFork(s.templates[t], s.now)])
    case HeardLate(t, q) => s.(served := s.served + {q}, bereft := s.bereft - {t})
    case GivesUp(t) => s.(bereft := s.bereft - {t})
    case Timeout(t) => s.(templates := s.templates[t := s.templates[t].(owner := Draining(0))])
    case DrainOne(t) =>
      var x := s.templates[t];
      s.(templates := s.templates[t := x.(owner := Draining(x.owner.exits + 1), inbox := x.inbox[1..])])
    case DrainEnd(t) =>
      s.(templates := s.templates[t := AfterDrain(s.templates[t], s.templates[t].owner.exits, s.now)])
    case KeepServing(t) => s.(templates := s.templates[t := s.templates[t].(owner := Waiting)])
    case Expire(t) => End(s, t, true)
    case ForkFails(t) => End(s, t, true)
    case Disconnect(t) => End(s, t, true)
    case HostLost(t) => End(s, t, false)
  }

  /** One message of `reply`: an exit is kept for later, the answer ends the wait. */
  function AfterRead(x: Template): Template
    requires x.inbox != [] && !x.inbox[0].Refused?
  {
    match x.inbox[0]
    case ChildExited(z) => x.(events := x.events + [z], inbox := x.inbox[1..])
    case Forked(n) => x.(owner := Announcing(n), inbox := x.inbox[1..])
  }

  // ----- the account of one template

  function Exits(inbox: seq<Message>): nat {
    if inbox == [] then 0
    else Exits(inbox[..|inbox| - 1]) + (if inbox[|inbox| - 1].ChildExited? then 1 else 0)
  }

  lemma {:induction false} ExitsPop(inbox: seq<Message>)
    requires inbox != []
    ensures Exits(inbox) == Exits(inbox[1..]) + (if inbox[0].ChildExited? then 1 else 0)
  {
    if |inbox| > 1 {
      ExitsPop(inbox[..|inbox| - 1]);
      assert inbox[..|inbox| - 1][1..] == inbox[1..][..|inbox| - 2];
    }
  }

  lemma ExitsPush(inbox: seq<Message>, m: Message)
    ensures Exits(inbox + [m]) == Exits(inbox) + (if m.ChildExited? then 1 else 0)
  {
    assert (inbox + [m])[..|inbox|] == inbox;
  }

  lemma {:induction false} ExitsAtLeastOne(inbox: seq<Message>, i: nat)
    requires i < |inbox| && inbox[i].ChildExited?
    ensures Exits(inbox) >= 1
  {
    if i < |inbox| - 1 {
      ExitsAtLeastOne(inbox[..|inbox| - 1], i);
    }
  }

  ghost predicate OnlyExits(inbox: seq<Message>) {
    forall i :: 0 <= i < |inbox| ==> inbox[i].ChildExited?
  }

  /** The clone is on the host's side of the ledger from place `from` on. */
  ghost predicate Present(x: Template, n: Id, from: nat) {
    n in x.live || n in x.zombies || exists j :: from <= j < |x.inbox| && x.inbox[j] == ChildExited(n)
  }

  /** The answer to the outstanding fork is the one at place `i`. */
  ghost predicate AnswerAt(x: Template, i: nat) {
    && i < |x.inbox| && !x.inbox[i].ChildExited?
    && (forall j :: 0 <= j < |x.inbox| && j != i ==> x.inbox[j].ChildExited?)
    && (x.inbox[i].Forked? ==> Present(x, x.inbox[i].clone, i + 1))
  }

  ghost predicate Shaped(x: Template) {
    match x.owner
    case Forking => (match x.request
                     case Asked => OnlyExits(x.inbox)
                     case Made(n) => OnlyExits(x.inbox) && (n in x.live || n in x.zombies)
                     case NoRequest => exists i :: AnswerAt(x, i))
    case Announcing(n) => x.request == NoRequest && OnlyExits(x.inbox) && Present(x, n, 0)
    case _ => x.request == NoRequest && OnlyExits(x.inbox) && x.events == []
  }

  ghost predicate ForkedIn(inbox: seq<Message>) {
    exists i :: 0 <= i < |inbox| && inbox[i].Forked?
  }

  /** A fork the host has made and the owner has not counted yet. */
  ghost function Uncounted(x: Template): nat {
    if x.owner.Announcing? || x.request.Made? || ForkedIn(x.inbox) then 1 else 0
  }

  function Drained(x: Template): nat {
    if x.owner.Draining? then x.owner.exits else 0
  }

  /** Forks counted, made or answered are clones alive, unreaped, or reported. */
  ghost predicate Balanced(x: Template) {
    x.children + Uncounted(x) == |x.live| + |x.zombies| + Exits(x.inbox) + |x.events| + Drained(x)
  }

  // ----- what every state keeps

  ghost predicate Kept(s: State, t: Id)
    requires t in s.templates
  {
    var x := s.templates[t];
    && t in s.alive
    && Shaped(x)
    && Balanced(x)
    && x.idleSince <= s.now
    && (forall q :: q in x.live <==> q in s.alive && q in s.parent && s.parent[q] == t)
    && (forall q :: q in x.zombies ==> q !in s.alive && q < s.next)
  }

  ghost predicate Inv(s: State) {
    && (forall p :: p in s.alive ==> p < s.next)
    && (forall q :: q in s.parent ==> s.parent[q] < q < s.next)
    && (forall q :: q in s.parent && s.parent[q] in s.alive ==> s.parent[q] in s.templates)
    && (forall t :: t in s.templates ==> Kept(s, t))
  }

  /** The owner has not heard from the clone yet, and may not have been told of it. */
  ghost predicate Expected(x: Template, q: Id) {
    x.request == Made(q) || Pending(x, q)
  }

  /** An armed clone that lives has its parent; a late one has none; templates were heard; bereft owners have no host. */
  ghost predicate ArmedOk(s: State) {
    && s.armed + s.late <= s.parent.Keys
    && (forall q :: q in s.alive && q in s.armed ==> s.parent[q] in s.alive)
    && (forall q :: q in s.late ==> s.parent[q] !in s.alive)
    && s.served <= s.armed + s.late
    && (forall t :: t in s.templates && t in s.parent ==> t in s.served)
    && (forall t :: t in s.bereft ==> t !in s.alive && t < s.next)
  }

  ghost predicate ForkedBy(s: State, q: Id, t: Id) {
    q in s.parent && s.parent[q] == t
  }

  /** A live clone that is not armed is one its template's owner waits for; and owners wait for their own clones only. */
  ghost predicate Awaited(s: State, t: Id, q: Id) {
    && (t in s.templates && q in s.templates[t].live && q !in s.armed ==> Expected(s.templates[t], q))
    && (t in s.templates && Expected(s.templates[t], q) ==> ForkedBy(s, q, t))
    && (t in s.bereft && Pending(s.bereft[t], q) ==> ForkedBy(s, q, t))
  }

  ghost predicate Guarded(s: State) {
    ArmedOk(s) && forall t, q :: Awaited(s, t, q)
  }

  ghost predicate Initial(s: State) {
    s == State(0, 0, {}, map[], {}, {}, {}, map[], map[])
  }
}
