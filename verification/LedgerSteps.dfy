/** Every step of the ledger keeps its account. */
module LedgerSteps {
  import opened Ledger

  // ----- one template

  ghost predicate Sound(x: Template) {
    Shaped(x) && Balanced(x)
  }

  lemma NoForked(x: Template)
    requires OnlyExits(x.inbox)
    ensures !ForkedIn(x.inbox)
  {
  }

  lemma TakeForkKeeps(x: Template)
    requires Sound(x) && x.owner == Waiting
    ensures Sound(x.(owner := Forking, request := Asked))
  {
  }

  lemma RequestMeansForking(x: Template)
    requires Shaped(x) && x.request != NoRequest
    ensures x.owner == Forking && OnlyExits(x.inbox)
  {
  }

  lemma HostForksKeeps(x: Template, n: Id)
    requires Sound(x) && x.request == Asked && n !in x.live && n !in x.zombies
    ensures Sound(x.(request := Made(n), live := x.live + {n}))
  {
    RequestMeansForking(x);
    NoForked(x);
  }

  lemma HostAnswersKeeps(x: Template)
    requires Sound(x) && x.request.Made?
    ensures Sound(x.(request := NoRequest, inbox := x.inbox + [Forked(x.request.clone)]))
  {
    RequestMeansForking(x);
    var y := x.(request := NoRequest, inbox := x.inbox + [Forked(x.request.clone)]);
    ExitsPush(x.inbox, Forked(x.request.clone));
    assert AnswerAt(y, |x.inbox|);
    assert y.inbox[|x.inbox|].Forked?;
  }

  lemma HostRefusesKeeps(x: Template)
    requires Sound(x) && x.request == Asked
    ensures Sound(x.(request := NoRequest, inbox := x.inbox + [Refused]))
  {
    RequestMeansForking(x);
    NoForked(x);
    var y := x.(request := NoRequest, inbox := x.inbox + [Refused]);
    ExitsPush(x.inbox, Refused);
    assert AnswerAt(y, |x.inbox|);
  }

  /** Moving a clone along the host's side keeps it present. */
  lemma ReapPresent(x: Template, z: Id, n: Id, from: nat)
    requires Present(x, n, from) && from <= |x.inbox|
    ensures Present(x.(zombies := x.zombies - {z}, inbox := x.inbox + [ChildExited(z)]), n, from)
  {
    var y := x.(zombies := x.zombies - {z}, inbox := x.inbox + [ChildExited(z)]);
    if n !in y.live && n !in y.zombies {
      if n in x.zombies {
        assert y.inbox[|x.inbox|] == ChildExited(n);
      } else {
        var j :| from <= j < |x.inbox| && x.inbox[j] == ChildExited(n);
        assert y.inbox[j] == ChildExited(n);
      }
    }
  }

  lemma ReapKeeps(x: Template, z: Id)
    requires Sound(x) && z in x.zombies && !x.request.Made?
    ensures Sound(x.(zombies := x.zombies - {z}, inbox := x.inbox + [ChildExited(z)]))
  {
    var y := x.(zombies := x.zombies - {z}, inbox := x.inbox + [ChildExited(z)]);
    ExitsPush(x.inbox, ChildExited(z));
    assert ForkedIn(y.inbox) <==> ForkedIn(x.inbox) by {
      if ForkedIn(x.inbox) {
        var i :| 0 <= i < |x.inbox| && x.inbox[i].Forked?;
        assert y.inbox[i].Forked?;
      }
    }
    if x.owner.Forking? && x.request == NoRequest {
      var i: nat :| AnswerAt(x, i);
      if x.inbox[i].Forked? {
        ReapPresent(x, z, x.inbox[i].clone, i + 1);
      }
      assert AnswerAt(y, i);
    } else if x.owner.Announcing? {
      ReapPresent(x, z, x.owner.clone, 0);
    }
  }

  lemma DropPresent(x: Template, n: Id, from: nat)
    requires x.inbox != [] && Present(x, n, from + 1)
    ensures Present(x.(inbox := x.inbox[1..]), n, from)
  {
    var y := x.(inbox := x.inbox[1..]);
    if n !in x.live && n !in x.zombies {
      var j :| from + 1 <= j < |x.inbox| && x.inbox[j] == ChildExited(n);
      assert y.inbox[j - 1] == ChildExited(n);
    }
  }

  lemma ReadExitKeeps(x: Template)
    requires Sound(x) && x.owner == Forking && x.inbox != [] && x.inbox[0].ChildExited?
    ensures Sound(AfterRead(x))
  {
    var y := AfterRead(x);
    ExitsPop(x.inbox);
    assert ForkedIn(y.inbox) <==> ForkedIn(x.inbox) by {
      if ForkedIn(x.inbox) {
        var i :| 0 <= i < |x.inbox| && x.inbox[i].Forked?;
        assert y.inbox[i - 1].Forked?;
      }
    }
    if x.request == NoRequest {
      var i: nat :| AnswerAt(x, i);
      if x.inbox[i].Forked? {
        DropPresent(x, x.inbox[i].clone, i);
      }
      assert AnswerAt(y, i - 1);
    }
  }

  lemma ReadAnswerKeeps(x: Template)
    requires Sound(x) && x.owner == Forking && x.inbox != [] && x.inbox[0].Forked?
    ensures Sound(AfterRead(x))
  {
    var y := AfterRead(x);
    assert x.request == NoRequest;
    var i: nat :| AnswerAt(x, i);
    assert i == 0;
    ExitsPop(x.inbox);
    DropPresent(x, x.inbox[0].clone, 0);
    assert OnlyExits(y.inbox);
    NoForked(y);
    assert ForkedIn(x.inbox);
  }

  lemma PresentCounts(x: Template, n: Id)
    requires Present(x, n, 0)
    ensures |x.live| + |x.zombies| + Exits(x.inbox) >= 1
  {
    if n !in x.live && n !in x.zombies {
      var j :| 0 <= j < |x.inbox| && x.inbox[j] == ChildExited(n);
      ExitsAtLeastOne(x.inbox, j);
    }
  }

  /**
   After every successful fork the count is at least one: the subtraction
   cannot saturate, and the owner's own test for zero there never holds.
   */
  lemma CountAfterFork(x: Template, now: nat)
    requires Sound(x) && x.owner.Announcing?
    ensures |x.events| <= x.children
    ensures AfterFork(x, now).children == x.children + 1 - |x.events| >= 1
    ensures AfterFork(x, now).idleSince == x.idleSince
    ensures Sound(AfterFork(x, now))
  {
    PresentCounts(x, x.owner.clone);
    NoForked(x);
  }

  lemma DrainOneKeeps(x: Template)
    requires Sound(x) && x.owner.Draining? && x.inbox != []
    ensures x.inbox[0].ChildExited?
    ensures Sound(x.(owner := Draining(x.owner.exits + 1), inbox := x.inbox[1..]))
  {
    ExitsPop(x.inbox);
    NoForked(x);
    NoForked(x.(inbox := x.inbox[1..]));
  }

  /** Between commands the subtraction cannot saturate either. */
  lemma CountAfterDrain(x: Template, now: nat)
    requires Sound(x) && x.owner.Draining? && x.inbox == []
    ensures x.owner.exits <= x.children
    ensures AfterDrain(x, x.owner.exits, now).children == x.children - x.owner.exits == |x.live| + |x.zombies|
    ensures Sound(AfterDrain(x, x.owner.exits, now))
  {
    NoForked(x);
  }

  // ----- the whole system

  /** A step of one template's owner or host that starts and ends no process. */
  lemma LocalStep(s: State, t: Id, x: Template)
    requires Inv(s) && t in s.templates
    requires Sound(x) && x.idleSince <= s.now
    requires x.live == s.templates[t].live && x.zombies <= s.templates[t].zombies
    ensures Inv(s.(templates := s.templates[t := x]))
  {
    hide Shaped, Balanced;
    var s' := s.(templates := s.templates[t := x]);
    assert Kept(s, t);
    forall u | u in s'.templates ensures Kept(s', u) {
      assert u != t ==> Kept(s, u);
    }
  }

  /** Only younger processes go down with one. */
  lemma {:induction false} FallsAbove(s: State, p: Id, q: Id)
    requires Falls(s, p, q)
    ensures p <= q
    ensures q != p ==> q in s.armed && q in s.parent && Falls(s, p, s.parent[q])
    decreases q
  {
    if q != p {
      FallsAbove(s, p, s.parent[q]);
    }
  }

  lemma EndKept(s: State, p: Id, byOwner: bool, u: Id)
    requires Inv(s) && p in s.alive && u in End(s, p, byOwner).templates
    ensures Kept(End(s, p, byOwner), u)
  {
    hide Shaped, Balanced;
    var s' := End(s, p, byOwner);
    assert Kept(s, u);
    var x, y := s.templates[u], s'.templates[u];
    forall q | q in s.parent && s.parent[q] == u && q != p
      ensures !Falls(s, p, q)
    {
      if Falls(s, p, q) {
        FallsAbove(s, p, q);
      }
    }
    if p in s.parent && s.parent[p] == u {
      assert p in x.live && p !in x.zombies;
      LeaveKeeps(x, p);
    }
    assert Falls(s, p, p);
  }

  /** A live clone becoming a zombie changes nothing in the account. */
  lemma LeaveKeeps(x: Template, p: Id)
    requires Sound(x) && p in x.live && p !in x.zombies
    ensures Sound(x.(live := x.live - {p}, zombies := x.zombies + {p}))
  {
    var y := x.(live := x.live - {p}, zombies := x.zombies + {p});
    if x.owner.Forking? && x.request == NoRequest {
      var i: nat :| AnswerAt(x, i);
      assert AnswerAt(y, i) by {
        if x.inbox[i].Forked? {
          LeavePresent(x, p, x.inbox[i].clone, i + 1);
        }
      }
    } else if x.owner.Announcing? {
      LeavePresent(x, p, x.owner.clone, 0);
    }
  }

  lemma LeavePresent(x: Template, p: Id, n: Id, from: nat)
    requires Present(x, n, from)
    ensures Present(x.(live := x.live - {p}, zombies := x.zombies + {p}), n, from)
  {
  }

  lemma EndKeeps(s: State, p: Id, byOwner: bool)
    requires Inv(s) && p in s.alive
    ensures Inv(End(s, p, byOwner))
  {
    hide Kept, Falls, Survivor;
    var s' := End(s, p, byOwner);
    forall u | u in s'.templates ensures Kept(s', u) {
      EndKept(s, p, byOwner, u);
    }
  }

  /** The account says nothing of who is armed, who serves and who is bereft. */
  lemma AsideKeeps(s: State, s': State)
    requires Inv(s) && s' == s.(armed := s'.armed, late := s'.late, served := s'.served, bereft := s'.bereft)
    ensures Inv(s')
  {
    hide Shaped, Balanced;
    forall u | u in s'.templates ensures Kept(s', u) {
      assert Kept(s, u);
    }
  }

  lemma SpawnKeeps(s: State)
    requires Inv(s)
    ensures Inv(s.(next := s.next + 1, alive := s.alive + {s.next}))
  {
    hide Shaped, Balanced;
    var s' := s.(next := s.next + 1, alive := s.alive + {s.next});
    forall u | u in s'.templates ensures Kept(s', u) {
      assert Kept(s, u);
    }
  }

  lemma FreezeKeeps(s: State, p: Id)
    requires Inv(s) && p in s.alive && p !in s.templates
    ensures Inv(s.(templates := s.templates[p := Fresh(s.now)]))
  {
    var s' := s.(templates := s.templates[p := Fresh(s.now)]);
    NoForked(Fresh(s.now));
    forall u | u in s'.templates ensures Kept(s', u) {
      if u != p {
        assert Kept(s, u);
      }
    }
  }

  lemma ForkKeeps(s: State, ttl: nat, t: Id)
    requires Inv(s) && Enabled(s, ttl, HostForks(t))
    ensures Inv(Apply(s, ttl, HostForks(t)))
  {
    hide Shaped, Balanced;
    var s' := Apply(s, ttl, HostForks(t));
    assert Kept(s, t);
    HostForksKeeps(s.templates[t], s.next);
    forall u | u in s'.templates ensures Kept(s', u) {
      assert Kept(s, u);
    }
  }

  /** Every step keeps the account of every template. */
  lemma StepKeeps(s: State, ttl: nat, step: Step)
    requires Inv(s) && Enabled(s, ttl, step)
    ensures Inv(Apply(s, ttl, step))
  {
    hide Shaped, Balanced, Falls, Survivor;
    match step
    case Pass(ticks) =>
      var s' := Apply(s, ttl, step);
      forall u | u in s'.templates ensures Kept(s', u) { assert Kept(s, u); }
    case Spawn => SpawnKeeps(s);
    case Freeze(p) => FreezeKeeps(s, p);
    case Exit(p) => EndKeeps(s, p, false);
    case HostForks(t) => ForkKeeps(s, ttl, t);
    case Arm(p) => AsideKeeps(s, Apply(s, ttl, step));
    case HeardLate(t, q) => AsideKeeps(s, Apply(s, ttl, step));
    case GivesUp(t) => AsideKeeps(s, Apply(s, ttl, step));
    case Expire(t) => assert Kept(s, t); EndKeeps(s, t, true);
    case ForkFails(t) => assert Kept(s, t); EndKeeps(s, t, true);
    case Disconnect(t) => assert Kept(s, t); EndKeeps(s, t, true);
    case HostLost(t) => assert Kept(s, t); EndKeeps(s, t, false);
    case _ => OwnerStepKeeps(s, ttl, step);
  }

  predicate OwnerStep(step: Step) {
    step.TakeFork? || step.HostAnswers? || step.HostRefuses? || step.Reap? || step.ReadReply? || step.Announced? || step.Timeout?
    || step.DrainOne? || step.DrainEnd? || step.KeepServing?
  }

  lemma OwnerStepKeeps(s: State, ttl: nat, step: Step)
    requires Inv(s) && Enabled(s, ttl, step) && OwnerStep(step)
    ensures Inv(Apply(s, ttl, step))
  {
    var x := s.templates[step.t];
    assert Kept(s, step.t);
    var y := Apply(s, ttl, step).templates[step.t];
    assert Sound(y) && y.idleSince <= s.now && y.live == x.live && y.zombies <= x.zombies by {
      OwnerStepSound(s, ttl, step);
    }
    LocalStep(s, step.t, y);
    OwnerStepFrame(s, ttl, step);
    AsideKeeps(s.(templates := s.templates[step.t := y]), Apply(s, ttl, step));
  }

  lemma OwnerStepSound(s: State, ttl: nat, step: Step)
    requires Inv(s) && Enabled(s, ttl, step) && OwnerStep(step)
    ensures var x := s.templates[step.t];
            var y := Apply(s, ttl, step).templates[step.t];
            Sound(y) && y.idleSince <= s.now && y.live == x.live && y.zombies <= x.zombies
  {
    hide Shaped, Balanced;
    var x := s.templates[step.t];
    assert Kept(s, step.t);
    match step
    case TakeFork(t) => TakeForkKeeps(x);
    case HostAnswers(t) => HostAnswersKeeps(x);
    case HostRefuses(t) => HostRefusesKeeps(x);
    case Reap(t, z) => ReapKeeps(x, z);
    case ReadReply(t) => if x.inbox[0].ChildExited? { ReadExitKeeps(x); } else { ReadAnswerKeeps(x); }
    case Announced(t) => CountAfterFork(x, s.now);
    case Timeout(t) => OwnerMoves(x, Draining(0));
    case DrainOne(t) => DrainOneKeeps(x);
    case DrainEnd(t) => CountAfterDrain(x, s.now);
    case KeepServing(t) => OwnerMoves(x, Waiting);
  }

  lemma OwnerMoves(x: Template, owner: Owner)
    requires Sound(x) && (x.owner == Waiting || x.owner == Deciding)
    requires owner == Waiting || owner == Draining(0)
    ensures Sound(x.(owner := owner))
  {
  }

  // ----- the parent-death signal

  /** Steps that end a process and what falls with it. */
  predicate Ends(step: Step) {
    step.Exit? || step.Expire? || step.ForkFails? || step.Disconnect? || step.HostLost?
  }

  function Ended(step: Step): Id
    requires Ends(step)
  {
    if step.Exit? then step.p else step.t
  }

  /** The owner of the template ends it. */
  predicate ByOwner(step: Step) {
    step.Expire? || step.ForkFails? || step.Disconnect?
  }

  lemma EndsByEnd(s: State, ttl: nat, step: Step)
    requires Enabled(s, ttl, step) && Ends(step)
    ensures Apply(s, ttl, step) == End(s, Ended(step), ByOwner(step))
    ensures Inv(s) ==> Ended(step) in s.alive
  {
    hide End, Shaped, Balanced, Expired, Pending;
    assert Inv(s) && !step.Exit? ==> Kept(s, step.t);
  }

  lemma EndArmed(s: State, p: Id, byOwner: bool)
    requires Inv(s) && ArmedOk(s) && p in s.alive
    ensures ArmedOk(End(s, p, byOwner))
  {
    hide Kept;
    var s' := End(s, p, byOwner);
    forall q | q in s'.alive && q in s'.armed
      ensures s'.parent[q] in s'.alive
    {
      assert !Falls(s, p, q) && s.parent[q] < q;
    }
  }

  /** Ending changes what an owner waits for in no way, whether it outlives its host or not. */
  lemma EndAwaited(s: State, p: Id, byOwner: bool, t: Id, q: Id)
    requires Awaited(s, t, q)
    ensures Awaited(End(s, p, byOwner), t, q)
  {
    hide Falls;
  }

  lemma EndGuards(s: State, p: Id, byOwner: bool)
    requires Inv(s) && Guarded(s) && p in s.alive
    ensures Guarded(End(s, p, byOwner))
  {
    EndArmed(s, p, byOwner);
    hide Inv, ArmedOk, Awaited, End;
    forall t, q ensures Awaited(End(s, p, byOwner), t, q) {
      EndAwaited(s, p, byOwner, t, q);
    }
  }

  lemma ArmGuards(s: State, ttl: nat, p: Id)
    requires Guarded(s) && Enabled(s, ttl, Arm(p))
    ensures Guarded(Apply(s, ttl, Arm(p)))
  {
    hide Expected, Pending;
    forall t, q ensures Awaited(Apply(s, ttl, Arm(p)), t, q) {
      assert Awaited(s, t, q);
    }
  }

  lemma ForkArmed(s: State, ttl: nat, t: Id)
    requires Inv(s) && ArmedOk(s) && Enabled(s, ttl, HostForks(t))
    ensures ArmedOk(Apply(s, ttl, HostForks(t)))
  {
    hide Shaped, Balanced;
    forall u | u in s.templates
      ensures u < s.next
    {
      assert Kept(s, u);
    }
  }

  lemma ForkAwaited(s: State, ttl: nat, step: Step, u: Id, q: Id)
    requires Awaited(s, u, q) && Enabled(s, ttl, step) && step.HostForks? && s.next !in s.parent
    ensures Awaited(Apply(s, ttl, step), u, q)
  {
  }

  lemma ForkGuards(s: State, ttl: nat, step: Step)
    requires Inv(s) && Guarded(s) && Enabled(s, ttl, step) && step.HostForks?
    ensures Guarded(Apply(s, ttl, step))
  {
    ForkArmed(s, ttl, step.t);
    assert s.next !in s.parent;
    hide Inv, ArmedOk, Awaited, Apply;
    forall u, q ensures Awaited(Apply(s, ttl, step), u, q) {
      ForkAwaited(s, ttl, step, u, q);
    }
  }

  /** An owner or host step keeps track of the clone it waits for. */
  lemma ExpectedKept(s: State, ttl: nat, step: Step, q: Id)
    requires Inv(s) && Enabled(s, ttl, step) && OwnerStep(step) && Expected(s.templates[step.t], q)
    ensures Expected(Apply(s, ttl, step).templates[step.t], q) || (step.Announced? && Rebuilt(s, q))
  {
    var x := s.templates[step.t];
    var y := Apply(s, ttl, step).templates[step.t];
    assert Kept(s, step.t);
    if i :| 0 <= i < |x.inbox| && x.inbox[i] == Forked(q) {
      assert x.owner == Forking && x.request == NoRequest;
      if step.ReadReply? {
        assert i > 0 ==> y.inbox[i - 1] == Forked(q);
      } else {
        assert y.inbox[i] == Forked(q);
      }
    } else if step.HostAnswers? {
      RequestMeansForking(x);
      assert y.inbox[|x.inbox|] == Forked(q);
    }
  }

  /** And waits for no other. */
  lemma ExpectedBefore(s: State, ttl: nat, step: Step, q: Id)
    requires Enabled(s, ttl, step) && OwnerStep(step) && Expected(Apply(s, ttl, step).templates[step.t], q)
    ensures Expected(s.templates[step.t], q)
  {
    var x := s.templates[step.t];
    var y := Apply(s, ttl, step).templates[step.t];
    if i :| 0 <= i < |y.inbox| && y.inbox[i] == Forked(q) {
      if step.ReadReply? || step.DrainOne? {
        assert x.inbox[i + 1] == Forked(q);
      } else if i < |x.inbox| {
        assert x.inbox[i] == Forked(q);
      }
    }
  }

  lemma OwnerStepFrame(s: State, ttl: nat, step: Step)
    requires Enabled(s, ttl, step) && OwnerStep(step)
    ensures var s' := Apply(s, ttl, step);
            && step.t in s.templates && step.t in s'.templates
            && s' == s.(served := s'.served, templates := s.templates[step.t := s'.templates[step.t]])
            && s.served <= s'.served
            && (forall q :: q in s'.served && q !in s.served ==> Rebuilt(s, q))
  {
    hide AfterFork, AfterDrain, AfterRead;
  }

  lemma OwnerArmed(s: State, ttl: nat, step: Step)
    requires ArmedOk(s) && Enabled(s, ttl, step) && OwnerStep(step)
    ensures ArmedOk(Apply(s, ttl, step))
  {
    OwnerStepFrame(s, ttl, step);
    hide Apply;
  }

  lemma OwnerAwaited(s: State, ttl: nat, step: Step, q: Id)
    requires Inv(s) && ArmedOk(s) && OwnerStep(step) && Awaited(s, step.t, q) && Enabled(s, ttl, step)
    ensures Awaited(Apply(s, ttl, step), step.t, q)
  {
    OwnerStepFrame(s, ttl, step);
    OwnerStepSound(s, ttl, step);
    if Expected(Apply(s, ttl, step).templates[step.t], q) {
      ExpectedBefore(s, ttl, step, q);
    }
    if q in s.templates[step.t].live && q !in s.armed {
      ExpectedKept(s, ttl, step, q);
      assert Kept(s, step.t);
    }
    hide Expected, Pending, Apply, Sound, Kept;
  }

  lemma OwnerGuards(s: State, ttl: nat, step: Step)
    requires Inv(s) && Guarded(s) && Enabled(s, ttl, step) && OwnerStep(step)
    ensures Guarded(Apply(s, ttl, step))
  {
    OwnerArmed(s, ttl, step);
    OwnerStepFrame(s, ttl, step);
    hide Inv, ArmedOk, Expected, Pending, Apply, Enabled;
    var s' := Apply(s, ttl, step);
    forall t, q ensures Awaited(s', t, q) {
      assert Awaited(s, t, q);
      if t == step.t {
        OwnerAwaited(s, ttl, step, q);
      }
    }
  }

  lemma FreezeGuards(s: State, p: Id)
    requires Guarded(s) && p !in s.templates && (p in s.parent ==> p in s.served)
    ensures Guarded(s.(templates := s.templates[p := Fresh(s.now)]))
  {
    var s' := s.(templates := s.templates[p := Fresh(s.now)]);
    assert ArmedOk(s');
    assert forall q :: !Expected(Fresh(s.now), q);
    hide ArmedOk, Expected, Pending;
    forall t, q ensures Awaited(s', t, q) {
      assert Awaited(s, t, q);
    }
  }

  lemma OtherArmed(s: State, ttl: nat, step: Step)
    requires Inv(s) && ArmedOk(s) && Enabled(s, ttl, step)
    requires step.Pass? || step.Spawn? || step.HeardLate? || step.GivesUp?
    ensures ArmedOk(Apply(s, ttl, step))
  {
    hide Kept, Pending;
  }

  lemma OtherGuards(s: State, ttl: nat, step: Step)
    requires Inv(s) && Guarded(s) && Enabled(s, ttl, step)
    requires step.Pass? || step.Spawn? || step.HeardLate? || step.GivesUp?
    ensures Guarded(Apply(s, ttl, step))
  {
    OtherArmed(s, ttl, step);
    hide Inv, ArmedOk, Expected, Pending;
    forall t, q ensures Awaited(Apply(s, ttl, step), t, q) {
      assert Awaited(s, t, q);
    }
  }

  /** Every step keeps live clones armed in time under their parents, and owners to their own clones. */
  lemma StepGuards(s: State, ttl: nat, step: Step)
    requires Inv(s) && Guarded(s) && Enabled(s, ttl, step)
    ensures Guarded(Apply(s, ttl, step))
  {
    if Ends(step) {
      EndsByEnd(s, ttl, step);
      EndGuards(s, Ended(step), ByOwner(step));
    } else if OwnerStep(step) {
      OwnerGuards(s, ttl, step);
    } else if step.HostForks? {
      ForkGuards(s, ttl, step);
    } else if step.Arm? {
      ArmGuards(s, ttl, step.p);
    } else if step.Freeze? {
      FreezeGuards(s, step.p);
    } else {
      OtherGuards(s, ttl, step);
    }
  }
}
