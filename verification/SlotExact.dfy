/** Exactly when a key has one slot in use, and exactly when it has one live template, over all runs. */
module SlotExact {
  import opened Wrappers
  import opened Slots
  import opened SlotSteps
  import opened SlotRuns

  // ----- one slot in use

  /** The slot is one of the key's, in the map or in a request's hands. */
  ghost predicate UsedFor(s: State, sl: SlotId, k: Key) {
    sl < |s.slots| && s.slots[sl].key == k && ((k in s.mapped && s.mapped[k] == sl) || Referred(s, sl))
  }

  ghost predicate OneInUse(s: State) {
    forall a: SlotId, b: SlotId, k: Key :: UsedFor(s, a, k) && UsedFor(s, b, k) ==> a == b
  }

  /** The key whose slot a request takes next. */
  function TakenKey(r: Request): Key {
    if r.stage == Between && r.recipe.Some? then r.recipe.value else r.base
  }

  /** Some request refers to a slot of the key. */
  ghost predicate KeyReferred(s: State, k: Key) {
    exists sl: SlotId :: sl < |s.slots| && s.slots[sl].key == k && Referred(s, sl)
  }

  /** The step makes a slot for a key while a request still holds another slot of it. */
  ghost predicate Doubles(s: State, step: Step) {
    && step.Take? && step.id in s.requests
    && var k := TakenKey(s.requests[step.id]);
       k !in s.mapped && KeyReferred(s, k)
  }

  /** A step that takes no slot brings none into use. */
  lemma NoneComesIntoUse(s: State, step: Step, sl: SlotId, k: Key)
    requires Enabled(s, step) && !step.Take? && UsedFor(Apply(s, step), sl, k)
    ensures UsedFor(s, sl, k)
  {
    hide Fresh, Retained, Unlocked;
    var t := Apply(s, step);
    if Referred(t, sl) {
      var id :| id in t.requests && Refers(t.requests[id], sl);
      assert id in s.requests && Refers(s.requests[id], sl);
    }
  }

  /** Taking a slot brings at most that slot into use. */
  lemma TakeInUse(s: State, id: RequestId, sl: SlotId, k: Key)
    requires Basic(s) && Enabled(s, Take(id)) && UsedFor(Taken(s, id), sl, k)
    ensures if sl < |s.slots| then UsedFor(s, sl, k)
            else k == TakenKey(s.requests[id]) && k !in s.mapped && sl == |s.slots|
  {
    hide LocksOk, Fresh;
    var t := Taken(s, id);
    if Referred(t, sl) {
      var other :| other in t.requests && Refers(t.requests[other], sl);
      if other in s.requests && Refers(s.requests[other], sl) {
        assert Referred(s, sl);
      } else {
        assert other == id;
      }
    }
  }

  lemma TakeKeepsUse(s: State, id: RequestId, sl: SlotId, k: Key)
    requires Basic(s) && Enabled(s, Take(id)) && Referred(s, sl) && sl < |s.slots| && s.slots[sl].key == k
    ensures UsedFor(Taken(s, id), sl, k)
  {
    hide LocksOk, SlotsOk, Fresh;
    var t := Taken(s, id);
    var other :| other in s.requests && Refers(s.requests[other], sl);
    assert RequestOk(s, s.requests[id]);
    assert other in t.requests && Refers(t.requests[other], sl);
  }

  lemma NewInUse(s: State, id: RequestId)
    requires Enabled(s, Take(id)) && TakenKey(s.requests[id]) !in s.mapped
    ensures UsedFor(Taken(s, id), |s.slots|, TakenKey(s.requests[id]))
  {
  }

  lemma TakeExactly(s: State, id: RequestId)
    requires Basic(s) && OneInUse(s) && Enabled(s, Take(id))
    ensures OneInUse(Taken(s, id)) <==> !Doubles(s, Take(id))
  {
    var t := Taken(s, id);
    var k, n := TakenKey(s.requests[id]), |s.slots|;
    assert forall sl: SlotId :: UsedFor(s, sl, k) && k !in s.mapped ==> KeyReferred(s, k);
    hide Basic, UsedFor, Referred, Taken;
    if Doubles(s, Take(id)) {
      var sl: SlotId :| sl < |s.slots| && s.slots[sl].key == k && Referred(s, sl);
      TakeKeepsUse(s, id, sl, k);
      NewInUse(s, id);
    } else {
      forall a: SlotId, b: SlotId, key: Key | UsedFor(t, a, key) && UsedFor(t, b, key)
        ensures a == b
      {
        TakeInUse(s, id, a, key);
        TakeInUse(s, id, b, key);
      }
    }
  }

  /** One step keeps one slot in use for each key exactly unless it doubles one. */
  lemma StepInUse(s: State, step: Step)
    requires Basic(s) && OneInUse(s) && Enabled(s, step)
    ensures OneInUse(Apply(s, step)) <==> !Doubles(s, step)
  {
    if step.Take? {
      TakeExactly(s, step.id);
    } else {
      hide Basic, UsedFor, Apply;
      var t := Apply(s, step);
      forall a: SlotId, b: SlotId, k: Key | UsedFor(t, a, k) && UsedFor(t, b, k)
        ensures a == b
      {
        NoneComesIntoUse(s, step, a, k);
        NoneComesIntoUse(s, step, b, k);
      }
    }
  }

  lemma {:induction false} InUseUpTo(run: seq<State>, steps: seq<Step>, n: nat)
    requires IsRun(run, steps) && n < |run|
    requires forall i :: 0 <= i < n ==> !Doubles(run[i], steps[i])
    ensures OneInUse(run[n])
    decreases n
  {
    if n > 0 {
      InUseUpTo(run, steps, n - 1);
      RunBasic(run, steps, n - 1);
      assert Steps(run, steps, n - 1) && !Doubles(run[n - 1], steps[n - 1]);
      hide Basic, OneInUse, Doubles, Apply;
      StepInUse(run[n - 1], steps[n - 1]);
    }
  }

  /**
   In every run, with any `forget` and `clear`: a key never has two slots in
   use if and only if no request makes a slot for a key while another still
   holds one.
   */
  lemma OneSlotExactly(run: seq<State>, steps: seq<Step>)
    requires IsRun(run, steps)
    ensures (forall n :: 0 <= n < |run| ==> OneInUse(run[n])) <==> (forall i :: 0 <= i < |steps| ==> !Doubles(run[i], steps[i]))
  {
    hide OneInUse, Doubles;
    if forall n :: 0 <= n < |run| ==> OneInUse(run[n]) {
      forall i | 0 <= i < |steps|
        ensures !Doubles(run[i], steps[i])
      {
        RunBasic(run, steps, i);
        assert Steps(run, steps, i) && OneInUse(run[i]) && OneInUse(run[i + 1]);
        StepInUse(run[i], steps[i]);
      }
    }
    if forall i :: 0 <= i < |steps| ==> !Doubles(run[i], steps[i]) {
      forall n: nat | n < |run|
        ensures OneInUse(run[n])
      {
        InUseUpTo(run, steps, n);
      }
    }
  }

  /** Until then, one request at most is filling a key. */
  lemma OneFillUntilDoubled(run: seq<State>, steps: seq<Step>, n: nat, i: RequestId, j: RequestId)
    requires IsRun(run, steps) && n < |run| && forall m :: 0 <= m < n ==> !Doubles(run[m], steps[m])
    requires i in run[n].requests && run[n].requests[i].stage == Filling
    requires j in run[n].requests && run[n].requests[j].stage == Filling
    requires CurrentKey(run[n].requests[i]) == CurrentKey(run[n].requests[j])
    ensures i == j
  {
    InUseUpTo(run, steps, n);
    RunBasic(run, steps, n);
    var s := run[n];
    hide IsRun, Doubles, SlotsOk;
    assert RequestOk(s, s.requests[i]) && RequestOk(s, s.requests[j]);
    var a, b := Current(s.requests[i]).value, Current(s.requests[j]).value;
    assert Refers(s.requests[i], a) && Refers(s.requests[j], b);
    var k := CurrentKey(s.requests[i]);
    assert UsedFor(s, a, k) && UsedFor(s, b, k);
    OneAtLock(s, i, j);
  }

  // ----- one live template

  ghost predicate OneAlive(s: State) {
    forall x: TemplateId, y: TemplateId ::
      (x in s.alive && y in s.alive && x < |s.templates| && y < |s.templates| && s.templates[x] == s.templates[y])
      ==> x == y
  }

  /** The step ends a fill of a key that has a template alive; the slot it fills is not where that one is. */
  ghost predicate Refills(s: State, step: Step) {
    && step.Fill? && step.id in s.requests
    && exists x: TemplateId :: x in s.alive && x < |s.templates| && s.templates[x] == CurrentKey(s.requests[step.id])
  }

  /** A live template that a fill meets is outside the slot being filled. */
  lemma RefilledElsewhere(s: State, id: RequestId, x: TemplateId)
    requires Basic(s) && Enabled(s, Fill(id)) && x in s.alive
    ensures s.slots[Current(s.requests[id]).value].content != Some(x)
  {
    assert RequestOk(s, s.requests[id]);
  }

  lemma FillAlive(s: State, id: RequestId)
    requires Basic(s) && OneAlive(s) && Enabled(s, Fill(id))
    ensures OneAlive(Filled(s, id)) <==> !Refills(s, Fill(id))
  {
    hide LocksOk, Unlocked;
    var t, n := Filled(s, id), |s.templates|;
    assert RequestOk(s, s.requests[id]);
    assert s.slots[Current(s.requests[id]).value].key == CurrentKey(s.requests[id]);
    assert t.templates[n] == CurrentKey(s.requests[id]);
    assert forall x: TemplateId :: x in s.alive ==> x < n && t.templates[x] == s.templates[x];
    if Refills(s, Fill(id)) {
      var x: TemplateId :| x in s.alive && x < |s.templates| && s.templates[x] == CurrentKey(s.requests[id]);
      assert x in t.alive && n in t.alive && t.templates[x] == t.templates[n];
    }
  }

  /** One step keeps one live template for each key exactly unless it refills one. */
  lemma StepAlive(s: State, step: Step)
    requires Basic(s) && OneAlive(s) && Enabled(s, step)
    ensures OneAlive(Apply(s, step)) <==> !Refills(s, step)
  {
    if step.Fill? {
      FillAlive(s, step.id);
    } else {
      hide Basic, Fresh, Retained, Unlocked;
      assert Apply(s, step).templates == s.templates && Apply(s, step).alive <= s.alive;
    }
  }

  lemma {:induction false} AliveUpTo(run: seq<State>, steps: seq<Step>, n: nat)
    requires IsRun(run, steps) && n < |run|
    requires forall i :: 0 <= i < |steps| ==> !Refills(run[i], steps[i])
    ensures OneAlive(run[n])
    decreases n
  {
    if n > 0 {
      AliveUpTo(run, steps, n - 1);
      RunBasic(run, steps, n - 1);
      assert Steps(run, steps, n - 1) && !Refills(run[n - 1], steps[n - 1]);
      hide Basic, OneAlive, Refills, Apply;
      StepAlive(run[n - 1], steps[n - 1]);
    }
  }

  /**
   In every run, with any `forget` and `clear`: a key never has two live
   templates if and only if no fill of a key ends while a template of it is
   alive elsewhere.
   */
  lemma OneTemplateExactly(run: seq<State>, steps: seq<Step>)
    requires IsRun(run, steps)
    ensures (forall n :: 0 <= n < |run| ==> OneAlive(run[n])) <==> (forall i :: 0 <= i < |steps| ==> !Refills(run[i], steps[i]))
  {
    hide OneAlive, Refills;
    if forall n :: 0 <= n < |run| ==> OneAlive(run[n]) {
      forall i | 0 <= i < |steps|
        ensures !Refills(run[i], steps[i])
      {
        RunBasic(run, steps, i);
        assert Steps(run, steps, i) && OneAlive(run[i]) && OneAlive(run[i + 1]);
        StepAlive(run[i], steps[i]);
      }
    }
    if forall i :: 0 <= i < |steps| ==> !Refills(run[i], steps[i]) {
      forall n: nat | n < |run|
        ensures OneAlive(run[n])
      {
        AliveUpTo(run, steps, n);
      }
    }
  }

  // ----- when `forget` is harmless

  /** The slot is in nobody's hands and holds no live template. */
  ghost predicate Idle(s: State, k: Key) {
    k in s.mapped ==> !Referred(s, s.mapped[k]) && !Fresh(s, s.mapped[k])
  }

  ghost predicate Harmless(s: State, step: Step) {
    && (step.Forget? ==> Idle(s, step.key))
    && (step.Clear? ==> forall k :: k in s.mapped ==> Idle(s, k))
  }

  lemma UnmapStored(s: State, step: Step)
    requires Inv(s) && Harmless(s, step) && (step.Forget? || step.Clear?)
    ensures Stored(Apply(s, step))
  {
    hide LocksOk, RequestsOk, Referred;
    var t := Apply(s, step);
    forall x | x in t.alive && x < |t.templates|
      ensures t.templates[x] in t.mapped && t.mapped[t.templates[x]] < |t.slots|
      ensures t.slots[t.mapped[t.templates[x]]].content == Some(x)
    {
      var k := s.templates[x];
      assert Fresh(s, s.mapped[k]);
      assert !Idle(s, k);
    }
  }

  lemma HarmlessKeeps(s: State, step: Step)
    requires Inv(s) && Enabled(s, step) && Harmless(s, step)
    ensures Inv(Apply(s, step))
  {
    if step.Forget? || step.Clear? {
      StepBasic(s, step);
      SingleExactly(s, step);
      UnmapStored(s, step);
    } else {
      StepKeeps(s, step);
    }
  }

  lemma {:induction false} HarmlessRun(run: seq<State>, steps: seq<Step>, n: nat)
    requires IsRun(run, steps) && n < |run| && forall i :: 0 <= i < n ==> Harmless(run[i], steps[i])
    ensures Inv(run[n])
    decreases n
  {
    if n > 0 {
      HarmlessRun(run, steps, n - 1);
      assert Steps(run, steps, n - 1) && Harmless(run[n - 1], steps[n - 1]);
      hide Inv, Harmless, Apply;
      HarmlessKeeps(run[n - 1], steps[n - 1]);
    }
  }

  /** From a state in order, no step doubles a slot or refills a key. */
  lemma NeitherNow(s: State, step: Step)
    requires Inv(s) && Enabled(s, step)
    ensures !Doubles(s, step) && !Refills(s, step)
  {
    hide LocksOk;
    if step.Fill? {
      assert RequestOk(s, s.requests[step.id]);
      var sl := Current(s.requests[step.id]).value;
      assert Refers(s.requests[step.id], sl);
      forall x: TemplateId | x in s.alive && x < |s.templates|
        ensures s.templates[x] != CurrentKey(s.requests[step.id])
      {
        assert s.slots[s.mapped[s.templates[x]]].content == Some(x);
      }
    }
  }

  /**
   In every run whose `forget` and `clear` meet only slots that nobody holds
   and that have no live template, no slot is doubled and no key refilled.
   */
  lemma HarmlessForgets(run: seq<State>, steps: seq<Step>, n: nat)
    requires IsRun(run, steps) && n < |steps| && forall i :: 0 <= i < |steps| ==> Harmless(run[i], steps[i])
    ensures !Doubles(run[n], steps[n]) && !Refills(run[n], steps[n])
  {
    HarmlessRun(run, steps, n);
    assert Steps(run, steps, n);
    NeitherNow(run[n], steps[n]);
  }

  // ----- what `forget` costs

  /** One request fills the key, its slot is forgotten, and another fills it again. */
  function RefillStep(k: Key, i: nat): Step {
    if i == 0 then Arrive(0, k, None) else if i == 1 then Take(0) else if i == 2 then Lock(0) else if i == 3 then Check(0)
    else if i == 4 then Fill(0) else if i == 5 then Forget(k) else if i == 6 then Arrive(1, k, None)
    else if i == 7 then Take(1) else if i == 8 then Lock(1) else if i == 9 then Check(1) else Fill(1)
  }

  function RefillRequest(k: Key, stage: Stage, sl: SlotId): Request {
    if stage == Start then Request(k, None, Start, None, None, None)
    else if stage == Ended then Request(k, None, Ended, None, None, Some(sl))
    else Request(k, None, stage, Some(sl), None, None)
  }

  function RefillStage(i: int): Stage {
    if i <= 1 then Start else if i == 2 then Waiting else if i == 3 then Locked else if i == 4 then Filling else Ended
  }

  function RefillSlots(k: Key, i: nat): seq<Slot> {
    if i < 2 then [] else if i < 5 then [Slot(k, None)] else if i < 8 then [Slot(k, Some(0))]
    else if i < 11 then [Slot(k, Some(0)), Slot(k, None)] else [Slot(k, Some(0)), Slot(k, Some(1))]
  }

  function RefillState(k: Key, i: nat): State {
    State(if i < 2 || i == 6 || i == 7 then map[] else if i < 6 then map[k := 0] else map[k := 1],
          RefillSlots(k, i),
          if i == 3 || i == 4 then map[0 := 0] else if i == 9 || i == 10 then map[1 := 1] else map[],
          if i < 5 then [] else if i < 11 then [k] else [k, k],
          if i < 5 then {} else if i < 11 then {0} else {0, 1},
          if i == 0 then map[]
          else if i < 7 then map[0 := RefillRequest(k, RefillStage(i), 0)]
          else map[0 := RefillRequest(k, Ended, 0), 1 := RefillRequest(k, RefillStage(i - 6), 1)])
  }

  ghost predicate RefillGoes(k: Key, i: nat) {
    && Enabled(RefillState(k, i), RefillStep(k, i))
    && Apply(RefillState(k, i), RefillStep(k, i)) == RefillState(k, i + 1)
  }

  lemma RefillFirst(k: Key, i: nat)
    requires i < 4
    ensures RefillGoes(k, i)
  {
  }

  lemma RefillForgets(k: Key, i: nat)
    requires 4 <= i < 7
    ensures RefillGoes(k, i)
  {
  }

  lemma RefillAgain(k: Key, i: nat)
    requires 7 <= i < 10
    ensures RefillGoes(k, i)
  {
  }

  lemma RefillLast(k: Key)
    ensures RefillGoes(k, 10)
  {
    var t := Apply(RefillState(k, 10), Fill(1));
    assert t.slots == RefillSlots(k, 11) && t.alive == {0, 1} && t.templates == [k, k];
  }

  /** With `forget`, a key can have two live templates, whatever the key. */
  lemma ForgetLetsTwoLive(k: Key) returns (run: seq<State>, steps: seq<Step>)
    ensures IsRun(run, steps) && |run| == 12
    ensures run[11].alive == {0, 1} && run[11].templates == [k, k]
  {
    run := seq(12, i requires 0 <= i < 12 => RefillState(k, i));
    steps := seq(11, i requires 0 <= i < 11 => RefillStep(k, i));
    assert run[0] == EMPTY && run[11] == RefillState(k, 11);
    assert run[11].alive == {0, 1} && run[11].templates == [k, k];
    hide RefillState, RefillStep, Enabled, Apply;
    forall i: nat | i < 11
      ensures Steps(run, steps, i)
    {
      if i < 4 {
        RefillFirst(k, i);
      } else if i < 7 {
        RefillForgets(k, i);
      } else if i < 10 {
        RefillAgain(k, i);
      } else {
        RefillLast(k);
      }
    }
  }
}
