/** Exactly which `forget` and `clear` can lead to a doubled slot or a second live template. */
module SlotForgets {
  import opened Wrappers
  import opened Slots
  import opened SlotSteps
  import opened SlotRuns
  import opened SlotExact

  ghost predicate Continues(s: State, run: seq<State>, steps: seq<Step>) {
    |run| == |steps| + 1 && run[0] == s && forall i :: 0 <= i < |steps| ==> Steps(run, steps, i)
  }

  ghost predicate TwoAt(run: seq<State>, steps: seq<Step>, i: nat) {
    i < |steps| && i < |run| && (Doubles(run[i], steps[i]) || Refills(run[i], steps[i]))
  }

  /** A key can come to have two slots in use, or two live templates, though nothing more is forgotten. */
  ghost predicate CanDouble(s: State) {
    exists run: seq<State>, steps: seq<Step>, i: nat ::
      Continues(s, run, steps) && OnlyPruned(steps) && TwoAt(run, steps, i)
  }

  // ----- from a state in order

  lemma {:induction false} ContinuesInOrder(s: State, run: seq<State>, steps: seq<Step>, n: nat)
    requires Inv(s) && Continues(s, run, steps) && OnlyPruned(steps) && n < |run|
    ensures Inv(run[n])
    decreases n
  {
    if n > 0 {
      ContinuesInOrder(s, run, steps, n - 1);
      assert Steps(run, steps, n - 1);
      hide Inv, Apply;
      StepKeeps(run[n - 1], steps[n - 1]);
    }
  }

  lemma OrderCannotDouble(s: State)
    requires Inv(s)
    ensures !CanDouble(s)
  {
    hide Inv;
    if run: seq<State>, steps: seq<Step>, i: nat :| Continues(s, run, steps) && OnlyPruned(steps) && TwoAt(run, steps, i) {
      ContinuesInOrder(s, run, steps, i);
      assert Steps(run, steps, i);
      NeitherNow(run[i], steps[i]);
    }
  }

  // ----- from a state in which a slot was forgotten

  lemma {:induction false} NewNumber(ids: set<nat>) returns (n: nat)
    ensures forall i :: i in ids ==> i < n
    decreases ids
  {
    if ids == {} {
      n := 0;
    } else {
      var i :| i in ids;
      var m := NewNumber(ids - {i});
      n := if i < m then m else i + 1;
      assert ids == (ids - {i}) + {i};
    }
  }

  function Newcomer(k: Key, stage: Stage, sl: Option<SlotId>): Request {
    Request(k, None, stage, sl, None, None)
  }

  /** A newcomer for a key without a slot, as far as filling the one it makes. */
  lemma Newcomes(s: State, k: Key, id: RequestId)
    requires Basic(s) && k !in s.mapped && id !in s.requests
    ensures var n := |s.slots|;
            var s1 := Put(s, id, Newcomer(k, Start, None));
            var s2 := Put(s.(mapped := s.mapped[k := n], slots := s.slots + [Slot(k, None)]), id, Newcomer(k, Waiting, Some(n)));
            && Enabled(s, Arrive(id, k, None)) && Apply(s, Arrive(id, k, None)) == s1
            && Enabled(s1, Take(id)) && Apply(s1, Take(id)) == s2
            && TakenKey(s1.requests[id]) == k && n !in s2.locks
  {
    var n := |s.slots|;
    var s1 := Put(s, id, Newcomer(k, Start, None));
    assert s1.requests[id := Newcomer(k, Waiting, Some(n))] == s.requests[id := Newcomer(k, Waiting, Some(n))];
  }

  lemma DoublesNow(s: State, step: Step)
    requires Enabled(s, step) && !step.Forget? && !step.Clear? && (Doubles(s, step) || Refills(s, step))
    ensures CanDouble(s)
  {
    hide Enabled, Apply, Doubles, Refills;
    var run, steps := [s, Apply(s, step)], [step];
    assert Steps(run, steps, 0) && Continues(s, run, steps) && TwoAt(run, steps, 0);
  }

  lemma DoublesLater(s: State, step: Step)
    requires Enabled(s, step) && !step.Forget? && !step.Clear? && CanDouble(Apply(s, step))
    ensures CanDouble(s)
  {
    hide Enabled, Apply, Doubles, Refills;
    var run: seq<State>, steps: seq<Step>, i: nat :|
      Continues(Apply(s, step), run, steps) && OnlyPruned(steps) && TwoAt(run, steps, i);
    var more, first := [s] + run, [step] + steps;
    forall j: nat | j < |first|
      ensures Steps(more, first, j)
    {
      assert j > 0 ==> Steps(run, steps, j - 1);
    }
    assert Continues(s, more, first) && TwoAt(more, first, i + 1);
  }

  /** Somebody still holds a slot of the key: the newcomer makes a second. */
  lemma HeldDoubles(s: State, k: Key, sl: SlotId)
    requires Basic(s) && k !in s.mapped && sl < |s.slots| && s.slots[sl].key == k && Referred(s, sl)
    ensures CanDouble(s)
  {
    var id := NewNumber(s.requests.Keys);
    Newcomes(s, k, id);
    hide Basic, Apply, Enabled, CanDouble;
    var s1 := Apply(s, Arrive(id, k, None));
    var other :| other in s.requests && Refers(s.requests[other], sl);
    assert s1.requests[other] == s.requests[other] && Referred(s1, sl);
    DoublesNow(s1, Take(id));
    DoublesLater(s, Arrive(id, k, None));
  }

  /** It locks its slot, finds it empty and sets out to fill it. */
  lemma NewcomerFills(s: State, k: Key, id: RequestId, n: SlotId)
    requires id in s.requests && s.requests[id] == Newcomer(k, Waiting, Some(n)) && n !in s.locks
    requires n < |s.slots| && s.slots[n] == Slot(k, None)
    ensures var s3 := Put(s.(locks := s.locks[n := id]), id, Newcomer(k, Locked, Some(n)));
            var s4 := Put(s3, id, Newcomer(k, Filling, Some(n)));
            && Enabled(s, Lock(id)) && Apply(s, Lock(id)) == s3
            && Enabled(s3, Check(id)) && Apply(s3, Check(id)) == s4
            && Enabled(s4, Fill(id))
  {
  }

  /** A template of the key lives on: the newcomer fills the key again. */
  lemma LivingRefills(s: State, k: Key, x: TemplateId)
    requires Basic(s) && k !in s.mapped && x in s.alive && x < |s.templates| && s.templates[x] == k
    ensures CanDouble(s)
  {
    var id := NewNumber(s.requests.Keys);
    Newcomes(s, k, id);
    hide Basic, Apply, Enabled, CanDouble;
    var s1 := Apply(s, Arrive(id, k, None));
    var s2 := Apply(s1, Take(id));
    NewcomerFills(s2, k, id, |s.slots|);
    var s3 := Apply(s2, Lock(id));
    var s4 := Apply(s3, Check(id));
    assert s4.templates == s.templates && s4.alive == s.alive && CurrentKey(s4.requests[id]) == k;
    DoublesNow(s4, Fill(id));
    DoublesLater(s3, Check(id));
    DoublesLater(s2, Lock(id));
    DoublesLater(s1, Take(id));
    DoublesLater(s, Arrive(id, k, None));
  }

  lemma ForgottenDoubles(s: State, step: Step, k: Key)
    requires Basic(s) && (step == Forget(k) || step == Clear) && !Idle(s, k)
    ensures CanDouble(Apply(s, step))
  {
    var t, sl := Apply(s, step), s.mapped[k];
    StepBasic(s, step);
    if Referred(s, sl) {
      assert Referred(t, sl);
      HeldDoubles(t, k, sl);
    } else {
      LivingRefills(t, k, s.slots[sl].content.value);
    }
  }

  /**
   Exactly when, in every state that is in order: a `forget` or `clear` can
   lead to a key with two slots in use or two live templates, with nothing
   more forgotten, if and only if it meets a slot that a request holds or that
   has a live template.
   */
  lemma HarmlessExactly(s: State, step: Step)
    requires Inv(s) && (step.Forget? || step.Clear?)
    ensures CanDouble(Apply(s, step)) <==> !Harmless(s, step)
  {
    if Harmless(s, step) {
      HarmlessKeeps(s, step);
      OrderCannotDouble(Apply(s, step));
    } else {
      var k :| !Idle(s, k) && (step == Forget(k) || step == Clear);
      ForgottenDoubles(s, step, k);
    }
  }

  /** And so in every run whose earlier ones were harmless. */
  lemma FirstHarmExactly(run: seq<State>, steps: seq<Step>, n: nat)
    requires IsRun(run, steps) && n < |steps| && (steps[n].Forget? || steps[n].Clear?)
    requires forall i :: 0 <= i < n ==> Harmless(run[i], steps[i])
    ensures CanDouble(run[n + 1]) <==> !Harmless(run[n], steps[n])
  {
    HarmlessRun(run, steps, n);
    assert Steps(run, steps, n);
    HarmlessExactly(run[n], steps[n]);
  }
}
