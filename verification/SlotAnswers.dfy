/** What `obtain` answers, told from what the request asked for. */
module SlotAnswers {
  import opened Wrappers
  import opened Slots
  import opened SlotSteps
  import opened SlotRuns

  /** The template is alive and was made for the key. */
  ghost predicate LiveFor(s: State, x: TemplateId, k: Key) {
    x in s.alive && x < |s.templates| && s.templates[x] == k
  }

  /** The key whose template a request is to end with. */
  function Wanted(base: Key, recipe: Option<Key>): Key {
    if recipe.Some? then recipe.value else base
  }

  ghost predicate EndsWith(s: State, s': State, id: RequestId, x: TemplateId) {
    && id in s.requests && s.requests[id].stage != Ended
    && id in s'.requests && s'.requests[id].stage == Ended && s'.requests[id].template == Some(x)
  }

  ghost predicate GoesOnWith(s: State, s': State, id: RequestId, x: TemplateId) {
    && id in s.requests && s.requests[id].stage != Between
    && id in s'.requests && s'.requests[id].stage == Between && s'.requests[id].template == Some(x)
  }

  /** What a request asked for stays what it was. */
  lemma StepKeepsAsked(s: State, step: Step, id: RequestId)
    requires Enabled(s, step) && id in s.requests
    ensures var s' := Apply(s, step);
            id in s'.requests && s'.requests[id].base == s.requests[id].base && s'.requests[id].recipe == s.requests[id].recipe
  {
    hide Fresh, Retained, Unlocked;
  }

  /**
   One step of a request that uses its slot. It sets out to fill, exactly when
   the slot has no live template; or it gets a live template, of its base while
   it has no recipe's slot and of its recipe afterwards, and goes on exactly
   when a recipe is still to come. A fill makes a new one and stores it.
   */
  lemma UseAnswers(s: State, step: Step)
    requires Basic(s) && Enabled(s, step) && (step.Check? || step.Fill?)
    ensures var s', r := Apply(s, step), s.requests[step.id];
            var r' := s'.requests[step.id];
            || (step.Check? && r' == r.(stage := Filling))
            || (&& r'.template.Some?
                && (if r.recipeSlot.None? then LiveFor(s', r'.template.value, r.base)
                    else r.recipe.Some? && LiveFor(s', r'.template.value, r.recipe.value))
                && (r'.stage == Between <==> r.recipe.Some? && r.recipeSlot.None?)
                && (r'.stage == Ended <==> r.recipe.None? || r.recipeSlot.Some?))
    ensures var r := s.requests[step.id];
            var sl := if r.recipeSlot.Some? then r.recipeSlot else r.baseSlot;
            && sl.Some? && sl.value < |s.slots|
            && (step.Check? ==> (Apply(s, step).requests[step.id].stage == Filling <==>
                  s.slots[sl.value].content.None? || s.slots[sl.value].content.value !in s.alive))
            && (step.Fill? ==> Apply(s, step).requests[step.id].template == Some(|s.templates|)
                               && Apply(s, step).slots[sl.value].content == Some(|s.templates|))
  {
    hide LocksOk, Unlocked, Retained;
    assert RequestOk(s, s.requests[step.id]);
  }

  /** No other step hands a template to a request. */
  lemma OnlyUseAnswers(s: State, step: Step, id: RequestId, x: TemplateId)
    requires Enabled(s, step) && (EndsWith(s, Apply(s, step), id, x) || GoesOnWith(s, Apply(s, step), id, x))
    ensures (step.Check? || step.Fill?) && step.id == id
  {
    hide Fresh, Retained, Unlocked;
  }

  lemma StepEnds(s: State, step: Step, id: RequestId, x: TemplateId)
    requires Basic(s) && Enabled(s, step) && EndsWith(s, Apply(s, step), id, x)
    ensures LiveFor(Apply(s, step), x, Wanted(s.requests[id].base, s.requests[id].recipe))
    ensures s.requests[id].recipe.Some? ==> s.requests[id].recipeSlot.Some?
  {
    OnlyUseAnswers(s, step, id, x);
    UseAnswers(s, step);
    assert RequestOk(s, s.requests[id]);
    hide Apply, Basic;
  }

  lemma StepGoesOn(s: State, step: Step, id: RequestId, x: TemplateId)
    requires Basic(s) && Enabled(s, step) && GoesOnWith(s, Apply(s, step), id, x)
    ensures s.requests[id].recipe.Some? && LiveFor(Apply(s, step), x, s.requests[id].base)
  {
    OnlyUseAnswers(s, step, id, x);
    UseAnswers(s, step);
    hide Apply, Basic;
  }

  // ----- over runs

  /** The request came in asking for this. */
  ghost predicate AskedAt(steps: seq<Step>, m: nat, id: RequestId, base: Key, recipe: Option<Key>) {
    m < |steps| && steps[m] == Arrive(id, base, recipe)
  }

  lemma {:induction false} AskedBefore(run: seq<State>, steps: seq<Step>, n: nat, id: RequestId) returns (m: nat)
    requires IsRun(run, steps) && n < |run| && id in run[n].requests
    ensures m < n && AskedAt(steps, m, id, run[n].requests[id].base, run[n].requests[id].recipe)
    decreases n
  {
    assert n > 0 && Steps(run, steps, n - 1);
    if id in run[n - 1].requests {
      m := AskedBefore(run, steps, n - 1, id);
      StepKeepsAsked(run[n - 1], steps[n - 1], id);
    } else {
      m := n - 1;
      assert steps[m].Arrive? && steps[m].id == id;
    }
  }

  /**
   In every run, a request that ends with a template gets one that is alive at
   that moment, of the recipe it came in with, or of its base if it came with
   none; and if it came with one, it has taken the recipe's slot.
   */
  lemma ObtainAnswers(run: seq<State>, steps: seq<Step>, n: nat, id: RequestId, x: TemplateId) returns (m: nat)
    requires IsRun(run, steps) && n < |steps| && EndsWith(run[n], run[n + 1], id, x)
    ensures m < n && m < |steps| && steps[m].Arrive? && steps[m].id == id
    ensures LiveFor(run[n + 1], x, Wanted(steps[m].base, steps[m].recipe))
    ensures steps[m].recipe.Some? ==>
              var sl := run[n].requests[id].recipeSlot;
              sl.Some? && sl.value < |run[n].slots| && run[n].slots[sl.value].key == steps[m].recipe.value
  {
    RunBasic(run, steps, n);
    assert Steps(run, steps, n);
    StepEnds(run[n], steps[n], id, x);
    m := AskedBefore(run, steps, n, id);
    assert RequestOk(run[n], run[n].requests[id]);
  }

  /**
   In every run, a request holds its recipe's slot only after a step that gave
   it a template of its base, alive at that moment.
   */
  lemma {:induction false} BaseComesFirst(run: seq<State>, steps: seq<Step>, n: nat, id: RequestId) returns (m: nat, x: TemplateId)
    requires IsRun(run, steps) && n < |run| && id in run[n].requests
    requires run[n].requests[id].recipeSlot.Some? || run[n].requests[id].stage == Between
    ensures m < n && GoesOnWith(run[m], run[m + 1], id, x) && LiveFor(run[m + 1], x, run[n].requests[id].base)
    decreases n
  {
    assert n > 0 && Steps(run, steps, n - 1);
    RunBasic(run, steps, n - 1);
    var s, step := run[n - 1], steps[n - 1];
    Beforehand(s, step, id);
    StepKeepsAsked(s, step, id);
    if s.requests[id].recipeSlot.Some? || s.requests[id].stage == Between {
      m, x := BaseComesFirst(run, steps, n - 1, id);
    } else {
      m, x := n - 1, run[n].requests[id].template.value;
      StepGoesOn(s, step, id, x);
    }
  }

  lemma Beforehand(s: State, step: Step, id: RequestId)
    requires Basic(s) && Enabled(s, step) && id in Apply(s, step).requests
    requires Apply(s, step).requests[id].recipeSlot.Some? || Apply(s, step).requests[id].stage == Between
    ensures id in s.requests
    ensures || s.requests[id].recipeSlot.Some? || s.requests[id].stage == Between
            || (Apply(s, step).requests[id].stage == Between && Apply(s, step).requests[id].template.Some?)
  {
    hide LocksOk, Fresh, Retained, Unlocked;
  }
}
