/** Runs of any number of requests over the slots, and the map of slots as the code changes it. */
module SlotRuns {
  import opened Wrappers
  import opened Slots
  import opened SlotSteps

  const EMPTY: State := State(map[], [], map[], [], {}, map[])

  ghost predicate Steps(run: seq<State>, steps: seq<Step>, i: nat) {
    i < |steps| && i + 1 < |run| && Enabled(run[i], steps[i]) && run[i + 1] == Apply(run[i], steps[i])
  }

  ghost predicate IsRun(run: seq<State>, steps: seq<Step>) {
    |run| == |steps| + 1 && run[0] == EMPTY && forall i :: 0 <= i < |steps| ==> Steps(run, steps, i)
  }

  /** No slot is taken out of the map but by pruning. */
  ghost predicate OnlyPruned(steps: seq<Step>) {
    forall i :: 0 <= i < |steps| ==> !steps[i].Forget? && !steps[i].Clear?
  }

  lemma {:induction false} RunBasic(run: seq<State>, steps: seq<Step>, n: nat)
    requires IsRun(run, steps) && n < |run|
    ensures Basic(run[n])
    decreases n
  {
    if n > 0 {
      RunBasic(run, steps, n - 1);
      assert Steps(run, steps, n - 1);
      hide Basic, Apply;
      StepBasic(run[n - 1], steps[n - 1]);
    }
  }

  lemma {:induction false} RunKeeps(run: seq<State>, steps: seq<Step>, n: nat)
    requires IsRun(run, steps) && OnlyPruned(steps) && n < |run|
    ensures Inv(run[n])
    decreases n
  {
    if n > 0 {
      RunKeeps(run, steps, n - 1);
      assert Steps(run, steps, n - 1);
      hide Inv, Apply;
      StepKeeps(run[n - 1], steps[n - 1]);
    }
  }

  // ----- theorems

  /** The slot is in the map or a request has it. */
  ghost predicate InUse(s: State, sl: SlotId) {
    sl < |s.slots| && ((s.slots[sl].key in s.mapped && s.mapped[s.slots[sl].key] == sl) || Referred(s, sl))
  }

  /** In every run without `forget` and `clear`, a key has at most one slot in the map or in any request's hands. */
  lemma OneSlotPerKey(run: seq<State>, steps: seq<Step>, n: nat, a: SlotId, b: SlotId)
    requires IsRun(run, steps) && OnlyPruned(steps) && n < |run|
    requires InUse(run[n], a) && InUse(run[n], b) && run[n].slots[a].key == run[n].slots[b].key
    ensures a == b
  {
    RunKeeps(run, steps, n);
  }

  /** And at most one request is filling it. */
  lemma OneFillPerKey(run: seq<State>, steps: seq<Step>, n: nat, i: RequestId, j: RequestId)
    requires IsRun(run, steps) && OnlyPruned(steps) && n < |run|
    requires i in run[n].requests && run[n].requests[i].stage == Filling
    requires j in run[n].requests && run[n].requests[j].stage == Filling
    requires CurrentKey(run[n].requests[i]) == CurrentKey(run[n].requests[j])
    ensures i == j
  {
    RunKeeps(run, steps, n);
    var s := run[n];
    hide IsRun, Stored;
    assert RequestOk(s, s.requests[i]) && RequestOk(s, s.requests[j]);
    var a, b := Current(s.requests[i]).value, Current(s.requests[j]).value;
    assert Refers(s.requests[i], a) && Refers(s.requests[j], b);
    assert s.mapped[s.slots[a].key] == a && s.mapped[s.slots[b].key] == b;
    OneAtLock(s, i, j);
  }

  /** And of all the templates ever filled for it, at most one is alive: the one in its slot. */
  lemma OneTemplateAlive(run: seq<State>, steps: seq<Step>, n: nat, x: TemplateId, y: TemplateId)
    requires IsRun(run, steps) && OnlyPruned(steps) && n < |run|
    requires x in run[n].alive && y in run[n].alive
    ensures x < |run[n].templates| && y < |run[n].templates|
    ensures run[n].templates[x] == run[n].templates[y] ==> x == y
    ensures var k := run[n].templates[x];
            k in run[n].mapped && run[n].mapped[k] < |run[n].slots| && run[n].slots[run[n].mapped[k]].content == Some(x)
  {
    RunKeeps(run, steps, n);
  }

  /** In every run, a request is at one slot's lock at most. */
  lemma NoRequestHoldsTwoLocks(run: seq<State>, steps: seq<Step>, n: nat, a: SlotId, b: SlotId)
    requires IsRun(run, steps) && n < |run|
    requires a in run[n].locks && b in run[n].locks && run[n].locks[a] == run[n].locks[b]
    ensures a == b
  {
    RunBasic(run, steps, n);
  }

  /** In every run, a slot nobody refers to is not locked: the failing arm of `try_lock` in `prune` is out of reach. */
  lemma UnreferredIsUnlocked(run: seq<State>, steps: seq<Step>, n: nat, sl: SlotId)
    requires IsRun(run, steps) && n < |run| && !Referred(run[n], sl)
    ensures sl !in run[n].locks
  {
    RunBasic(run, steps, n);
    if sl in run[n].locks {
      var id := run[n].locks[sl];
      assert Refers(run[n].requests[id], sl);
    }
  }

  /** In every run, pruning takes a slot out exactly when nobody refers to it and its template, if any, is not alive. */
  lemma PrunedExactly(run: seq<State>, steps: seq<Step>, n: nat, k: Key)
    requires IsRun(run, steps) && n < |run| && k in run[n].mapped
    ensures k !in Apply(run[n], Prune(k)).mapped <==> !Referred(run[n], run[n].mapped[k]) && !Fresh(run[n], run[n].mapped[k])
    ensures forall other :: other != k ==> (other in Apply(run[n], Prune(k)).mapped <==> other in run[n].mapped)
  {
    if !Referred(run[n], run[n].mapped[k]) {
      UnreferredIsUnlocked(run, steps, n, run[n].mapped[k]);
    }
  }

  // ----- what `forget` costs

  /** Two requests for one key, with a `forget` while the first fills. */
  function ForgetfulSteps(k: Key): seq<Step> {
    [Arrive(0, k, None), Take(0), Lock(0), Check(0), Forget(k), Arrive(1, k, None), Take(1), Lock(1), Check(1)]
  }

  function ForgetfulRun(k: Key): seq<State> {
    var r := Request(k, None, Start, None, None, None);
    var r0 := r.(stage := Waiting, baseSlot := Some(0));
    var r1 := r.(stage := Waiting, baseSlot := Some(1));
    var one, two := [Slot(k, None)], [Slot(k, None), Slot(k, None)];
    var f0, l1 := r0.(stage := Filling), r1.(stage := Locked);
    [ EMPTY,
      State(map[], [], map[], [], {}, map[0 := r]),
      State(map[k := 0], one, map[], [], {}, map[0 := r0]),
      State(map[k := 0], one, map[0 := 0], [], {}, map[0 := r0.(stage := Locked)]),
      State(map[k := 0], one, map[0 := 0], [], {}, map[0 := f0]),
      State(map[], one, map[0 := 0], [], {}, map[0 := f0]),
      State(map[], one, map[0 := 0], [], {}, map[0 := f0, 1 := r]),
      State(map[k := 1], two, map[0 := 0], [], {}, map[0 := f0, 1 := r1]),
      State(map[k := 1], two, map[0 := 0, 1 := 1], [], {}, map[0 := f0, 1 := l1]),
      State(map[k := 1], two, map[0 := 0, 1 := 1], [], {}, map[0 := f0, 1 := r1.(stage := Filling)]) ]
  }

  lemma ForgetfulFirst(k: Key)
    ensures forall i :: 0 <= i < 3 ==> Steps(ForgetfulRun(k), ForgetfulSteps(k), i)
  {
    var run, steps := ForgetfulRun(k), ForgetfulSteps(k);
    assert Steps(run, steps, 0) && Steps(run, steps, 1) && Steps(run, steps, 2);
  }

  lemma ForgetfulNext(k: Key)
    ensures forall i :: 3 <= i < 6 ==> Steps(ForgetfulRun(k), ForgetfulSteps(k), i)
  {
    var run, steps := ForgetfulRun(k), ForgetfulSteps(k);
    assert Steps(run, steps, 3) && Steps(run, steps, 4) && Steps(run, steps, 5);
  }

  lemma ForgetfulLast(k: Key)
    ensures forall i :: 6 <= i < 9 ==> Steps(ForgetfulRun(k), ForgetfulSteps(k), i)
  {
    var run, steps := ForgetfulRun(k), ForgetfulSteps(k);
    assert Steps(run, steps, 6) && Steps(run, steps, 7) && Steps(run, steps, 8);
  }

  /** With `forget`, two requests can fill one key at once, whatever the key. */
  lemma ForgetLetsTwoFill(k: Key)
    ensures IsRun(ForgetfulRun(k), ForgetfulSteps(k))
    ensures var s := ForgetfulRun(k)[9];
            && 0 in s.requests && 1 in s.requests
            && s.requests[0].stage == Filling && s.requests[1].stage == Filling
            && CurrentKey(s.requests[0]) == CurrentKey(s.requests[1]) == k
  {
    hide Steps;
    ForgetfulFirst(k);
    ForgetfulNext(k);
    ForgetfulLast(k);
  }

  // ----- the map of slots, as the code changes it

  class Templates {
    var mapped: map<Key, SlotId>
    var slots: seq<Slot>

    constructor ()
      ensures mapped == map[] && slots == []
    {
      mapped, slots := map[], [];
    }

    /** `slot`. */
    method SlotOf(k: Key) returns (sl: SlotId)
      modifies this
      ensures (mapped, slots, sl) == SlotFor(old(mapped), old(slots), k)
      ensures k in mapped && mapped[k] == sl
    {
      if k !in mapped {
        slots := slots + [Slot(k, None)];
        mapped := mapped[k := |slots| - 1];
      }
      sl := mapped[k];
    }

    /** `forget`. */
    method Forget(k: Key)
      modifies this`mapped
      ensures mapped == old(mapped) - {k}
    {
      mapped := mapped - {k};
    }

    /**
     `prune`: the one pass over the map, under its lock. `counts` gives each
     slot's references besides the map's own, `tries` what `try_lock` answers.
     */
    method Prune(counts: map<SlotId, nat>, tries: map<SlotId, bool>, alive: set<TemplateId>)
      requires forall k :: k in mapped ==> mapped[k] < |slots| && mapped[k] in counts && mapped[k] in tries
      modifies this`mapped
      ensures forall k :: k in mapped ==> k in old(mapped) && mapped[k] == old(mapped)[k]
      ensures forall k :: k in old(mapped) ==>
                (k !in mapped <==>
                   && counts[old(mapped)[k]] == 0 && tries[old(mapped)[k]]
                   && !(slots[old(mapped)[k]].content.Some? && slots[old(mapped)[k]].content.value in alive))
    {
      var left := mapped.Keys;
      while left != {}
        invariant left <= old(mapped).Keys
        invariant forall k :: k in mapped ==> k in old(mapped) && mapped[k] == old(mapped)[k]
        invariant forall k :: k in left ==> k in mapped
        invariant forall k :: k in old(mapped) && k !in left ==>
                    (k !in mapped <==>
                       && counts[old(mapped)[k]] == 0 && tries[old(mapped)[k]]
                       && !(slots[old(mapped)[k]].content.Some? && slots[old(mapped)[k]].content.value in alive))
        decreases |left|
      {
        var k :| k in left;
        left := left - {k};
        var sl := mapped[k];
        if counts[sl] == 0 && tries[sl] {
          var content := slots[sl].content;
          if content.None? || content.value !in alive {
            mapped := mapped - {k};
          }
        }
      }
    }
  }

  /** The number of requests' references to a slot, and who has its lock, tell `prune` what `Retained` says. */
  ghost predicate Reports(s: State, counts: map<SlotId, nat>, tries: map<SlotId, bool>) {
    forall sl :: 0 <= sl < |s.slots| ==>
      && sl in counts && (counts[sl] == 0 <==> !Referred(s, sl))
      && sl in tries && (tries[sl] <==> sl !in s.locks)
  }

  /** One pass of `prune` is the pruning of every key, in any order. */
  method PruneAll(s: State, m: Templates, counts: map<SlotId, nat>, tries: map<SlotId, bool>)
    requires m.mapped == s.mapped && m.slots == s.slots && Reports(s, counts, tries)
    requires forall k :: k in s.mapped ==> s.mapped[k] < |s.slots|
    modifies m
    ensures forall k :: k in s.mapped ==> (k in m.mapped <==> k in Apply(s, Prune(k)).mapped)
    ensures forall k :: k in m.mapped ==> k in s.mapped && m.mapped[k] == s.mapped[k]
  {
    hide Referred;
    m.Prune(counts, tries, s.alive);
  }
}
