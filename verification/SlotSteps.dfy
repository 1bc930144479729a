/** Every step keeps the slots single, and when exactly a step does not. */
module SlotSteps {
  import opened Wrappers
  import opened Slots

  // ----- requests

  /** A request that did not move stays sound, if nothing at its slot came to life while it fills. */
  lemma RequestKept(s: State, t: State, r: Request)
    requires RequestOk(s, r)
    requires |s.slots| <= |t.slots| && forall sl :: 0 <= sl < |s.slots| ==> t.slots[sl].key == s.slots[sl].key
    requires r.stage == Filling && Current(r).Some? ==> !Fresh(t, Current(r).value)
    ensures RequestOk(t, r)
  {
  }

  lemma RequestsKept(s: State, t: State, but: RequestId)
    requires RequestsOk(s)
    requires |s.slots| <= |t.slots| && forall sl :: 0 <= sl < |s.slots| ==> t.slots[sl].key == s.slots[sl].key
    requires forall sl :: 0 <= sl < |s.slots| && Fresh(t, sl) ==> Fresh(s, sl)
    requires forall id :: id in t.requests && id != but ==> id in s.requests && t.requests[id] == s.requests[id]
    requires but in t.requests ==> RequestOk(t, t.requests[but])
    ensures RequestsOk(t)
  {
    hide Fresh;
    forall id | id in t.requests && id != but
      ensures RequestOk(t, t.requests[id])
    {
      assert RequestOk(s, s.requests[id]);
      RequestKept(s, t, s.requests[id]);
    }
  }

  lemma TakeRequests(s: State, id: RequestId)
    requires RequestsOk(s) && SlotsOk(s) && Enabled(s, Take(id))
    ensures RequestsOk(Taken(s, id))
  {
    var t := Taken(s, id);
    assert RequestOk(s, s.requests[id]);
    assert forall sl :: 0 <= sl < |s.slots| ==> t.slots[sl] == s.slots[sl];
    assert RequestOk(t, t.requests[id]);
    hide RequestsOk, SlotsOk, RequestOk;
    RequestsKept(s, t, id);
  }

  /** No two requests are at one slot's lock. */
  lemma OneAtLock(s: State, id: RequestId, other: RequestId)
    requires LocksOk(s) && id in s.requests && other in s.requests
    requires AtLock(s.requests[id]) && AtLock(s.requests[other])
    ensures Current(s.requests[id]) == Current(s.requests[other]) ==> id == other
  {
  }

  /** Filling one slot brings nothing to life in another. */
  lemma FillElsewhere(s: State, id: RequestId, sl: SlotId)
    requires SlotsOk(s) && Enabled(s, Fill(id)) && Current(s.requests[id]) != Some(sl)
    ensures Fresh(Filled(s, id), sl) <==> Fresh(s, sl)
  {
  }

  lemma FillRequests(s: State, id: RequestId)
    requires RequestsOk(s) && LocksOk(s) && SlotsOk(s) && Enabled(s, Fill(id))
    ensures RequestsOk(Filled(s, id))
  {
    var r, t := s.requests[id], Filled(s, id);
    assert RequestOk(s, r);
    assert RequestOk(t, t.requests[id]);
    hide Fresh, LocksOk, SlotsOk;
    forall other | other in t.requests && other != id
      ensures RequestOk(t, t.requests[other])
    {
      var o := s.requests[other];
      assert RequestOk(s, o);
      if o.stage == Filling {
        OneAtLock(s, id, other);
        FillElsewhere(s, id, Current(o).value);
      }
      RequestKept(s, t, o);
    }
  }

  /** A step that only moves a request, or drops one. */
  lemma MoveRequests(s: State, step: Step)
    requires RequestsOk(s) && Enabled(s, step) && (step.Lock? || step.Check? || step.Cancel? || step.Arrive?)
    ensures RequestsOk(Apply(s, step))
  {
    hide Unlocked;
    var t := Apply(s, step);
    assert step.id in s.requests ==> RequestOk(s, s.requests[step.id]);
    assert RequestOk(t, t.requests[step.id]);
    assert t.slots == s.slots && t.alive == s.alive;
    hide RequestsOk, RequestOk;
    RequestsKept(s, t, step.id);
  }

  lemma StepRequests(s: State, step: Step)
    requires Basic(s) && Enabled(s, step)
    ensures RequestsOk(Apply(s, step))
  {
    hide LocksOk, SlotsOk, Retained;
    if step.Take? {
      TakeRequests(s, step.id);
    } else if step.Fill? {
      FillRequests(s, step.id);
    } else if step.Lock? || step.Check? || step.Cancel? || step.Arrive? {
      MoveRequests(s, step);
    } else {
      UnmovedRequests(s, step);
    }
  }

  lemma UnmovedRequests(s: State, step: Step)
    requires RequestsOk(s) && Enabled(s, step) && (step.Die? || step.Prune? || step.Forget? || step.Clear?)
    ensures RequestsOk(Apply(s, step))
  {
    hide Retained;
    var t := Apply(s, step);
    forall id | id in t.requests
      ensures RequestOk(t, t.requests[id])
    {
      assert RequestOk(s, s.requests[id]);
      RequestKept(s, t, s.requests[id]);
    }
  }

  // ----- locks and slots

  lemma UnlockedOk(s: State, id: RequestId, r: Request)
    requires LocksOk(s) && id in s.requests && !AtLock(r)
    ensures LocksOk(Put(s.(locks := Unlocked(s.locks, id)), id, r))
  {
  }

  /** A request that is at no lock before or after leaves the locks in order. */
  lemma LocksKept(s: State, t: State, id: RequestId)
    requires LocksOk(s) && t.locks == s.locks && id in t.requests && !AtLock(t.requests[id])
    requires id in s.requests ==> !AtLock(s.requests[id])
    requires t.requests == s.requests[id := t.requests[id]]
    ensures LocksOk(t)
  {
  }

  lemma LockLocks(s: State, id: RequestId)
    requires LocksOk(s) && Enabled(s, Lock(id))
    ensures LocksOk(Apply(s, Lock(id)))
  {
  }

  lemma CheckLocks(s: State, id: RequestId)
    requires LocksOk(s) && Enabled(s, Check(id))
    ensures LocksOk(Checked(s, id))
  {
    hide Fresh;
    var r := s.requests[id];
    if Fresh(s, Current(r).value) {
      UnlockedOk(s, id, Checked(s, id).requests[id]);
    }
  }

  lemma StepLocks(s: State, step: Step)
    requires Basic(s) && Enabled(s, step)
    ensures LocksOk(Apply(s, step))
  {
    hide SlotsOk, Fresh, Retained, RequestsOk;
    if step.Check? {
      CheckLocks(s, step.id);
    } else if step.Lock? {
      LockLocks(s, step.id);
    } else if step.Fill? || step.Cancel? {
      UnlockedOk(s, step.id, Apply(s, step).requests[step.id]);
    } else if step.Take? || step.Arrive? {
      LocksKept(s, Apply(s, step), step.id);
    }
  }

  lemma StepSlots(s: State, step: Step)
    requires Basic(s) && Enabled(s, step)
    ensures SlotsOk(Apply(s, step))
  {
    hide LocksOk, RequestsOk, Retained, Unlocked;
  }

  /** Every step, `forget` and `clear` included, keeps requests, locks and slots in order. */
  lemma StepBasic(s: State, step: Step)
    requires Basic(s) && Enabled(s, step)
    ensures Basic(Apply(s, step))
  {
    StepRequests(s, step);
    StepLocks(s, step);
    StepSlots(s, step);
  }

  // ----- one slot for each key

  /** A step that makes a second slot for a key, or unmaps one that is referred to. */
  ghost predicate Splits(s: State, step: Step) {
    match step
    case Forget(k) => k in s.mapped && Referred(s, s.mapped[k])
    case Clear => exists k :: k in s.mapped && Referred(s, s.mapped[k])
    case _ => false
  }

  /** A slot referred to is mapped before and after, unless the step splits it off. */
  lemma UnmappedExactly(s: State, step: Step)
    requires Basic(s) && Single(s) && (step.Forget? || step.Clear?)
    ensures Single(Apply(s, step)) <==> !Splits(s, step)
  {
    hide LocksOk, RequestsOk;
    var t := Apply(s, step);
    if Splits(s, step) {
      var k :| k in s.mapped && k !in t.mapped && Referred(s, s.mapped[k]);
      var id :| id in s.requests && Refers(s.requests[id], s.mapped[k]);
      assert id in t.requests && Refers(t.requests[id], s.mapped[k]);
    } else {
      forall id: RequestId, sl: SlotId | id in t.requests && Refers(t.requests[id], sl) && sl < |t.slots|
        ensures t.slots[sl].key in t.mapped && t.mapped[t.slots[sl].key] == sl
      {
        assert Referred(s, s.mapped[s.slots[sl].key]);
      }
    }
  }

  lemma TakeSingle(s: State, id: RequestId)
    requires Basic(s) && Single(s) && Enabled(s, Take(id))
    ensures Single(Taken(s, id))
  {
    hide LocksOk;
    var t := Taken(s, id);
    assert RequestOk(s, s.requests[id]);
    forall other: RequestId, sl: SlotId | other in t.requests && Refers(t.requests[other], sl) && sl < |t.slots|
      ensures t.slots[sl].key in t.mapped && t.mapped[t.slots[sl].key] == sl
    {
      if other in s.requests && Refers(s.requests[other], sl) {
        assert RequestOk(s, s.requests[other]);
        assert t.slots[sl] == s.slots[sl];
      }
    }
  }

  lemma PruneSingle(s: State, k: Key)
    requires Basic(s) && Single(s) && k in s.mapped
    ensures Single(Apply(s, Prune(k)))
  {
    hide LocksOk, RequestsOk, Fresh;
    var t := Apply(s, Prune(k));
    forall id: RequestId, sl: SlotId | id in t.requests && Refers(t.requests[id], sl) && sl < |t.slots|
      ensures t.slots[sl].key in t.mapped && t.mapped[t.slots[sl].key] == sl
    {
      assert s.mapped[s.slots[sl].key] == sl && Referred(s, sl);
    }
  }

  lemma SingleKept(s: State, t: State)
    requires Single(s) && t.mapped == s.mapped && |t.slots| == |s.slots|
    requires forall sl :: 0 <= sl < |s.slots| ==> t.slots[sl].key == s.slots[sl].key
    requires forall id: RequestId, sl: SlotId :: id in t.requests && Refers(t.requests[id], sl) ==>
               id in s.requests && Refers(s.requests[id], sl)
    ensures Single(t)
  {
  }

  /** A step of one request that takes no slot. */
  lemma WalkSingle(s: State, step: Step)
    requires Single(s) && Enabled(s, step)
    requires step.Arrive? || step.Lock? || step.Check? || step.Fill? || step.Cancel?
    ensures Single(Apply(s, step))
  {
    hide Fresh, Single, Unlocked;
    var t := Apply(s, step);
    assert forall sl: SlotId :: Refers(t.requests[step.id], sl) ==> step.id in s.requests && Refers(s.requests[step.id], sl);
    SingleKept(s, t);
  }

  /** Exactly `forget` and `clear` of a slot that a request refers to end the rule that a key has one slot. */
  lemma SingleExactly(s: State, step: Step)
    requires Basic(s) && Single(s) && Enabled(s, step)
    ensures Single(Apply(s, step)) <==> !Splits(s, step)
  {
    hide Basic, Single, Fresh, Retained;
    if step.Forget? || step.Clear? {
      UnmappedExactly(s, step);
    } else if step.Take? {
      TakeSingle(s, step.id);
    } else if step.Prune? {
      PruneSingle(s, step.key);
    } else if step.Die? {
      SingleKept(s, Apply(s, step));
    } else {
      WalkSingle(s, step);
    }
  }

  // ----- one template alive for each key

  lemma StoredKept(s: State, step: Step)
    requires Inv(s) && Enabled(s, step) && !step.Forget? && !step.Clear?
    ensures Stored(Apply(s, step))
  {
    match step
    case Fill(id) => FillStored(s, id);
    case Prune(k) => {
      var t := Apply(s, step);
      forall x | x in t.alive && x < |t.templates|
        ensures t.templates[x] in t.mapped
      {
        assert s.mapped[s.templates[x]] < |s.slots| && s.slots[s.mapped[s.templates[x]]].content == Some(x);
        assert Fresh(s, s.mapped[s.templates[x]]);
      }
    }
    case _ =>
  }

  lemma FillStored(s: State, id: RequestId)
    requires Inv(s) && Enabled(s, Fill(id))
    ensures Stored(Filled(s, id))
  {
    var r, t := s.requests[id], Filled(s, id);
    var sl := Current(r).value;
    assert RequestOk(s, r) && Refers(r, sl);
    assert s.mapped[s.slots[sl].key] == sl;
    hide LocksOk;
    forall x | x in t.alive && x < |t.templates|
      ensures t.templates[x] in t.mapped && t.mapped[t.templates[x]] < |t.slots|
      ensures t.slots[t.mapped[t.templates[x]]].content == Some(x)
    {
      if x != |s.templates| {
        assert s.slots[s.mapped[s.templates[x]]].content == Some(x);
        assert s.mapped[s.templates[x]] != sl;
      }
    }
  }

  /** Without `forget` and `clear`, every step keeps everything. */
  lemma StepKeeps(s: State, step: Step)
    requires Inv(s) && Enabled(s, step) && !step.Forget? && !step.Clear?
    ensures Inv(Apply(s, step))
  {
    StepBasic(s, step);
    SingleExactly(s, step);
    StoredKept(s, step);
  }
}
