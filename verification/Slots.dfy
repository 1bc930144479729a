/**
 The templates a serving manager holds: a map of slots under one lock, a lock
 per slot, and any number of requests that obtain a template at once.
 */
module Slots {
  import opened Wrappers

  type Key = nat
  type SlotId = nat
  type TemplateId = nat
  type RequestId = nat

  /** A slot ever made: the key it was made for and the template in it. */
  datatype Slot = Slot(key: Key, content: Option<TemplateId>)

  /** Where a request is: before a slot, holding one, at its lock, filling it, between its two slots, or over. */
  datatype Stage = Start | Waiting | Locked | Filling | Between | Ended

  /** A request in `obtain`; it holds a reference to each slot it took until it ends. */
  datatype Request = Request(base: Key, recipe: Option<Key>, stage: Stage,
                             baseSlot: Option<SlotId>, recipeSlot: Option<SlotId>, template: Option<TemplateId>)

  /** `mapped` is the locked map; slots and templates are numbered as they are made. */
  datatype State = State(mapped: map<Key, SlotId>, slots: seq<Slot>, locks: map<SlotId, RequestId>,
                         templates: seq<Key>, alive: set<TemplateId>, requests: map<RequestId, Request>)

  datatype Step =
    | Arrive(id: RequestId, base: Key, recipe: Option<Key>)
    | Take(id: RequestId)
    | Lock(id: RequestId)
    | Check(id: RequestId)
    | Fill(id: RequestId)
    | Cancel(id: RequestId)
    | Die(template: TemplateId)
    | Prune(key: Key)
    | Forget(key: Key)
    | Clear

  // ----- one request

  /** The slot it is at: the recipe's once it took that, the base's before. */
  function Current(r: Request): Option<SlotId> {
    if r.recipeSlot.Some? then r.recipeSlot else r.baseSlot
  }

  function CurrentKey(r: Request): Key {
    if r.recipeSlot.Some? && r.recipe.Some? then r.recipe.value else r.base
  }

  /** It holds a reference to the slot. */
  predicate Refers(r: Request, sl: SlotId) {
    r.baseSlot == Some(sl) || r.recipeSlot == Some(sl)
  }

  predicate AtLock(r: Request) {
    r.stage == Locked || r.stage == Filling
  }

  /** Over: every reference is dropped, and the template, if any, is handed out. */
  function Over(r: Request, template: Option<TemplateId>): Request {
    Request(r.base, r.recipe, Ended, None, None, template)
  }

  /** With the template of its current slot: on to the recipe, or over. */
  function Go(r: Request, x: TemplateId): Request {
    if r.recipeSlot.None? && r.recipe.Some? then r.(stage := Between, template := Some(x)) else Over(r, Some(x))
  }

  // ----- the map of slots

  /** The slot for a key, made if the map has none. */
  function SlotFor(mapped: map<Key, SlotId>, slots: seq<Slot>, k: Key): (map<Key, SlotId>, seq<Slot>, SlotId) {
    if k in mapped then (mapped, slots, mapped[k])
    else (mapped[k := |slots|], slots + [Slot(k, None)], |slots|)
  }

  predicate Fresh(s: State, sl: SlotId) {
    sl < |s.slots| && s.slots[sl].content.Some? && s.slots[sl].content.value in s.alive
  }

  /** Some request holds a reference, so the reference count is above one. */
  predicate Referred(s: State, sl: SlotId) {
    exists id :: id in s.requests && Refers(s.requests[id], sl)
  }

  /** What `retain` keeps: a slot referred to, one that is locked, one with a template alive. */
  predicate Retained(s: State, sl: SlotId) {
    Referred(s, sl) || sl in s.locks || Fresh(s, sl)
  }

  // ----- steps

  function Put(s: State, id: RequestId, r: Request): State {
    s.(requests := s.requests[id := r])
  }

  predicate Enabled(s: State, step: Step) {
    match step
    case Arrive(id, _, _) => id !in s.requests
    case Take(id) => id in s.requests && (s.requests[id].stage == Start || s.requests[id].stage == Between)
    case Lock(id) =>
      id in s.requests && s.requests[id].stage == Waiting
      && Current(s.requests[id]).Some? && Current(s.requests[id]).value !in s.locks
    case Check(id) => id in s.requests && s.requests[id].stage == Locked && Current(s.requests[id]).Some?
    case Fill(id) => id in s.requests && s.requests[id].stage == Filling && Current(s.requests[id]).Some?
                     && Current(s.requests[id]).value < |s.slots|
    case Cancel(id) => id in s.requests && s.requests[id].stage != Ended
    case Die(x) => x in s.alive
    case Prune(k) => k in s.mapped
    case Forget(_) => true
    case Clear => true
  }

  /** The locks a request does not hold. */
  function Unlocked(locks: map<SlotId, RequestId>, id: RequestId): map<SlotId, RequestId> {
    map sl | sl in locks && locks[sl] != id :: locks[sl]
  }

  function Taken(s: State, id: RequestId): State
    requires id in s.requests
  {
    var r := s.requests[id];
    var k := if r.stage == Between && r.recipe.Some? then r.recipe.value else r.base;
    var (mapped, slots, sl) := SlotFor(s.mapped, s.slots, k);
    var after := if r.stage == Between then r.(stage := Waiting, recipeSlot := Some(sl))
                 else r.(stage := Waiting, baseSlot := Some(sl));
    Put(s.(mapped := mapped, slots := slots), id, after)
  }

  /** A slot whose template is alive is used as it is; any other is filled. */
  function Checked(s: State, id: RequestId): State
    requires id in s.requests && Current(s.requests[id]).Some?
  {
    var r := s.requests[id];
    var sl := Current(r).value;
    if Fresh(s, sl) then Put(s.(locks := Unlocked(s.locks, id)), id, Go(r, s.slots[sl].content.value))
    else Put(s, id, r.(stage := Filling))
  }

  /** A fill that succeeds stores the template and hands it out before the lock goes. */
  function Filled(s: State, id: RequestId): State
    requires id in s.requests && Current(s.requests[id]).Some? && Current(s.requests[id]).value < |s.slots|
  {
    var r := s.requests[id];
    var sl, x := Current(r).value, |s.templates|;
    Put(s.(slots := s.slots[sl := s.slots[sl].(content := Some(x))],
           templates := s.templates + [s.slots[sl].key],
           alive := s.alive + {x},
           locks := Unlocked(s.locks, id)),
        id, Go(r, x))
  }

  function Apply(s: State, step: Step): State
    requires Enabled(s, step)
  {
    match step
    case Arrive(id, base, recipe) => Put(s, id, Request(base, recipe, Start, None, None, None))
    case Take(id) => Taken(s, id)
    case Lock(id) =>
      var r := s.requests[id];
      Put(s.(locks := s.locks[Current(r).value := id]), id, r.(stage := Locked))
    case Check(id) => Checked(s, id)
    case Fill(id) => Filled(s, id)
    case Cancel(id) =>
      // A failed fill or a request that is dropped, at any await.
      Put(s.(locks := Unlocked(s.locks, id)), id, Over(s.requests[id], None))
    case Die(x) => s.(alive := s.alive - {x})
    case Prune(k) => if Retained(s, s.mapped[k]) then s else s.(mapped := s.mapped - {k})
    case Forget(k) => s.(mapped := s.mapped - {k})
    case Clear => s.(mapped := map[])
  }

  // ----- what every run keeps

  /** A request's slots are the ones it took, for its own keys. */
  ghost predicate RequestOk(s: State, r: Request) {
    && (r.stage == Start || r.stage == Ended ==> r.baseSlot.None? && r.recipeSlot.None?)
    && (r.stage == Between ==> r.baseSlot.Some? && r.recipeSlot.None? && r.recipe.Some?)
    && (AtLock(r) || r.stage == Waiting ==> r.baseSlot.Some? && (r.recipeSlot.Some? ==> r.recipe.Some?))
    && (r.baseSlot.Some? ==> r.baseSlot.value < |s.slots| && s.slots[r.baseSlot.value].key == r.base)
    && (r.recipeSlot.Some? ==>
          r.recipe.Some? && r.recipeSlot.value < |s.slots| && s.slots[r.recipeSlot.value].key == r.recipe.value)
    && (r.stage == Filling ==> !Fresh(s, Current(r).value))
  }

  ghost predicate LocksOk(s: State) {
    && (forall sl :: sl in s.locks ==>
          && s.locks[sl] in s.requests
          && AtLock(s.requests[s.locks[sl]])
          && Current(s.requests[s.locks[sl]]) == Some(sl))
    && (forall id :: id in s.requests && AtLock(s.requests[id]) ==>
          && Current(s.requests[id]).Some?
          && Current(s.requests[id]).value in s.locks
          && s.locks[Current(s.requests[id]).value] == id)
  }

  ghost predicate SlotsOk(s: State) {
    && (forall k :: k in s.mapped ==> s.mapped[k] < |s.slots| && s.slots[s.mapped[k]].key == k)
    && (forall sl :: 0 <= sl < |s.slots| && s.slots[sl].content.Some? ==>
          && s.slots[sl].content.value < |s.templates|
          && s.templates[s.slots[sl].content.value] == s.slots[sl].key)
    && (forall x :: x in s.alive ==> x < |s.templates|)
  }

  ghost predicate RequestsOk(s: State) {
    forall id :: id in s.requests ==> RequestOk(s, s.requests[id])
  }

  /** Kept by every step, `forget` and `clear` included. */
  ghost predicate Basic(s: State) {
    RequestsOk(s) && LocksOk(s) && SlotsOk(s)
  }

  /** A slot that is referred to is the one its key is mapped to. */
  ghost predicate Single(s: State) {
    forall id: RequestId, sl: SlotId :: id in s.requests && Refers(s.requests[id], sl) && sl < |s.slots| ==>
      s.slots[sl].key in s.mapped && s.mapped[s.slots[sl].key] == sl
  }

  /** A template alive is the one in its key's slot. */
  ghost predicate Stored(s: State) {
    forall x :: x in s.alive && x < |s.templates| ==>
      && s.templates[x] in s.mapped
      && s.mapped[s.templates[x]] < |s.slots|
      && s.slots[s.mapped[s.templates[x]]].content == Some(x)
  }

  ghost predicate Inv(s: State) {
    Basic(s) && Single(s) && Stored(s)
  }
}
