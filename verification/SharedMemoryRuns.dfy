/** Runs of any number of processes over shared objects, and what holds in all of them. */
module SharedMemoryRuns {
  import opened Wrappers
  import opened SharedMemory
  import opened SharedMemorySteps

  // ----- fork

  lemma SpawnKeeps(s: System, c: Pid, y: Process)
    requires Inv(s) && c !in s.processes
    requires y.mappings == [] && y.count == 0
    requires y.running ==> y.overlayCount == 0 && forall a :: 0 <= a < |y.cells| ==> y.cells[a].Own?
    ensures Inv(Put(s, c, y))
  {
    var t := Put(s, c, y);
    assert forall q: Pid, i: nat, o: ObjectId, id: nat :: Holds(t, q, i, o, id) <==> Holds(s, q, i, o, id);
    assert Held(t) by {
      hide Holds;
    }
    forall q | q in t.processes && q != c
      ensures ProcessOk(t, t.processes[q])
    {
      assert ProcessOk(s, s.processes[q]);
      assert forall i :: 0 <= i < |t.processes[q].mappings| ==> MappingOk(s, s.processes[q], s.processes[q].mappings[i]);
      ProcessKept(s, t, t.processes[q]);
    }
  }

  /** Entry by entry, the same range of the same object at the same address. */
  ghost predicate SameMappings(ms: seq<Mapping>, other: seq<Mapping>) {
    |ms| == |other| && forall i :: 0 <= i < |ms| ==> ms[i] == other[i].(id := ms[i].id)
  }

  /** The state after the child got clones of `ms`, before its overlays. */
  ghost predicate Cloned(s: System, c: Pid, ms: seq<Mapping>, t: System)
    requires c in s.processes
  {
    && Inv(t)
    && t.processes.Keys == s.processes.Keys
    && (forall q :: q in s.processes && q != c ==> t.processes[q] == s.processes[q])
    && t.objects.Keys == s.objects.Keys
    && (forall o :: o in s.objects ==> t.objects[o].bytes == s.objects[o].bytes)
    && SameMappings(t.processes[c].mappings, ms)
    && t.processes[c] == s.processes[c].(mappings := t.processes[c].mappings, count := |ms|)
  }

  /** What lets a live mapping be cloned: it is within its object, and its process keeps it apart from the others. */
  ghost predicate Clonable(s: System, c: Pid, ms: seq<Mapping>)
    requires c in s.processes
  {
    && Disjoint(ms)
    && (forall i :: 0 <= i < |ms| ==>
          && Aligned(ms[i]) && ms[i].address + ms[i].len <= |s.processes[c].cells|
          && ms[i].obj in s.objects
          && ms[i].fileOffset + ms[i].len <= |s.objects[ms[i].obj].bytes|
          && ms[i].fileOffset + ms[i].len < U64_LIMIT)
  }

  /** The clone's place in the child, given the clones before it. */
  function CloneOf(t: System, m: Mapping): Mapping
    requires m.obj in t.objects
  {
    m.(id := t.objects[m.obj].nextMapping)
  }

  function WithClone(x: Process, m: Mapping): Process {
    x.(mappings := x.mappings + [m], count := |x.mappings| + 1)
  }

  lemma CloneGains(x: Process, ms: seq<Mapping>, m: Mapping)
    requires |ms| > 0 && Disjoint(ms) && SameMappings(x.mappings, ms[..|ms| - 1]) && !x.running
    requires Aligned(ms[|ms| - 1]) && ms[|ms| - 1].address + ms[|ms| - 1].len <= |x.cells|
    requires m == ms[|ms| - 1].(id := m.id)
    ensures Gains(x, m, WithClone(x, m))
    ensures SameMappings(x.mappings + [m], ms)
  {
    assert Aligned(m);
    hide Aligned;
    var n := |ms| - 1;
    forall i | 0 <= i < n
      ensures !Overlaps(x.mappings[i], m.address, m.address + m.len)
    {
      assert x.mappings[i] == ms[..n][i].(id := x.mappings[i].id) && ms[..n][i] == ms[i];
    }
  }

  lemma CloneIsAdded(t: System, c: Pid, m: Mapping)
    requires c in t.processes && m.obj in t.objects && m.len > 0
    requires m.fileOffset + m.len <= |t.objects[m.obj].bytes| && m.fileOffset + m.len < U64_LIMIT
    ensures CloneMapping(t, c, m) == Some(Added(t, c, CloneOf(t, m), WithClone(t.processes[c], CloneOf(t, m))))
  {
  }

  lemma AddedLeavesRest(t: System, c: Pid, m: Mapping, y: Process)
    requires c in t.processes && m.obj in t.objects
    ensures var u := Added(t, c, m, y);
            && u.processes == t.processes[c := y] && u.objects.Keys == t.objects.Keys
            && forall o :: o in t.objects ==> u.objects[o].bytes == t.objects[o].bytes
  {
  }

  lemma CloneOne(s: System, c: Pid, ms: seq<Mapping>, t: System)
    requires c in s.processes && !s.processes[c].running && |ms| > 0 && Clonable(s, c, ms)
    requires Cloned(s, c, ms[..|ms| - 1], t)
    ensures CloneMapping(t, c, ms[|ms| - 1]).Some?
    ensures Cloned(s, c, ms, CloneMapping(t, c, ms[|ms| - 1]).value)
  {
    var m := ms[|ms| - 1];
    var x, clone := t.processes[c], CloneOf(t, m);
    var y := WithClone(x, clone);
    assert m.len > 0;
    hide Inv, Disjoint, Gains, SameMappings, Added;
    CloneGains(x, ms, clone);
    hide Aligned;
    AddKeeps(t, c, clone, y);
    CloneIsAdded(t, c, m);
    AddedLeavesRest(t, c, clone, y);
  }

  /** Every clone is registered: the panic in `fork_clone` is out of reach. */
  lemma {:induction false} ClonesKeep(s: System, c: Pid, ms: seq<Mapping>)
    requires Inv(s) && c in s.processes && !s.processes[c].running && s.processes[c].mappings == []
    requires Clonable(s, c, ms)
    ensures CloneMappings(s, c, ms).Some?
    ensures Cloned(s, c, ms, CloneMappings(s, c, ms).value)
    decreases |ms|
  {
    if |ms| > 0 {
      var front := ms[..|ms| - 1];
      assert Clonable(s, c, front);
      ClonesKeep(s, c, front);
      CloneOne(s, c, ms, CloneMappings(s, c, front).value);
    } else {
      assert ProcessOk(s, s.processes[c]);
    }
  }

  /** Restoring overlays over a memory that has none. */
  lemma {:induction false} ReplayAgrees(y: Process, k: nat)
    requires k <= |y.mappings| && Disjoint(y.mappings)
    requires forall a :: 0 <= a < |y.cells| ==> y.cells[a].Own?
    ensures Agrees(Replay(y, k).cells, y.mappings[..k])
  {
    if k > 0 {
      hide Agrees, Overlaid;
      ReplayAgrees(y, k - 1);
      var front, m := y.mappings[..k - 1], y.mappings[k - 1];
      OverlayAgrees(Replay(y, k - 1).cells, front, m);
      assert front + [m] == y.mappings[..k];
    }
  }

  lemma {:induction false} ReplayLeavesOwn(y: Process, k: nat, a: nat)
    requires k <= |y.mappings| && a < |y.cells|
    ensures Replay(y, k).cells[a].Own? ==> Replay(y, k).cells[a] == y.cells[a]
  {
    if k > 0 {
      ReplayLeavesOwn(y, k - 1, a);
    }
  }

  /** A running process reads only bytes that exist, and its mappings can be cloned. */
  lemma RunningReadable(s: System, p: Pid)
    requires Inv(s) && p in s.processes && s.processes[p].running
    ensures Readable(s, p)
    ensures forall i :: 0 <= i < |s.processes[p].mappings| ==> s.processes[p].mappings[i].obj in s.objects
  {
    var x := s.processes[p];
    assert ProcessOk(s, x);
    forall a | 0 <= a < |x.cells| && x.cells[a].At?
      ensures x.cells[a].obj in s.objects && x.cells[a].offset < |s.objects[x.cells[a].obj].bytes|
    {
      var i :| 0 <= i < |x.mappings| && InMapping(x.mappings[i], a);
      assert MappingOk(s, x, x.mappings[i]) && ObjectOk(s.objects[x.mappings[i].obj]);
    }
    forall i | 0 <= i < |x.mappings|
      ensures x.mappings[i].obj in s.objects
    {
      assert MappingOk(s, x, x.mappings[i]);
    }
  }

  lemma ParentClonable(s: System, p: Pid, c: Pid, y: Process)
    requires Inv(s) && p in s.processes && c != p && |y.cells| == |s.processes[p].cells|
    ensures Clonable(Put(s, c, y), c, s.processes[p].mappings)
  {
    hide Aligned;
    var x := s.processes[p];
    assert ProcessOk(s, x);
    forall i | 0 <= i < |x.mappings|
      ensures x.mappings[i].obj in s.objects
      ensures x.mappings[i].fileOffset + x.mappings[i].len <= |s.objects[x.mappings[i].obj].bytes|
      ensures x.mappings[i].fileOffset + x.mappings[i].len < U64_LIMIT
      ensures Aligned(x.mappings[i]) && x.mappings[i].address + x.mappings[i].len <= |y.cells|
    {
      assert MappingOk(s, x, x.mappings[i]) && ObjectOk(s.objects[x.mappings[i].obj]);
    }
  }

  /** The child, before its overlays. */
  ghost function Clones(s: System, p: Pid, c: Pid): Option<System>
    requires p in s.processes && Readable(s, p)
    requires forall i :: 0 <= i < |s.processes[p].mappings| ==> s.processes[p].mappings[i].obj in s.objects
  {
    CloneMappings(Put(s, c, Unmapped(s, p)), c, s.processes[p].mappings)
  }

  /** A fork never panics, and the state between cloning and restoring is sound. */
  lemma ForkClones(s: System, p: Pid, c: Pid)
    requires Inv(s) && p in s.processes && s.processes[p].running && c !in s.processes
    ensures Readable(s, p)
    ensures forall i :: 0 <= i < |s.processes[p].mappings| ==> s.processes[p].mappings[i].obj in s.objects
    ensures Clones(s, p, c).Some?
    ensures Cloned(Put(s, c, Unmapped(s, p)), c, s.processes[p].mappings, Clones(s, p, c).value)
  {
    RunningReadable(s, p);
    var y := Unmapped(s, p);
    SpawnKeeps(s, c, y);
    ParentClonable(s, p, c, y);
    hide Inv;
    ClonesKeep(Put(s, c, y), c, s.processes[p].mappings);
  }

  lemma ForkKeeps(s: System, p: Pid, c: Pid, restored: nat)
    requires Inv(s) && p in s.processes && s.processes[p].running && c !in s.processes
    ensures Readable(s, p)
    ensures forall i :: 0 <= i < |s.processes[p].mappings| ==> s.processes[p].mappings[i].obj in s.objects
    ensures Inv(Fork(s, p, c, restored))
  {
    hide Inv, MappingOk, Aligned, Disjoint, Agrees, SameMappings, CloneMappings;
    ForkClones(s, p, c);
    var t := Clones(s, p, c).value;
    var y := t.processes[c];
    var k := if restored < |y.mappings| then restored else |y.mappings|;
    Sound(t, c);
    ReplayAgrees(y, k);
    assert k == |y.mappings| ==> y.mappings[..k] == y.mappings;
    MemoryKeeps(t, c, Replay(y, k).(running := k == |y.mappings|));
  }

  // ----- exit

  lemma {:induction false} ExitKeeps(s: System, p: Pid)
    requires Inv(s) && p in s.processes
    ensures forall i :: 0 <= i < |s.processes[p].mappings| ==> s.processes[p].mappings[i].obj in s.objects
    ensures Inv(Exit(s, p))
    decreases |s.processes[p].mappings|
  {
    var x := s.processes[p];
    var n := |x.mappings|;
    assert ProcessOk(s, x);
    assert forall i :: 0 <= i < n ==> MappingOk(s, x, x.mappings[i]);
    hide Inv, ProcessOk, MappingOk;
    if n == 0 {
      LastGone(s, p);
    } else {
      var y := x.(mappings := x.mappings[..n - 1], count := n - 1, running := false);
      assert SwapRemove(x.mappings, n - 1) == x.mappings[..n - 1];
      RemoveKeeps(s, p, n - 1, y);
      ExitKeeps(Removed(s, p, x.mappings[n - 1], y), p);
    }
  }

  lemma LastGone(s: System, p: Pid)
    requires Inv(s) && p in s.processes && s.processes[p].mappings == []
    ensures Inv(s.(processes := s.processes - {p}))
  {
    var t := s.(processes := s.processes - {p});
    assert forall q: Pid, i: nat, o: ObjectId, id: nat :: Holds(t, q, i, o, id) <==> Holds(s, q, i, o, id);
    assert Held(t) by {
      hide Holds;
    }
    forall q | q in t.processes
      ensures ProcessOk(t, t.processes[q])
    {
      assert ProcessOk(s, s.processes[q]);
      assert forall i :: 0 <= i < |t.processes[q].mappings| ==> MappingOk(s, s.processes[q], s.processes[q].mappings[i]);
      ProcessKept(s, t, t.processes[q]);
    }
  }
}
