/** Every call on shared memory keeps what every state keeps. */
module SharedMemorySteps {
  import opened Wrappers
  import opened SharedMemory

  // ----- the pieces of a step

  /** The mapping `Register` leads to. */
  function NewMapping(s: System, o: ObjectId, address: nat, len: nat, fileOffset: nat): Mapping
    requires o in s.objects
  {
    Mapping(o, s.objects[o].nextMapping, address, len, fileOffset)
  }

  /** The state with one more registration, held by `p` as `y`. */
  function Added(s: System, p: Pid, m: Mapping, y: Process): System
    requires m.obj in s.objects
  {
    var x := s.objects[m.obj];
    Put(PutObject(s, m.obj, x.(nextMapping := x.nextMapping + 1,
                               registered := x.registered[m.id := Extent(m.fileOffset, m.fileOffset + m.len)])),
        p, y)
  }

  /** The state without mapping `m`, whose holder `p` becomes `y`. */
  function Removed(s: System, p: Pid, m: Mapping, y: Process): System
    requires m.obj in s.objects
  {
    Put(PutObject(s, m.obj, Unregister(s.objects[m.obj], m.id)), p, y)
  }

  ghost predicate Registered(s: System, m: Mapping) {
    && m.obj in s.objects
    && m.id in s.objects[m.obj].registered
    && s.objects[m.obj].registered[m.id] == Extent(m.fileOffset, m.fileOffset + m.len)
  }

  /** A process that did not change stays sound while its own registrations stay. */
  lemma ProcessKept(s: System, t: System, x: Process)
    requires ProcessOk(s, x)
    requires forall i :: 0 <= i < |x.mappings| ==> Registered(t, x.mappings[i])
    ensures ProcessOk(t, x)
  {
    forall i | 0 <= i < |x.mappings|
      ensures MappingOk(t, x, x.mappings[i])
    {
      assert MappingOk(s, x, x.mappings[i]) && Registered(t, x.mappings[i]);
    }
  }

  /** What a process may become when it gains `m`. */
  ghost predicate Gains(x: Process, m: Mapping, y: Process) {
    && Aligned(m)
    && m.address + m.len <= |y.cells| == |x.cells|
    && (forall i :: 0 <= i < |x.mappings| ==> !Overlaps(x.mappings[i], m.address, m.address + m.len))
    && y.mappings == x.mappings + [m] && y.count == |y.mappings|
    && (y.running ==> y.overlayCount == |y.mappings| && Agrees(y.cells, y.mappings))
  }

  lemma GainerOk(s: System, p: Pid, m: Mapping, y: Process)
    requires p in s.processes && ProcessOk(s, s.processes[p])
    requires m.obj in s.objects && m.id !in s.objects[m.obj].registered
    requires Gains(s.processes[p], m, y)
    ensures ProcessOk(Added(s, p, m, y), y)
  {
    hide Aligned, Agrees;
    var x, t := s.processes[p], Added(s, p, m, y);
    forall i | 0 <= i < |y.mappings|
      ensures MappingOk(t, y, y.mappings[i])
    {
      if i < |x.mappings| {
        assert MappingOk(s, x, x.mappings[i]) && y.mappings[i] == x.mappings[i];
      }
    }
    forall i, j | 0 <= i < j < |y.mappings|
      ensures !Overlaps(y.mappings[i], y.mappings[j].address, y.mappings[j].address + y.mappings[j].len)
    {
      assert y.mappings[i] == x.mappings[i];
    }
  }

  /** Which entries the new list holds. */
  lemma AddedEntry(s: System, p: Pid, m: Mapping, y: Process, q: Pid, i: nat, o: ObjectId, id: nat)
    requires p in s.processes && m.obj in s.objects && y.mappings == s.processes[p].mappings + [m]
    ensures Holds(Added(s, p, m, y), q, i, o, id) <==>
              || Holds(s, q, i, o, id)
              || (q == p && i == |s.processes[p].mappings| && o == m.obj && id == m.id)
  {
  }

  lemma AddedHolders(s: System, p: Pid, m: Mapping, y: Process)
    requires Held(s) && HeldOnce(s) && p in s.processes && m.obj in s.objects
    requires forall q: Pid, i: nat :: !Holds(s, q, i, m.obj, m.id)
    requires y.mappings == s.processes[p].mappings + [m]
    ensures Held(Added(s, p, m, y)) && HeldOnce(Added(s, p, m, y))
  {
    var t := Added(s, p, m, y);
    assert forall q: Pid, i: nat, o: ObjectId, id: nat :: Holds(t, q, i, o, id) <==>
        || Holds(s, q, i, o, id)
        || (q == p && i == |s.processes[p].mappings| && o == m.obj && id == m.id) by {
      forall q: Pid, i: nat, o: ObjectId, id: nat {
        AddedEntry(s, p, m, y, q, i, o, id);
      }
    }
    hide Holds;
    forall o, id | o in t.objects && id in t.objects[o].registered
      ensures exists q, i :: Holds(t, q, i, o, id)
    {
      if o == m.obj && id == m.id {
        assert Holds(t, p, |s.processes[p].mappings|, o, id);
      } else {
        var q, i :| Holds(s, q, i, o, id);
        assert Holds(t, q, i, o, id);
      }
    }
  }

  lemma FreshId(s: System, o: ObjectId)
    requires Inv(s) && o in s.objects
    ensures s.objects[o].nextMapping !in s.objects[o].registered
    ensures forall q: Pid, i: nat :: !Holds(s, q, i, o, s.objects[o].nextMapping)
  {
    assert ObjectOk(s.objects[o]);
    forall q: Pid, i: nat, id: nat | Holds(s, q, i, o, id)
      ensures id < s.objects[o].nextMapping
    {
      assert ProcessOk(s, s.processes[q]) && MappingOk(s, s.processes[q], s.processes[q].mappings[i]);
    }
  }

  /** Registering a range and listing it in one step. */
  lemma AddKeeps(s: System, p: Pid, m: Mapping, y: Process)
    requires Inv(s) && p in s.processes && m.obj in s.objects && m.id == s.objects[m.obj].nextMapping
    requires m.fileOffset + m.len <= |s.objects[m.obj].bytes| && m.fileOffset + m.len < U64_LIMIT
    requires Gains(s.processes[p], m, y)
    ensures Inv(Added(s, p, m, y))
  {
    var t := Added(s, p, m, y);
    FreshId(s, m.obj);
    GainerOk(s, p, m, y);
    AddedHolders(s, p, m, y);
    assert ObjectOk(s.objects[m.obj]);
    assert ObjectOk(t.objects[m.obj]);
    forall q | q in t.processes && q != p
      ensures ProcessOk(t, t.processes[q])
    {
      assert ProcessOk(s, s.processes[q]);
      forall i | 0 <= i < |t.processes[q].mappings|
        ensures Registered(t, t.processes[q].mappings[i])
      {
        assert MappingOk(s, s.processes[q], s.processes[q].mappings[i]);
      }
      ProcessKept(s, t, t.processes[q]);
    }
  }

  /** What a process may become when it loses its mapping `k`. */
  ghost predicate Loses(x: Process, k: nat, y: Process) {
    && k < |x.mappings|
    && |y.cells| == |x.cells|
    && y.mappings == SwapRemove(x.mappings, k) && y.count == |y.mappings|
    && (y.running ==> y.overlayCount == |y.mappings| && Agrees(y.cells, y.mappings))
  }

  /** Where entry `i` of the shortened list was before. */
  function Before(n: nat, k: nat, i: nat): nat
    requires k < n
  {
    if i == k then n - 1 else i
  }

  lemma LoserOk(s: System, p: Pid, k: nat, y: Process)
    requires p in s.processes && ProcessOk(s, s.processes[p]) && HeldOnce(s) && Loses(s.processes[p], k, y)
    requires s.processes[p].mappings[k].obj in s.objects
    ensures ProcessOk(Removed(s, p, s.processes[p].mappings[k], y), y)
  {
    hide Aligned, Agrees;
    var x := s.processes[p];
    var m := x.mappings[k];
    var t := Removed(s, p, m, y);
    assert Holds(s, p, k, m.obj, m.id);
    forall i | 0 <= i < |y.mappings|
      ensures MappingOk(t, y, y.mappings[i])
    {
      var b := Before(|x.mappings|, k, i);
      assert MappingOk(s, x, x.mappings[b]) && y.mappings[i] == x.mappings[b];
      assert Holds(s, p, b, x.mappings[b].obj, x.mappings[b].id);
    }
    forall i, j | 0 <= i < j < |y.mappings|
      ensures !Overlaps(y.mappings[i], y.mappings[j].address, y.mappings[j].address + y.mappings[j].len)
    {
      var b, c := Before(|x.mappings|, k, i), Before(|x.mappings|, k, j);
      assert y.mappings[i] == x.mappings[b] && y.mappings[j] == x.mappings[c] && b != c;
    }
  }

  /** Which entries the shortened list holds, and where they were. */
  lemma RemovedEntry(s: System, p: Pid, k: nat, y: Process, q: Pid, i: nat, o: ObjectId, id: nat)
    requires p in s.processes && k < |s.processes[p].mappings| && y.mappings == SwapRemove(s.processes[p].mappings, k)
    requires s.processes[p].mappings[k].obj in s.objects
    ensures Holds(Removed(s, p, s.processes[p].mappings[k], y), q, i, o, id) <==>
              if q != p then Holds(s, q, i, o, id)
              else i < |s.processes[p].mappings| - 1 && Holds(s, p, Before(|s.processes[p].mappings|, k, i), o, id)
  {
  }

  lemma RemovedHolders(s: System, p: Pid, k: nat, y: Process)
    requires Held(s) && HeldOnce(s)
    requires p in s.processes && k < |s.processes[p].mappings| && y.mappings == SwapRemove(s.processes[p].mappings, k)
    requires s.processes[p].mappings[k].obj in s.objects
    ensures Held(Removed(s, p, s.processes[p].mappings[k], y)) && HeldOnce(Removed(s, p, s.processes[p].mappings[k], y))
  {
    var n, m := |s.processes[p].mappings|, s.processes[p].mappings[k];
    var t := Removed(s, p, m, y);
    assert forall q: Pid, i: nat, o: ObjectId, id: nat :: Holds(t, q, i, o, id) <==>
        if q != p then Holds(s, q, i, o, id) else i < n - 1 && Holds(s, p, Before(n, k, i), o, id) by {
      forall q: Pid, i: nat, o: ObjectId, id: nat {
        RemovedEntry(s, p, k, y, q, i, o, id);
      }
    }
    assert forall i: nat, o: ObjectId, id: nat :: Holds(s, p, i, o, id) ==> i < n;
    assert forall o, id :: Holds(s, p, k, o, id) ==> o == m.obj && id == m.id;
    hide Holds;
    forall o, id | o in t.objects && id in t.objects[o].registered
      ensures exists q, i :: Holds(t, q, i, o, id)
    {
      var q, i :| Holds(s, q, i, o, id);
      assert q == p ==> i != k;
      var j := if q == p && i == n - 1 then k else i;
      assert q == p ==> Before(n, k, j) == i;
      assert Holds(t, q, j, o, id);
    }
  }

  /** Taking a mapping out of the list and unregistering it in one step. */
  lemma RemoveKeeps(s: System, p: Pid, k: nat, y: Process)
    requires Inv(s) && p in s.processes && Loses(s.processes[p], k, y)
    ensures s.processes[p].mappings[k].obj in s.objects
    ensures Inv(Removed(s, p, s.processes[p].mappings[k], y))
  {
    var m := s.processes[p].mappings[k];
    assert ProcessOk(s, s.processes[p]) && MappingOk(s, s.processes[p], m);
    var t := Removed(s, p, m, y);
    LoserOk(s, p, k, y);
    RemovedHolders(s, p, k, y);
    assert ObjectOk(s.objects[m.obj]);
    assert ObjectOk(t.objects[m.obj]);
    forall q | q in t.processes && q != p
      ensures ProcessOk(t, t.processes[q])
    {
      assert ProcessOk(s, s.processes[q]);
      forall i | 0 <= i < |t.processes[q].mappings|
        ensures Registered(t, t.processes[q].mappings[i])
      {
        var e := s.processes[q].mappings[i];
        assert MappingOk(s, s.processes[q], e);
        assert Holds(s, q, i, e.obj, e.id) && Holds(s, p, k, m.obj, m.id);
      }
      ProcessKept(s, t, t.processes[q]);
    }
  }

  // ----- memory

  lemma OverlayAgrees(cells: seq<Cell>, ms: seq<Mapping>, m: Mapping)
    requires Agrees(cells, ms)
    requires forall i :: 0 <= i < |ms| ==> !Overlaps(ms[i], m.address, m.address + m.len)
    ensures Agrees(Overlaid(cells, m.address, m.len, m.obj, m.fileOffset), ms + [m])
  {
    var after, all := Overlaid(cells, m.address, m.len, m.obj, m.fileOffset), ms + [m];
    forall a | 0 <= a < |after| && after[a].At?
      ensures exists i :: 0 <= i < |all| && InMapping(all[i], a)
    {
      if InMapping(m, a) {
        assert all[|ms|] == m;
      } else {
        var i :| 0 <= i < |ms| && InMapping(ms[i], a);
        assert all[i] == ms[i];
      }
    }
  }

  lemma RestoreAgrees(cells: seq<Cell>, ms: seq<Mapping>, k: nat)
    requires Agrees(cells, ms) && Disjoint(ms) && k < |ms|
    ensures Agrees(Restored(cells, ms[k].address, ms[k].len), SwapRemove(ms, k))
  {
    var after, left := Restored(cells, ms[k].address, ms[k].len), SwapRemove(ms, k);
    forall i, a | 0 <= i < |left| && 0 <= a < |after| && InMapping(left[i], a)
      ensures after[a] == At(left[i].obj, left[i].fileOffset + (a - left[i].address))
    {
      var b := Before(|ms|, k, i);
      assert left[i] == ms[b] && b != k;
    }
    forall a | 0 <= a < |after| && after[a].At?
      ensures exists i :: 0 <= i < |left| && InMapping(left[i], a)
    {
      var i :| 0 <= i < |ms| && InMapping(ms[i], a);
      assert i != k;
      assert left[if i == |ms| - 1 then k else i] == ms[i];
    }
  }

  // ----- map and unmap

  /** What the invariant says of one process. */
  lemma Sound(s: System, p: Pid)
    requires Inv(s) && p in s.processes
    ensures ProcessOk(s, s.processes[p])
    ensures forall i :: 0 <= i < |s.processes[p].mappings| ==>
              && Aligned(s.processes[p].mappings[i])
              && s.processes[p].mappings[i].address + s.processes[p].mappings[i].len <= |s.processes[p].cells|
  {
    hide Aligned;
    assert ProcessOk(s, s.processes[p]);
    forall i | 0 <= i < |s.processes[p].mappings|
      ensures Aligned(s.processes[p].mappings[i])
      ensures s.processes[p].mappings[i].address + s.processes[p].mappings[i].len <= |s.processes[p].cells|
    {
      assert MappingOk(s, s.processes[p], s.processes[p].mappings[i]);
    }
  }

  lemma UnregisteredKeeps(s: System, o: ObjectId, x: Object)
    requires Inv(s) && o in s.objects
    requires x.registered == s.objects[o].registered && x.nextMapping >= s.objects[o].nextMapping
    requires |x.bytes| >= |s.objects[o].bytes| || MayResize(s.objects[o], |x.bytes|)
    ensures Inv(PutObject(s, o, x))
  {
    var t := PutObject(s, o, x);
    assert ObjectOk(s.objects[o]);
    forall q | q in t.processes
      ensures ProcessOk(t, t.processes[q])
    {
      assert ProcessOk(s, s.processes[q]);
      forall i | 0 <= i < |t.processes[q].mappings|
        ensures Registered(t, t.processes[q].mappings[i])
      {
        assert MappingOk(s, s.processes[q], s.processes[q].mappings[i]);
      }
      ProcessKept(s, t, t.processes[q]);
    }
    assert forall q: Pid, i: nat, o: ObjectId, id: nat :: Holds(t, q, i, o, id) <==> Holds(s, q, i, o, id);
    assert Held(t) by {
      hide Holds;
    }
  }

  /** A process keeps its mappings and the size of its memory grows at most. */
  lemma MemoryKeeps(s: System, p: Pid, y: Process)
    requires Inv(s) && p in s.processes
    requires y.mappings == s.processes[p].mappings && y.count == s.processes[p].count
    requires |y.cells| >= |s.processes[p].cells|
    requires y.running ==> y.overlayCount == |y.mappings| && Agrees(y.cells, y.mappings)
    ensures Inv(Put(s, p, y))
  {
    var t := Put(s, p, y);
    var x := s.processes[p];
    forall i | 0 <= i < |y.mappings|
      ensures MappingOk(t, y, y.mappings[i])
    {
      assert MappingOk(s, x, x.mappings[i]);
    }
    forall q | q in t.processes && q != p
      ensures ProcessOk(t, t.processes[q])
    {
      assert ProcessOk(s, s.processes[q]);
      forall i | 0 <= i < |t.processes[q].mappings|
        ensures Registered(t, t.processes[q].mappings[i])
      {
        assert MappingOk(s, s.processes[q], s.processes[q].mappings[i]);
      }
      ProcessKept(s, t, t.processes[q]);
    }
    assert forall q: Pid, i: nat, o: ObjectId, id: nat :: Holds(t, q, i, o, id) <==> Holds(s, q, i, o, id);
    assert Held(t) by {
      hide Holds;
    }
  }

  /** A mapping that succeeds. */
  lemma MapIntoAdds(s: System, page: nat, p: Pid, o: ObjectId, address: nat, len: nat, fileOffset: nat,
                    cloneOk: bool, mmapOk: bool)
    requires Inv(s) && page > 0 && p in s.processes && s.processes[p].running && o in s.objects
    requires Aligned(NewMapping(s, o, address, len, fileOffset))
    requires MapInto(s.processes[p], o, s.objects[o], page, address, len, fileOffset, cloneOk, mmapOk).2.None?
    ensures var r := MapInto(s.processes[p], o, s.objects[o], page, address, len, fileOffset, cloneOk, mmapOk);
            Inv(Put(PutObject(s, o, r.1), p, r.0))
  {
    var x, m := s.processes[p], NewMapping(s, o, address, len, fileOffset);
    var r := MapInto(x, o, s.objects[o], page, address, len, fileOffset, cloneOk, mmapOk);
    assert ProcessOk(s, x);
    assert Put(PutObject(s, o, r.1), p, r.0) == Added(s, p, m, r.0);
    hide Aligned, Inv, ProcessOk;
    OverlayAgrees(x.cells, x.mappings, m);
    hide Agrees;
    assert Gains(x, m, r.0);
    AddKeeps(s, p, m, r.0);
  }

  /** A mapping that is refused leaves the process and the registrations as they were. */
  lemma MapIntoRefuses(x: Process, o: ObjectId, target: Object, page: nat, address: nat, len: nat, fileOffset: nat,
                       cloneOk: bool, mmapOk: bool)
    requires page > 0 && target.nextMapping !in target.registered
    requires MapInto(x, o, target, page, address, len, fileOffset, cloneOk, mmapOk).2.Some?
    ensures var r := MapInto(x, o, target, page, address, len, fileOffset, cloneOk, mmapOk);
            && r.0 == x && r.1.registered == target.registered && r.1.bytes == target.bytes
            && r.1.nextMapping >= target.nextMapping
  {
  }

  /** `fd_map` keeps the invariant, whatever it answers. */
  lemma MapKeeps(s: System, page: nat, p: Pid, address: nat, len: nat, fileOffset: nat, env: Env)
    requires Inv(s) && page > 0 && p in s.processes && s.processes[p].running
    requires env.obj.Success? ==> env.obj.value in s.objects
    ensures Inv(FdMap(s, page, p, address, len, fileOffset, env).0)
  {
    hide Inv, MapInto;
    var t := FdMap(s, page, p, address, len, fileOffset, env).0;
    if MapRefusal(address, len, fileOffset, env).None? {
      var o := env.obj.value;
      var r := MapInto(s.processes[p], o, s.objects[o], page, address, len, fileOffset, env.cloneOk, env.mmapOk);
      if r.2.Some? {
        FreshId(s, o);
        MapIntoRefuses(s.processes[p], o, s.objects[o], page, address, len, fileOffset, env.cloneOk, env.mmapOk);
        UnregisteredKeeps(s, o, r.1);
        assert t == PutObject(s, o, r.1);
      } else {
        MapIntoAdds(s, page, p, o, address, len, fileOffset, env.cloneOk, env.mmapOk);
      }
    }
  }

  /** `fd_unmap` keeps the invariant. */
  lemma UnmapKeeps(s: System, page: nat, p: Pid, address: nat, len: nat, mmapOk: bool)
    requires Inv(s) && page > 0 && p in s.processes && s.processes[p].running
    ensures forall i :: 0 <= i < |s.processes[p].mappings| ==> s.processes[p].mappings[i].obj in s.objects
    ensures Inv(FdUnmap(s, page, p, address, len, mmapOk).0)
  {
    var x := s.processes[p];
    assert ProcessOk(s, x);
    assert forall i :: 0 <= i < |x.mappings| ==> MappingOk(s, x, x.mappings[i]);
    var r := UnmapFrom(x, page, address, len, mmapOk);
    if r.1.Success? {
      var k := Position(x.mappings, address, len);
      RestoreAgrees(x.cells, x.mappings, k);
      RemoveKeeps(s, p, k, r.0);
    }
  }
}
