/** The calls as the code makes them, updating the mapping lists, the objects and the memories in place. */
module SharedMemoryCalls {
  import opened Wrappers
  import opened SharedMemory

  class Machine {
    var objects: map<ObjectId, Object>
    var processes: map<Pid, Process>
    const page: nat

    constructor (page: nat)
      requires page > 0
      ensures Valid() && View() == System(map[], map[])
    {
      this.page := page;
      objects, processes := map[], map[];
    }

    ghost predicate Valid()
      reads this
    {
      page > 0
    }

    ghost function View(): System
      reads this
    {
      System(objects, processes)
    }

    /** `register_mapping`. */
    method Register(o: ObjectId, fileOffset: nat, len: nat) returns (id: Result<nat, Errno>)
      requires o in objects
      modifies this`objects
      ensures match SharedMemory.Register(old(objects)[o], fileOffset, len)
              case Failure(e) => id == Failure(e) && objects == old(objects)
              case Success((x, n)) => id == Success(n) && objects == old(objects)[o := x]
    {
      if fileOffset + len >= U64_LIMIT {
        return Failure(Overflow);
      }
      var x := objects[o];
      if len == 0 || fileOffset + len > |x.bytes| {
        return Failure(Inval);
      }
      var n := x.nextMapping;
      objects := objects[o := Object(x.bytes, n + 1, x.registered[n := Extent(fileOffset, fileOffset + len)])];
      return Success(n);
    }

    /** Dropping a mapping. */
    method Drop(o: ObjectId, id: nat)
      requires o in objects
      modifies this`objects
      ensures objects == old(objects)[o := Unregister(old(objects)[o], id)]
    {
      objects := objects[o := Unregister(objects[o], id)];
    }

    /** `set_len`. */
    method SetLen(o: ObjectId, size: nat) returns (ok: bool)
      requires o in objects
      modifies this`objects
      ensures ok <==> MayResize(old(objects)[o], size)
      ensures objects == if ok then old(objects)[o := old(objects)[o].(bytes := Resized(old(objects)[o].bytes, size))]
                         else old(objects)
      ensures ok ==> |objects[o].bytes| == size
                     && forall i :: 0 <= i < size ==>
                          objects[o].bytes[i] == if i < |old(objects)[o].bytes| then old(objects)[o].bytes[i] else 0
    {
      var x := objects[o];
      var left := x.registered.Keys;
      while left != {}
        invariant left <= x.registered.Keys
        invariant forall id :: id in x.registered && id !in left ==> x.registered[id].end <= size
        invariant objects == old(objects)
        decreases |left|
      {
        var id :| id in left;
        if x.registered[id].end > size {
          return false;
        }
        left := left - {id};
      }
      objects := objects[o := x.(bytes := Resized(x.bytes, size))];
      return true;
    }

    /** `overlay_shared_file`: replaces bytes of the memory and counts the overlay. */
    method Overlay(p: Pid, address: nat, len: nat, o: ObjectId, fileOffset: nat, mmapOk: bool) returns (ok: bool)
      requires Valid() && p in processes
      modifies this`processes
      ensures ok <==> ValidRange(|old(processes)[p].cells|, page, address, len, fileOffset) && mmapOk
      ensures processes == if ok then old(processes)[p := ReplayOne(old(processes)[p], Mapping(o, 0, address, len, fileOffset))]
                           else old(processes)
    {
      var x := processes[p];
      ok := ValidRange(|x.cells|, page, address, len, fileOffset) && mmapOk;
      if ok {
        processes := processes[p := x.(cells := Overlaid(x.cells, address, len, o, fileOffset),
                                       overlayCount := x.overlayCount + 1)];
      }
    }

    /** `fd_map`. */
    method FdMap(p: Pid, address: nat, len: nat, fileOffset: nat, env: Env) returns (error: Option<Errno>)
      requires Valid() && p in processes
      requires env.obj.Success? ==> env.obj.value in objects
      modifies this
      ensures Valid()
      ensures (View(), error) == SharedMemory.FdMap(old(View()), page, p, address, len, fileOffset, env)
    {
      if len == 0 || address % WASM_PAGE != 0 || len % WASM_PAGE != 0 || fileOffset % WASM_PAGE != 0 {
        return Some(Inval);
      }
      if address + len >= U64_LIMIT {
        return Some(Overflow);
      }
      if env.obj.Failure? {
        return Some(env.obj.error);
      }
      error := MapLocked(p, env.obj.value, address, len, fileOffset, env.cloneOk, env.mmapOk);
    }

    /** What `fd_map` does under the write lock. */
    method MapLocked(p: Pid, o: ObjectId, address: nat, len: nat, fileOffset: nat, cloneOk: bool, mmapOk: bool)
      returns (error: Option<Errno>)
      requires Valid() && p in processes && o in objects
      modifies this
      ensures Valid()
      ensures var r := MapInto(old(processes)[p], o, old(objects)[o], page, address, len, fileOffset, cloneOk, mmapOk);
              objects == old(objects)[o := r.1] && processes == old(processes)[p := r.0] && error == r.2
    {
      var ms := processes[p].mappings;
      for i := 0 to |ms|
        invariant objects == old(objects) && processes == old(processes)
        invariant forall j :: 0 <= j < i ==> !Overlaps(ms[j], address, address + len)
      {
        if Overlaps(ms[i], address, address + len) {
          return Some(Exist);
        }
      }
      var id := Register(o, fileOffset, len);
      if id.Failure? {
        return Some(id.error);
      }
      if !cloneOk {
        Drop(o, id.value);
        return Some(Io);
      }
      var ok := Overlay(p, address, len, o, fileOffset, mmapOk);
      if !ok {
        Drop(o, id.value);
        return Some(Inval);
      }
      var x := processes[p];
      processes := processes[p := x.(mappings := x.mappings + [Mapping(o, id.value, address, len, fileOffset)],
                                     count := |x.mappings| + 1)];
      return None;
    }

    /** `fd_unmap`. */
    method FdUnmap(p: Pid, address: nat, len: nat, mmapOk: bool) returns (error: Option<Errno>)
      requires Valid() && p in processes
      requires forall i :: 0 <= i < |processes[p].mappings| ==> processes[p].mappings[i].obj in objects
      modifies this
      ensures Valid()
      ensures (View(), error) == SharedMemory.FdUnmap(old(View()), page, p, address, len, mmapOk)
    {
      if len == 0 || address % WASM_PAGE != 0 || len % WASM_PAGE != 0 {
        return Some(Inval);
      }
      var x := processes[p];
      var k := FindMapping(x.mappings, address, len);
      if k == |x.mappings| || !ValidRange(|x.cells|, page, address, len, 0) || !mmapOk {
        return Some(Inval);
      }
      var m := x.mappings[k];
      var overlays := if x.overlayCount == 0 then 0 else x.overlayCount - 1;
      processes := processes[p := Process(Restored(x.cells, address, len), overlays, SwapRemove(x.mappings, k),
                                          |x.mappings| - 1, x.running)];
      Drop(m.obj, m.id);
      return None;
    }

    method FindMapping(ms: seq<Mapping>, address: nat, len: nat) returns (k: nat)
      ensures k == Position(ms, address, len)
    {
      k := 0;
      while k < |ms| && !(ms[k].address == address && ms[k].len == len)
        invariant k <= |ms|
        invariant Position(ms, address, len) == k + Position(ms[k..], address, len)
      {
        assert ms[k..][1..] == ms[k + 1..];
        k := k + 1;
      }
    }

    /** `futex_owner`. */
    method FutexOwnerOf(p: Pid, a: nat) returns (owner: FutexOwner, index: nat)
      requires p in processes
      ensures (owner, index) == FutexIdentity(View(), p, a)
    {
      var x := processes[p];
      if x.count != 0 {
        var k := 0;
        while k < |x.mappings|
          invariant k <= |x.mappings|
          invariant FindWord(x.mappings, a) == k + FindWord(x.mappings[k..], a)
        {
          var m := x.mappings[k];
          if m.address <= a && a + 4 <= m.address + m.len {
            return Shared(m.obj), m.fileOffset + (a - m.address);
          }
          assert x.mappings[k..][1..] == x.mappings[k + 1..];
          k := k + 1;
        }
      }
      return Private(p), a;
    }

    /** `fork_clone` of one mapping into the child; the panic is `false`. */
    method CloneInto(c: Pid, m: Mapping) returns (ok: bool)
      requires c in processes && m.obj in objects
      modifies this
      ensures var r := CloneMapping(old(View()), c, m);
              (ok <==> r.Some?) && (ok ==> View() == r.value)
    {
      var id := Register(m.obj, m.fileOffset, m.len);
      if id.Failure? {
        return false;
      }
      var y := processes[c];
      processes := processes[c := y.(mappings := y.mappings + [m.(id := id.value)], count := |y.mappings| + 1)];
      return true;
    }

    /** The list `proc_fork` hands to the child. */
    method CloneAll(c: Pid, ms: seq<Mapping>) returns (ok: bool)
      requires c in processes && forall i :: 0 <= i < |ms| ==> ms[i].obj in objects
      modifies this
      ensures var r := CloneMappings(old(View()), c, ms);
              (ok <==> r.Some?) && (ok ==> View() == r.value)
    {
      hide CloneMapping;
      ghost var was := View();
      for i := 0 to |ms|
        invariant c in processes && objects.Keys == was.objects.Keys
        invariant CloneMappings(was, c, ms[..i]) == Some(View())
      {
        assert ms[..i + 1][..i] == ms[..i];
        ok := CloneInto(c, ms[i]);
        if !ok {
          CloneStops(was, c, ms, i + 1);
          return;
        }
        assert CloneMappings(was, c, ms[..i + 1]) == Some(View());
      }
      assert ms[..|ms|] == ms;
      return true;
    }

    /** Restoring the child's overlays before it runs; it stays stopped at the first one that fails. */
    method RestoreAll(c: Pid, restored: nat) returns (k: nat)
      requires Valid() && c in processes
      modifies this`processes
      ensures k <= |old(processes)[c].mappings| && k <= restored
      ensures k < |old(processes)[c].mappings| && k < restored ==>
                var y := old(processes)[c];
                !ValidRange(|y.cells|, page, y.mappings[k].address, y.mappings[k].len, y.mappings[k].fileOffset)
      ensures var y := old(processes)[c];
              processes == old(processes)[c := Replay(y, k).(running := k == |y.mappings|)]
    {
      var y := processes[c];
      processes := processes[c := y.(running := false)];
      k := 0;
      while k < |y.mappings|
        invariant k <= |y.mappings| && k <= restored
        invariant processes == old(processes)[c := Replay(y, k).(running := false)]
      {
        var m := y.mappings[k];
        var ok := Overlay(c, m.address, m.len, m.obj, m.fileOffset, k < restored);
        if !ok {
          return;
        }
        k := k + 1;
      }
      processes := processes[c := processes[c].(running := true)];
    }

    /** What `proc_fork` does about shared memory; `k` overlays are restored. */
    method Fork(p: Pid, c: Pid, restored: nat) returns (ok: bool, k: nat)
      requires Valid() && p in processes && c !in processes && Readable(View(), p)
      requires forall i :: 0 <= i < |processes[p].mappings| ==> processes[p].mappings[i].obj in objects
      modifies this
      ensures Valid() && k <= restored
      ensures ok <==> CloneMappings(Put(old(View()), c, Unmapped(old(View()), p)), c, old(processes)[p].mappings).Some?
      ensures ok ==> View() == SharedMemory.Fork(old(View()), p, c, k)
    {
      hide Copied, CloneMappings, Replay;
      var ms := processes[p].mappings;
      var cells := Copied(System(objects, processes), p);
      processes := processes[c := Process(cells, 0, [], 0, false)];
      ok := CloneAll(c, ms);
      k := 0;
      if ok {
        k := RestoreAll(c, restored);
      }
    }
  }

  /** A list with a prefix that cannot be cloned cannot be cloned. */
  lemma {:induction false} CloneStops(s: System, c: Pid, ms: seq<Mapping>, k: nat)
    requires c in s.processes && k <= |ms| && forall i :: 0 <= i < |ms| ==> ms[i].obj in s.objects
    requires CloneMappings(s, c, ms[..k]).None?
    ensures CloneMappings(s, c, ms).None?
    decreases |ms|
  {
    if k < |ms| {
      assert ms[..|ms| - 1][..k] == ms[..k];
      CloneStops(s, c, ms[..|ms| - 1], k);
    } else {
      assert ms[..k] == ms;
    }
  }
}
