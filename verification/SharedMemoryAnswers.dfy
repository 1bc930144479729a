/** What the mapping calls answer and do, told from their arguments and from what the processes map. */
module SharedMemoryAnswers {
  import opened Wrappers
  import opened SharedMemory
  import opened SharedMemorySteps
  import opened SharedMemoryRuns
  import opened SharedMemoryTheorems

  // ----- fd_map

  /** Some live mapping of the process has an address of the range. */
  ghost predicate Meets(x: Process, address: nat, len: nat) {
    exists i, a: nat :: 0 <= i < |x.mappings| && InMapping(x.mappings[i], a) && address <= a < address + len
  }

  lemma MeetsExactly(x: Process, address: nat, len: nat)
    requires len > 0 && forall i :: 0 <= i < |x.mappings| ==> x.mappings[i].len > 0
    ensures Meets(x, address, len) <==> exists i :: 0 <= i < |x.mappings| && Overlaps(x.mappings[i], address, address + len)
  {
    if i :| 0 <= i < |x.mappings| && Overlaps(x.mappings[i], address, address + len) {
      var m := x.mappings[i];
      var a := if m.address < address then address else m.address;
      assert InMapping(m, a);
    }
  }

  predicate Misaligned(address: nat, len: nat, fileOffset: nat, unit: nat)
    requires unit > 0
  {
    address % unit != 0 || len % unit != 0 || fileOffset % unit != 0
  }

  /**
   The answer of `fd_map`, error by error in the order they are met: success
   exactly when none of them applies.
   */
  lemma MapAnswers(s: System, page: nat, p: Pid, address: nat, len: nat, fileOffset: nat, env: Env)
    requires page > 0 && p in s.processes && ProcessOk(s, s.processes[p])
    requires env.obj.Success? ==> env.obj.value in s.objects
    ensures FdMap(s, page, p, address, len, fileOffset, env).1 ==
            if len == 0 || Misaligned(address, len, fileOffset, WASM_PAGE) then Some(Inval)
            else if address + len >= U64_LIMIT then Some(Overflow)
            else if env.obj.Failure? then Some(env.obj.error)
            else if Meets(s.processes[p], address, len) then Some(Exist)
            else if fileOffset + len >= U64_LIMIT then Some(Overflow)
            else if fileOffset + len > |s.objects[env.obj.value].bytes| then Some(Inval)
            else if !env.cloneOk then Some(Io)
            else if Misaligned(address, len, fileOffset, page) then Some(Inval)
            else if address + len > |s.processes[p].cells| || !env.mmapOk then Some(Inval)
            else None
  {
    if len > 0 {
      MeetsExactly(s.processes[p], address, len);
    }
    hide Agrees, Disjoint, Overlaid;
  }

  /**
   A successful `fd_map`: the addresses of the range are the object's bytes
   from the file offset on, every other address is as before, the list gains
   exactly that mapping, and the object a registration of exactly that range.
   */
  lemma MapMaps(s: System, page: nat, p: Pid, address: nat, len: nat, fileOffset: nat, env: Env)
    requires page > 0 && p in s.processes
    requires env.obj.Success? ==> env.obj.value in s.objects
    requires FdMap(s, page, p, address, len, fileOffset, env).1 == None
    ensures env.obj.Success?
    ensures var s', o := FdMap(s, page, p, address, len, fileOffset, env).0, env.obj.value;
            && s'.processes.Keys == s.processes.Keys && s'.objects.Keys == s.objects.Keys
            && (forall q :: q in s.processes && q != p ==> s'.processes[q] == s.processes[q])
            && (forall b :: b in s.objects && b != o ==> s'.objects[b] == s.objects[b])
            && var x, x' := s.processes[p], s'.processes[p];
               var n := s.objects[o].nextMapping;
               && |x'.cells| == |x.cells|
               && (forall a :: 0 <= a < |x.cells| ==>
                     x'.cells[a] == if address <= a < address + len then At(o, fileOffset + (a - address)) else x.cells[a])
               && x'.mappings == x.mappings + [Mapping(o, n, address, len, fileOffset)]
               && x'.count == |x'.mappings| && x'.overlayCount == x.overlayCount + 1 && x'.running == x.running
               && s'.objects[o].bytes == s.objects[o].bytes
               && s'.objects[o].registered == s.objects[o].registered[n := Extent(fileOffset, fileOffset + len)]
  {
  }

  /**
   In every run, after a successful `fd_map` the process reads the object
   through the range, from the file offset on, and elsewhere what it read.
   */
  lemma MappedReads(run: seq<System>, page: nat, steps: seq<Step>, n: nat, p: Pid, address: nat, len: nat, fileOffset: nat,
                    env: Env, a: nat)
    requires IsRun(run, page, steps) && n < |run| && Runs(run[n], p) && a < |run[n].processes[p].cells|
    requires env.obj.Success? && env.obj.value in run[n].objects
    requires FdMap(run[n], page, p, address, len, fileOffset, env).1 == None
    ensures var s, s' := run[n], FdMap(run[n], page, p, address, len, fileOffset, env).0;
            && p in s'.processes && |s'.processes[p].cells| == |s.processes[p].cells| && Readable(s, p) && Readable(s', p)
            && address + len <= |s.processes[p].cells|
            && (address <= a < address + len ==>
                  && fileOffset + (a - address) < |s.objects[env.obj.value].bytes|
                  && Load(s', p, a) == s.objects[env.obj.value].bytes[fileOffset + (a - address)])
            && (!(address <= a < address + len) ==> Load(s', p, a) == Load(s, p, a))
  {
    hide Inv, FdMap, Meets;
    RunKeeps(run, page, steps, n);
    var s := run[n];
    assert ProcessOk(s, s.processes[p]) by { OneProcess(s, p); }
    MapKeeps(s, page, p, address, len, fileOffset, env);
    MapAnswers(s, page, p, address, len, fileOffset, env);
    MapMaps(s, page, p, address, len, fileOffset, env);
    RunningReadable(s, p);
    RunningReadable(FdMap(s, page, p, address, len, fileOffset, env).0, p);
  }

  lemma OneProcess(s: System, p: Pid)
    requires Inv(s) && p in s.processes
    ensures ProcessOk(s, s.processes[p])
  {
  }

  // ----- fd_unmap

  /** The process has a mapping with exactly this range. */
  ghost predicate MapsExactly(x: Process, address: nat, len: nat) {
    exists i :: 0 <= i < |x.mappings| && x.mappings[i].address == address && x.mappings[i].len == len
  }

  /** The answer of `fd_unmap`: success exactly for a mapping's own range that the system lets go. */
  lemma UnmapAnswers(s: System, page: nat, p: Pid, address: nat, len: nat, mmapOk: bool)
    requires page > 0 && Inv(s) && p in s.processes
    requires forall i :: 0 <= i < |s.processes[p].mappings| ==> s.processes[p].mappings[i].obj in s.objects
    ensures FdUnmap(s, page, p, address, len, mmapOk).1 ==
            if MapsExactly(s.processes[p], address, len) && !Misaligned(address, len, 0, page) && mmapOk then None
            else Some(Inval)
  {
    var x := s.processes[p];
    assert ProcessOk(s, x);
    var k := Position(x.mappings, address, len);
    if k < |x.mappings| {
      assert MappingOk(s, x, x.mappings[k]);
    }
    hide Inv, Agrees, Disjoint, Restored;
  }

  /**
   A successful `fd_unmap`: the addresses of the range are the process's own
   and zero, every other address is as before, and exactly that mapping leaves
   the list and exactly its registration the object.
   */
  lemma UnmapUnmaps(s: System, page: nat, p: Pid, address: nat, len: nat, mmapOk: bool) returns (k: nat)
    requires page > 0 && p in s.processes
    requires forall i :: 0 <= i < |s.processes[p].mappings| ==> s.processes[p].mappings[i].obj in s.objects
    requires FdUnmap(s, page, p, address, len, mmapOk).1 == None
    ensures k < |s.processes[p].mappings|
    ensures s.processes[p].mappings[k].address == address && s.processes[p].mappings[k].len == len
    ensures var s', m := FdUnmap(s, page, p, address, len, mmapOk).0, s.processes[p].mappings[k];
            && s'.processes.Keys == s.processes.Keys && s'.objects.Keys == s.objects.Keys
            && (forall q :: q in s.processes && q != p ==> s'.processes[q] == s.processes[q])
            && (forall b :: b in s.objects && b != m.obj ==> s'.objects[b] == s.objects[b])
            && s'.objects[m.obj] == s.objects[m.obj].(registered := s.objects[m.obj].registered - {m.id})
            && var x, x' := s.processes[p], s'.processes[p];
               && |x'.cells| == |x.cells|
               && (forall a :: 0 <= a < |x.cells| ==>
                     x'.cells[a] == if address <= a < address + len then Own(0) else x.cells[a])
               && multiset(x'.mappings) == multiset(x.mappings) - multiset{m}
               && x'.count == |x'.mappings| && x'.running == x.running
  {
    k := Position(s.processes[p].mappings, address, len);
    SwapRemoves(s.processes[p].mappings, k);
  }

  lemma SwapRemoves(ms: seq<Mapping>, k: nat)
    requires k < |ms|
    ensures |SwapRemove(ms, k)| == |ms| - 1
    ensures multiset(SwapRemove(ms, k)) == multiset(ms) - multiset{ms[k]}
  {
    var last := |ms| - 1;
    assert ms == ms[..last] + [ms[last]];
    if k < last {
      assert SwapRemove(ms, k) == ms[..last][k := ms[last]];
      assert ms[..last] == ms[..k] + [ms[k]] + ms[k + 1..last];
      assert SwapRemove(ms, k) == ms[..k] + [ms[last]] + ms[k + 1..last];
    } else {
      assert SwapRemove(ms, k) == ms[..last];
    }
  }

  // ----- set_len

  /** In every run, a new length is refused exactly when a live mapping of some process reaches past it. */
  lemma ResizeRefusedExactly(run: seq<System>, page: nat, steps: seq<Step>, n: nat, o: ObjectId, size: nat)
    requires IsRun(run, page, steps) && n < |run| && o in run[n].objects
    ensures MayResize(run[n].objects[o], size) <==>
              forall p, i :: p in run[n].processes && 0 <= i < |run[n].processes[p].mappings|
                             && run[n].processes[p].mappings[i].obj == o ==>
                run[n].processes[p].mappings[i].fileOffset + run[n].processes[p].mappings[i].len <= size
  {
    RegistrationsAreLiveMappings(run, page, steps, n);
    var s := run[n];
    if MayResize(s.objects[o], size) {
      forall p, i: nat | p in s.processes && i < |s.processes[p].mappings| && s.processes[p].mappings[i].obj == o
        ensures s.processes[p].mappings[i].fileOffset + s.processes[p].mappings[i].len <= size
      {
        assert Holds(s, p, i, o, s.processes[p].mappings[i].id);
      }
    } else {
      var id :| id in s.objects[o].registered && s.objects[o].registered[id].end > size;
      var p: Pid, i: nat :| Holds(s, p, i, o, id);
    }
  }

  // ----- file writes and growing

  /**
   In every run, a write to the file is what every process then reads through
   its mappings of those bytes, and nothing else that any process reads changes.
   */
  lemma WritesAreSeen(run: seq<System>, page: nat, steps: seq<Step>, n: nat, o: ObjectId, offset: nat, data: seq<Byte>,
                      q: Pid, c: nat)
    requires IsRun(run, page, steps) && n < |run| && o in run[n].objects
    requires Runs(run[n], q) && c < |run[n].processes[q].cells|
    ensures var s := run[n];
            var s' := Apply(s, page, WriteFile(o, offset, data));
            var cell := s.processes[q].cells[c];
            && s'.processes == s.processes && Readable(s, q) && Readable(s', q)
            && Load(s', q, c) == if cell.At? && cell.obj == o && offset <= cell.offset < offset + |data|
                                 then data[cell.offset - offset] else Load(s, q, c)
  {
    RunKeeps(run, page, steps, n);
    var s := run[n];
    RunningReadable(s, q);
    StepKeeps(s, page, WriteFile(o, offset, data));
    hide Inv;
    RunningReadable(Apply(s, page, WriteFile(o, offset, data)), q);
    hide Readable;
    WriteSeen(s, page, o, offset, data, q, c);
  }

  lemma WriteSeen(s: System, page: nat, o: ObjectId, offset: nat, data: seq<Byte>, q: Pid, c: nat)
    requires page > 0 && o in s.objects && q in s.processes && Readable(s, q) && c < |s.processes[q].cells|
    requires Readable(Apply(s, page, WriteFile(o, offset, data)), q)
    ensures var cell := s.processes[q].cells[c];
            Load(Apply(s, page, WriteFile(o, offset, data)), q, c)
            == if cell.At? && cell.obj == o && offset <= cell.offset < offset + |data|
               then data[cell.offset - offset] else Load(s, q, c)
  {
  }

  /**
   In every run, a grow that is not refused makes the memory longer by what was
   asked for: what was there reads as before and the rest is zero. A refused
   one changes nothing.
   */
  lemma GrowExtends(run: seq<System>, page: nat, steps: seq<Step>, n: nat, p: Pid, more: nat, moves: bool, a: nat)
    requires IsRun(run, page, steps) && n < |run| && Runs(run[n], p)
    ensures var s, s' := run[n], Apply(run[n], page, Grow(p, more, moves));
            if moves && s.processes[p].mappings != [] then s' == s
            else && p in s'.processes && Readable(s, p) && Readable(s', p)
                 && |s'.processes[p].cells| == |s.processes[p].cells| + more
                 && s'.processes[p].mappings == s.processes[p].mappings && s'.objects == s.objects
                 && (a < |s.processes[p].cells| ==> Load(s', p, a) == Load(s, p, a))
                 && (|s.processes[p].cells| <= a < |s'.processes[p].cells| ==> Load(s', p, a) == 0)
  {
    RunKeeps(run, page, steps, n);
    var s := run[n];
    MovingGrowRefusedExactly(run, page, steps, n, p);
    RunningReadable(s, p);
    StepKeeps(s, page, Grow(p, more, moves));
    hide Inv;
    var s' := Apply(s, page, Grow(p, more, moves));
    RunningReadable(s', p);
  }
}
