/** Runs of processes that map, unmap, store, grow, fork and end, and what every state of every run keeps. */
module SharedMemoryTheorems {
  import opened Wrappers
  import opened SharedMemory
  import opened SharedMemorySteps
  import opened SharedMemoryRuns

  datatype Step =
    | Create(o: ObjectId)
    | SetLen(o: ObjectId, size: nat)
    | WriteFile(o: ObjectId, offset: nat, data: seq<Byte>)
    | Spawn(p: Pid, size: nat)
    | Map(p: Pid, address: nat, len: nat, fileOffset: nat, env: Env)
    | Unmap(p: Pid, address: nat, len: nat, mmapOk: bool)
    | StoreByte(p: Pid, a: nat, b: Byte)
    | Grow(p: Pid, more: nat, moves: bool)
    | ForkTo(p: Pid, c: Pid, restored: nat)
    | End(p: Pid)

  function Written(bytes: seq<Byte>, offset: nat, data: seq<Byte>): (r: seq<Byte>)
    ensures |r| >= |bytes|
  {
    if data == [] then bytes
    else
      var n := if offset + |data| > |bytes| then offset + |data| else |bytes|;
      seq(n, i requires 0 <= i < n =>
        if offset <= i < offset + |data| then data[i - offset] else if i < |bytes| then bytes[i] else 0)
  }

  /** A memory that a grow was allowed to extend. */
  function Grown(x: Process, more: nat): Process {
    x.(cells := x.cells + seq(more, i => Own(0)))
  }

  predicate Runs(s: System, p: Pid) {
    p in s.processes && s.processes[p].running
  }

  /** Who may take the step. */
  predicate Allowed(s: System, step: Step) {
    match step
    case Create(o) => o !in s.objects
    case SetLen(o, _) => o in s.objects
    case WriteFile(o, _, _) => o in s.objects
    case Spawn(p, _) => p !in s.processes
    case Map(p, _, _, _, env) => Runs(s, p) && (env.obj.Success? ==> env.obj.value in s.objects)
    case Unmap(p, _, _, _) => Runs(s, p)
    case StoreByte(p, a, _) => Runs(s, p) && a < |s.processes[p].cells|
    case Grow(p, _, _) => Runs(s, p)
    case ForkTo(p, c, _) => Runs(s, p) && c !in s.processes
    case End(p) => p in s.processes
  }

  /** That the step meets no dangling mapping and touches no byte past the end of an object. */
  ghost predicate Defined(s: System, step: Step)
    requires Allowed(s, step)
  {
    (step.Unmap? || step.StoreByte? || step.ForkTo? || step.End?) ==>
      && (forall i :: 0 <= i < |s.processes[step.p].mappings| ==> s.processes[step.p].mappings[i].obj in s.objects)
      && (step.StoreByte? || step.ForkTo? ==> Readable(s, step.p))
  }

  ghost function Apply(s: System, page: nat, step: Step): System
    requires page > 0 && Allowed(s, step) && Defined(s, step)
  {
    match step
    case Create(o) => PutObject(s, o, Object([], 1, map[]))
    case SetLen(o, size) =>
      if MayResize(s.objects[o], size)
      then PutObject(s, o, s.objects[o].(bytes := Resized(s.objects[o].bytes, size)))
      else s
    case WriteFile(o, offset, data) =>
      PutObject(s, o, s.objects[o].(bytes := Written(s.objects[o].bytes, offset, data)))
    case Spawn(p, size) => Put(s, p, Process(seq(size, i => Own(0)), 0, [], 0, true))
    case Map(p, address, len, fileOffset, env) => FdMap(s, page, p, address, len, fileOffset, env).0
    case Unmap(p, address, len, mmapOk) => FdUnmap(s, page, p, address, len, mmapOk).0
    case StoreByte(p, a, b) => Store(s, p, a, b)
    case Grow(p, more, moves) =>
      if GrowRefused(s.processes[p], moves) then s else Put(s, p, Grown(s.processes[p], more))
    case ForkTo(p, c, restored) => Fork(s, p, c, restored)
    case End(p) => Exit(s, p)
  }

  ghost predicate Follows(s: System, page: nat, step: Step, t: System)
    requires page > 0
  {
    Allowed(s, step) && Defined(s, step) && t == Apply(s, page, step)
  }

  ghost predicate IsRun(run: seq<System>, page: nat, steps: seq<Step>) {
    && page > 0 && |run| == |steps| + 1
    && run[0] == System(map[], map[])
    && forall i :: 0 <= i < |steps| ==> Follows(run[i], page, steps[i], run[i + 1])
  }

  // ----- each step

  /** No step that is allowed meets a dangling mapping or a byte that does not exist. */
  lemma AllowedIsDefined(s: System, step: Step)
    requires Inv(s) && Allowed(s, step)
    ensures Defined(s, step)
  {
    if step.End? {
      ExitKeeps(s, step.p);
    } else if step.Unmap? || step.StoreByte? || step.ForkTo? {
      RunningReadable(s, step.p);
    }
  }

  lemma CreateKeeps(s: System, o: ObjectId)
    requires Inv(s) && o !in s.objects
    ensures Inv(PutObject(s, o, Object([], 1, map[])))
  {
    var t := PutObject(s, o, Object([], 1, map[]));
    assert forall q: Pid, i: nat, a: ObjectId, id: nat :: Holds(t, q, i, a, id) <==> Holds(s, q, i, a, id);
    assert Held(t) by {
      hide Holds;
    }
    forall q | q in t.processes
      ensures ProcessOk(t, t.processes[q])
    {
      assert ProcessOk(s, s.processes[q]);
      assert forall i :: 0 <= i < |t.processes[q].mappings| ==> MappingOk(s, s.processes[q], s.processes[q].mappings[i]);
      ProcessKept(s, t, t.processes[q]);
    }
  }

  lemma GrowKeeps(s: System, p: Pid, more: nat)
    requires Inv(s) && Runs(s, p)
    ensures Inv(Put(s, p, Grown(s.processes[p], more)))
  {
    hide Aligned;
    var x, y := s.processes[p], Grown(s.processes[p], more);
    assert ProcessOk(s, x);
    assert Agrees(y.cells, y.mappings) by {
      forall i, a | 0 <= i < |y.mappings| && 0 <= a < |y.cells| && InMapping(y.mappings[i], a)
        ensures y.cells[a] == At(y.mappings[i].obj, y.mappings[i].fileOffset + (a - y.mappings[i].address))
      {
        assert MappingOk(s, x, x.mappings[i]);
      }
    }
    MemoryKeeps(s, p, y);
  }

  lemma StoreKeeps(s: System, p: Pid, a: nat, b: Byte)
    requires Inv(s) && Runs(s, p) && a < |s.processes[p].cells| && Readable(s, p)
    ensures Inv(Store(s, p, a, b))
  {
    var x := s.processes[p];
    assert ProcessOk(s, x);
    match x.cells[a]
    case Own(_) =>
      var y := x.(cells := x.cells[a := Own(b)]);
      MemoryKeeps(s, p, y);
    case At(o, f) =>
      UnregisteredKeeps(s, o, s.objects[o].(bytes := s.objects[o].bytes[f := b]));
  }

  lemma StepKeeps(s: System, page: nat, step: Step)
    requires Inv(s) && page > 0 && Allowed(s, step) && Defined(s, step)
    ensures Inv(Apply(s, page, step))
  {
    hide Inv, FdMap, FdUnmap, Fork, Exit, Store;
    match step
    case Create(o) => CreateKeeps(s, o);
    case SetLen(o, size) =>
      if MayResize(s.objects[o], size) {
        UnregisteredKeeps(s, o, s.objects[o].(bytes := Resized(s.objects[o].bytes, size)));
      }
    case WriteFile(o, offset, data) =>
      UnregisteredKeeps(s, o, s.objects[o].(bytes := Written(s.objects[o].bytes, offset, data)));
    case Spawn(p, size) => SpawnKeeps(s, p, Process(seq(size, i => Own(0)), 0, [], 0, true));
    case Map(p, address, len, fileOffset, env) => MapKeeps(s, page, p, address, len, fileOffset, env);
    case Unmap(p, address, len, mmapOk) => UnmapKeeps(s, page, p, address, len, mmapOk);
    case StoreByte(p, a, b) => StoreKeeps(s, p, a, b);
    case Grow(p, more, moves) => GrowKeeps(s, p, more);
    case ForkTo(p, c, restored) => ForkKeeps(s, p, c, restored);
    case End(p) => ExitKeeps(s, p);
  }

  lemma {:induction false} RunKeeps(run: seq<System>, page: nat, steps: seq<Step>, n: nat)
    requires IsRun(run, page, steps) && n < |run|
    ensures Inv(run[n])
    decreases n
  {
    if n > 0 {
      RunKeeps(run, page, steps, n - 1);
      assert Follows(run[n - 1], page, steps[n - 1], run[n - 1 + 1]);
      StepKeeps(run[n - 1], page, steps[n - 1]);
    }
  }

  // ----- theorems

  /** In every run, a process's mappings stay page-aligned, non-empty, inside its memory and pairwise disjoint. */
  lemma MappingsStayApart(run: seq<System>, page: nat, steps: seq<Step>, n: nat, p: Pid)
    requires IsRun(run, page, steps) && n < |run| && p in run[n].processes
    ensures Disjoint(run[n].processes[p].mappings)
    ensures forall i :: 0 <= i < |run[n].processes[p].mappings| ==>
              && Aligned(run[n].processes[p].mappings[i])
              && run[n].processes[p].mappings[i].address + run[n].processes[p].mappings[i].len
                   <= |run[n].processes[p].cells|
  {
    RunKeeps(run, page, steps, n);
    Sound(run[n], p);
  }

  /**
   In every run, the ranges registered with an object are exactly those of the
   live mappings to it, one each, and all of them are inside it.
   */
  lemma RegistrationsAreLiveMappings(run: seq<System>, page: nat, steps: seq<Step>, n: nat)
    requires IsRun(run, page, steps) && n < |run|
    ensures forall o: ObjectId, id: nat :: (o in run[n].objects && id in run[n].objects[o].registered)
                                           <==> exists p: Pid, i: nat :: Holds(run[n], p, i, o, id)
    ensures forall p: Pid, i: nat, o: ObjectId, id: nat :: Holds(run[n], p, i, o, id) ==>
              && o in run[n].objects && id in run[n].objects[o].registered
              && run[n].objects[o].registered[id]
                 == Extent(run[n].processes[p].mappings[i].fileOffset,
                           run[n].processes[p].mappings[i].fileOffset + run[n].processes[p].mappings[i].len)
              && run[n].objects[o].registered[id].end <= |run[n].objects[o].bytes|
    ensures HeldOnce(run[n])
  {
    RunKeeps(run, page, steps, n);
    hide Aligned, Agrees;
    var s := run[n];
    forall p: Pid, i: nat, o: ObjectId, id: nat | Holds(s, p, i, o, id)
      ensures o in s.objects && id in s.objects[o].registered
      ensures s.objects[o].registered[id]
              == Extent(s.processes[p].mappings[i].fileOffset,
                        s.processes[p].mappings[i].fileOffset + s.processes[p].mappings[i].len)
      ensures s.objects[o].registered[id].end <= |s.objects[o].bytes|
    {
      assert ProcessOk(s, s.processes[p]) && MappingOk(s, s.processes[p], s.processes[p].mappings[i]);
      assert ObjectOk(s.objects[o]);
    }
  }

  /** A refused `fd_map` leaves every process, every registration and every byte as it was. */
  lemma RefusedMapLeavesNothing(run: seq<System>, page: nat, steps: seq<Step>, n: nat,
                                p: Pid, address: nat, len: nat, fileOffset: nat, env: Env)
    requires IsRun(run, page, steps) && n < |run| && Runs(run[n], p)
    requires env.obj.Success? ==> env.obj.value in run[n].objects
    requires FdMap(run[n], page, p, address, len, fileOffset, env).1.Some?
    ensures var t := FdMap(run[n], page, p, address, len, fileOffset, env).0;
            && t.processes == run[n].processes && t.objects.Keys == run[n].objects.Keys
            && forall o :: o in t.objects ==>
                 && t.objects[o].registered == run[n].objects[o].registered
                 && t.objects[o].bytes == run[n].objects[o].bytes
  {
    RunKeeps(run, page, steps, n);
    var s := run[n];
    if MapRefusal(address, len, fileOffset, env).None? {
      var o := env.obj.value;
      FreshId(s, o);
      hide Inv, MapInto;
      MapIntoRefuses(s.processes[p], o, s.objects[o], page, address, len, fileOffset, env.cloneOk, env.mmapOk);
    }
  }

  /** In every run, forking any running process clones all its mappings: the panic is out of reach. */
  lemma ForkNeverPanics(run: seq<System>, page: nat, steps: seq<Step>, n: nat, p: Pid, c: Pid)
    requires IsRun(run, page, steps) && n < |run| && Runs(run[n], p) && c !in run[n].processes
    ensures Allowed(run[n], ForkTo(p, c, 0)) && Defined(run[n], ForkTo(p, c, 0))
    ensures Clones(run[n], p, c).Some?
  {
    RunKeeps(run, page, steps, n);
    AllowedIsDefined(run[n], ForkTo(p, c, 0));
    ForkClones(run[n], p, c);
  }

  /** In every run, a grow that would move the memory is refused exactly when a mapping exists. */
  lemma MovingGrowRefusedExactly(run: seq<System>, page: nat, steps: seq<Step>, n: nat, p: Pid)
    requires IsRun(run, page, steps) && n < |run| && Runs(run[n], p)
    ensures run[n].processes[p].overlayCount == |run[n].processes[p].mappings|
    ensures GrowRefused(run[n].processes[p], true) <==> run[n].processes[p].mappings != []
  {
    RunKeeps(run, page, steps, n);
    assert ProcessOk(run[n], run[n].processes[p]);
  }

  // ----- futex identity

  /** The four bytes at `a`. */
  function Word(s: System, p: Pid, a: nat): (word: seq<Cell>)
    requires p in s.processes && a + 4 <= |s.processes[p].cells|
    ensures |word| == 4
  {
    s.processes[p].cells[a..a + 4]
  }

  function ObjectWord(o: ObjectId, f: nat): seq<Cell> {
    [At(o, f), At(o, f + 1), At(o, f + 2), At(o, f + 3)]
  }

  ghost predicate OwnWord(word: seq<Cell>) {
    forall i :: 0 <= i < |word| ==> word[i].Own?
  }

  /** The same word of one process's own memory, or four bytes of an object that both map. */
  ghost predicate SameWord(s: System, p: Pid, a: nat, q: Pid, b: nat)
    requires p in s.processes && q in s.processes
    requires a + 4 <= |s.processes[p].cells| && b + 4 <= |s.processes[q].cells|
  {
    || (p == q && a == b && OwnWord(Word(s, p, a)))
    || (Word(s, p, a) == Word(s, q, b) && forall i :: 0 <= i < 4 ==> Word(s, p, a)[i].At?)
  }

  /** A mapping that holds one byte of an aligned word holds all of it. */
  lemma WordInside(m: Mapping, a: nat, d: nat)
    requires Aligned(m) && InMapping(m, a + d) && a % 4 == 0 && d < 4
    ensures m.address <= a && a + 4 <= m.address + m.len
  {
    var j, k, l := a / 4, m.address / WASM_PAGE, m.len / WASM_PAGE;
    assert a == 4 * j && m.address == 4 * (16384 * k) && m.address + m.len == 4 * (16384 * (k + l));
  }

  lemma MappedWord(cells: seq<Cell>, ms: seq<Mapping>, k: nat, a: nat)
    requires Agrees(cells, ms) && k < |ms| && a + 4 <= |cells|
    requires ms[k].address <= a && a + 4 <= ms[k].address + ms[k].len
    ensures cells[a..a + 4] == ObjectWord(ms[k].obj, ms[k].fileOffset + (a - ms[k].address))
  {
    assert InMapping(ms[k], a) && InMapping(ms[k], a + 1) && InMapping(ms[k], a + 2) && InMapping(ms[k], a + 3);
  }

  lemma PrivateWord(cells: seq<Cell>, ms: seq<Mapping>, a: nat)
    requires Agrees(cells, ms) && a % 4 == 0 && a + 4 <= |cells|
    requires forall i :: 0 <= i < |ms| ==> Aligned(ms[i])
    requires FindWord(ms, a) == |ms|
    ensures OwnWord(cells[a..a + 4])
  {
    var word := cells[a..a + 4];
    forall d | 0 <= d < |word|
      ensures word[d].Own?
    {
      assert word[d] == cells[a + d];
      if cells[a + d].At? {
        var i :| 0 <= i < |ms| && InMapping(ms[i], a + d);
        WordInside(ms[i], a, d);
        assert false;
      }
    }
  }

  /** `futex_owner` follows the bytes of the word. */
  lemma IdentityFollowsBytes(s: System, p: Pid, a: nat)
    requires Inv(s) && Runs(s, p) && a % 4 == 0 && a + 4 <= |s.processes[p].cells|
    ensures var id := FutexIdentity(s, p, a);
            if id.0.Private? then id == (Private(p), a) && OwnWord(Word(s, p, a))
            else Word(s, p, a) == ObjectWord(id.0.obj, id.1)
  {
    hide Inv, Agrees, Aligned, MappingOk, Disjoint;
    var x := s.processes[p];
    Sound(s, p);
    var k := FindWord(x.mappings, a);
    if k < |x.mappings| {
      MappedWord(x.cells, x.mappings, k, a);
    } else {
      PrivateWord(x.cells, x.mappings, a);
    }
  }

  /**
   In every run, two aligned words of any two running processes have one
   identity exactly when they are the same word of an object or the same
   private word.
   */
  lemma IdentityIsTheWord(run: seq<System>, page: nat, steps: seq<Step>, n: nat, p: Pid, a: nat, q: Pid, b: nat)
    requires IsRun(run, page, steps) && n < |run| && Runs(run[n], p) && Runs(run[n], q)
    requires a % 4 == 0 && a + 4 <= |run[n].processes[p].cells|
    requires b % 4 == 0 && b + 4 <= |run[n].processes[q].cells|
    ensures FutexIdentity(run[n], p, a) == FutexIdentity(run[n], q, b) <==> SameWord(run[n], p, a, q, b)
  {
    RunKeeps(run, page, steps, n);
    var s := run[n];
    hide Inv, FutexIdentity, IsRun, Word;
    IdentityFollowsBytes(s, p, a);
    IdentityFollowsBytes(s, q, b);
    SameIdentityExactly(s, p, a, q, b);
  }

  lemma SameIdentityExactly(s: System, p: Pid, a: nat, q: Pid, b: nat)
    requires p in s.processes && q in s.processes
    requires a + 4 <= |s.processes[p].cells| && b + 4 <= |s.processes[q].cells|
    requires var id := FutexIdentity(s, p, a);
             if id.0.Private? then id == (Private(p), a) && OwnWord(Word(s, p, a))
             else Word(s, p, a) == ObjectWord(id.0.obj, id.1)
    requires var id := FutexIdentity(s, q, b);
             if id.0.Private? then id == (Private(q), b) && OwnWord(Word(s, q, b))
             else Word(s, q, b) == ObjectWord(id.0.obj, id.1)
    ensures FutexIdentity(s, p, a) == FutexIdentity(s, q, b) <==> SameWord(s, p, a, q, b)
  {
    hide FutexIdentity, Word;
    var v, w := FutexIdentity(s, p, a), FutexIdentity(s, q, b);
    if v.0.Shared? {
      assert Word(s, p, a)[0] == At(v.0.obj, v.1);
      assert forall i :: 0 <= i < 4 ==> ObjectWord(v.0.obj, v.1)[i].At?;
    } else {
      assert Word(s, p, a)[0].Own?;
    }
    if w.0.Shared? {
      assert Word(s, q, b)[0] == At(w.0.obj, w.1);
    } else {
      assert Word(s, q, b)[0].Own?;
    }
  }

  /** At most one mapping of a list holds a given word. */
  lemma OneHoldsTheWord(ms: seq<Mapping>, i: nat, j: nat, a: nat)
    requires Disjoint(ms) && i < |ms| && j < |ms|
    requires ms[i].address <= a && a + 4 <= ms[i].address + ms[i].len
    requires ms[j].address <= a && a + 4 <= ms[j].address + ms[j].len
    ensures i == j
  {
  }

  lemma FoundInEitherOrder(ms: seq<Mapping>, shuffled: seq<Mapping>, a: nat)
    requires Disjoint(ms) && multiset(shuffled) == multiset(ms)
    ensures FindWord(ms, a) < |ms| <==> FindWord(shuffled, a) < |shuffled|
    ensures FindWord(ms, a) < |ms| ==> ms[FindWord(ms, a)] == shuffled[FindWord(shuffled, a)]
  {
    var k, j := FindWord(ms, a), FindWord(shuffled, a);
    hide Disjoint;
    if k < |ms| {
      assert ms[k] in multiset(shuffled);
    }
    if j < |shuffled| {
      assert shuffled[j] in multiset(ms);
      var i :| 0 <= i < |ms| && ms[i] == shuffled[j];
      OneHoldsTheWord(ms, i, k, a);
    }
  }

  /** The lookup does not depend on the order that `swap_remove` leaves the list in. */
  lemma OrderDoesNotMatter(run: seq<System>, page: nat, steps: seq<Step>, n: nat, p: Pid, a: nat, shuffled: seq<Mapping>)
    requires IsRun(run, page, steps) && n < |run| && p in run[n].processes
    requires multiset(shuffled) == multiset(run[n].processes[p].mappings)
    ensures FutexIdentity(Put(run[n], p, run[n].processes[p].(mappings := shuffled)), p, a) == FutexIdentity(run[n], p, a)
  {
    hide Inv, Disjoint, IsRun, MappingOk, Agrees, Aligned;
    RunKeeps(run, page, steps, n);
    Sound(run[n], p);
    FoundInEitherOrder(run[n].processes[p].mappings, shuffled, a);
    assert |shuffled| == |multiset(shuffled)|;
  }

  // ----- bytes

  /** Two places are one place: the same byte of the same memory, or of the same object. */
  ghost predicate SamePlace(s: System, p: Pid, a: nat, q: Pid, b: nat)
    requires p in s.processes && q in s.processes && a < |s.processes[p].cells| && b < |s.processes[q].cells|
  {
    (p == q && a == b) || (s.processes[p].cells[a].At? && s.processes[p].cells[a] == s.processes[q].cells[b])
  }

  /** In every run, a mapped address reads the object's byte at the mapping's offset. */
  lemma MappedBytesAreTheObject(run: seq<System>, page: nat, steps: seq<Step>, n: nat, p: Pid, i: nat, a: nat)
    requires IsRun(run, page, steps) && n < |run| && Runs(run[n], p)
    requires i < |run[n].processes[p].mappings| && InMapping(run[n].processes[p].mappings[i], a)
    ensures a < |run[n].processes[p].cells| && Readable(run[n], p)
    ensures var m := run[n].processes[p].mappings[i];
            && m.obj in run[n].objects
            && m.fileOffset + (a - m.address) < |run[n].objects[m.obj].bytes|
            && Load(run[n], p, a) == run[n].objects[m.obj].bytes[m.fileOffset + (a - m.address)]
  {
    RunKeeps(run, page, steps, n);
    RunningReadable(run[n], p);
    var x := run[n].processes[p];
    assert ProcessOk(run[n], x) && MappingOk(run[n], x, x.mappings[i]) && ObjectOk(run[n].objects[x.mappings[i].obj]);
  }

  /** In every run, a store is seen at every place that is the same place, in any process, and nowhere else. */
  lemma StoresAreShared(run: seq<System>, page: nat, steps: seq<Step>, n: nat, p: Pid, a: nat, b: Byte, q: Pid, c: nat)
    requires IsRun(run, page, steps) && n < |run| && Runs(run[n], p) && Runs(run[n], q)
    requires a < |run[n].processes[p].cells| && c < |run[n].processes[q].cells|
    ensures Readable(run[n], p) && Readable(run[n], q)
    ensures var t := Store(run[n], p, a, b);
            && q in t.processes && c < |t.processes[q].cells| && Readable(t, q)
            && Load(t, q, c) == if SamePlace(run[n], p, a, q, c) then b else Load(run[n], q, c)
  {
    RunKeeps(run, page, steps, n);
    RunningReadable(run[n], p);
    RunningReadable(run[n], q);
  }

  /**
   In every run, a forked child whose overlays are restored runs with the
   parent's mappings and reads what the parent reads; its private bytes are its
   own and its mapped bytes are the parent's. The parent is left as it was.
   */
  lemma ForkedChildIsTheParent(run: seq<System>, page: nat, steps: seq<Step>, n: nat, p: Pid, c: Pid, restored: nat)
    requires IsRun(run, page, steps) && n < |run| && Runs(run[n], p) && c !in run[n].processes
    ensures Allowed(run[n], ForkTo(p, c, restored)) && Defined(run[n], ForkTo(p, c, restored))
    ensures var s := run[n]; var t := Fork(s, p, c, restored);
            && c in t.processes && p in t.processes && t.processes[p] == s.processes[p]
            && (t.processes[c].running <==> restored >= |s.processes[p].mappings|)
            && SameMappings(t.processes[c].mappings, s.processes[p].mappings)
            && |t.processes[c].cells| == |s.processes[p].cells|
    ensures restored >= |run[n].processes[p].mappings| ==>
              var s := run[n]; var t := Fork(s, p, c, restored);
              forall a :: 0 <= a < |s.processes[p].cells| ==>
                t.processes[c].cells[a]
                == if s.processes[p].cells[a].At? then s.processes[p].cells[a] else Own(Load(s, p, a))
  {
    RunKeeps(run, page, steps, n);
    var s := run[n];
    AllowedIsDefined(s, ForkTo(p, c, restored));
    ForkClones(s, p, c);
    var u := Clones(s, p, c).value;
    var y := u.processes[c];
    hide Inv;
    Sound(s, p);
    Sound(u, c);
    if restored >= |s.processes[p].mappings| {
      ReplayAgrees(y, |y.mappings|);
      assert y.mappings[..|y.mappings|] == y.mappings;
      hide ProcessOk, Agrees, SameMappings;
      forall a | 0 <= a < |s.processes[p].cells|
        ensures Replay(y, |y.mappings|).cells[a]
                == if s.processes[p].cells[a].At? then s.processes[p].cells[a] else Own(Load(s, p, a))
      {
        ReplayLeavesOwn(y, |y.mappings|, a);
        SameCell(s.processes[p].cells, s.processes[p].mappings, Replay(y, |y.mappings|).cells, y.mappings, a);
      }
    }
  }

  /** Memories that agree with the same mappings share the same bytes. */
  lemma SameCell(cells: seq<Cell>, ms: seq<Mapping>, other: seq<Cell>, others: seq<Mapping>, a: nat)
    requires Agrees(cells, ms) && Agrees(other, others) && SameMappings(others, ms)
    requires a < |cells| == |other|
    ensures cells[a].At? <==> other[a].At?
    ensures cells[a].At? ==> other[a] == cells[a]
  {
    if cells[a].At? {
      var i :| 0 <= i < |ms| && InMapping(ms[i], a);
      assert InMapping(others[i], a);
    } else if other[a].At? {
      var i :| 0 <= i < |others| && InMapping(others[i], a);
      assert InMapping(ms[i], a);
      assert false;
    }
  }
}
