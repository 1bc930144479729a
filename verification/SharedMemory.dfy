/**
 Shared memory between virtual processes: linear memories with file overlays,
 the objects they map, and the calls that map, unmap and fork. Each call is
 one step.
 */
module SharedMemory {
  import opened Wrappers

  type Byte = b: int | 0 <= b < 256
  type Pid = nat
  type ObjectId = nat

  const WASM_PAGE: nat := 65536
  const U64_LIMIT: nat := 0x1_0000_0000_0000_0000

  datatype Errno = Inval | Overflow | Fault | Exist | Io | Badf | Access | Nodev

  /** One byte of a linear memory: the process's own, or a byte of an object. */
  datatype Cell = Own(value: Byte) | At(obj: ObjectId, offset: nat)

  /** A registered range of an object. */
  datatype Extent = Extent(start: nat, end: nat)

  datatype Object = Object(bytes: seq<Byte>, nextMapping: nat, registered: map<nat, Extent>)

  datatype Mapping = Mapping(obj: ObjectId, id: nat, address: nat, len: nat, fileOffset: nat)

  /**
   A process: its memory, the memory's count of overlays, and its mapping list
   with the count that the futex path looks at. A forked child runs once its
   overlays are restored.
   */
  datatype Process = Process(
    cells: seq<Cell>,
    overlayCount: nat,
    mappings: seq<Mapping>,
    count: nat,
    running: bool)

  datatype System = System(objects: map<ObjectId, Object>, processes: map<Pid, Process>)

  // ----- linear memory (the first patch)

  /** `validate_overlay_range`, on a memory of `size` bytes and host pages of `page`. */
  predicate ValidRange(size: nat, page: nat, start: nat, len: nat, fileOffset: nat)
    requires page > 0
  {
    len != 0 && start % page == 0 && len % page == 0 && fileOffset % page == 0 && start + len <= size
  }

  function Overlaid(cells: seq<Cell>, start: nat, len: nat, obj: ObjectId, fileOffset: nat): (r: seq<Cell>)
    ensures |r| == |cells|
  {
    seq(|cells|, i requires 0 <= i < |cells| =>
      if start <= i < start + len then At(obj, fileOffset + (i - start)) else cells[i])
  }

  function Restored(cells: seq<Cell>, start: nat, len: nat): (r: seq<Cell>)
    ensures |r| == |cells|
  {
    seq(|cells|, i requires 0 <= i < |cells| => if start <= i < start + len then Own(0) else cells[i])
  }

  // ----- objects (the second patch)

  /** Registering a range: refused when empty or beyond the object. */
  function Register(o: Object, fileOffset: nat, len: nat): Result<(Object, nat), Errno> {
    if fileOffset + len >= U64_LIMIT then Failure(Overflow)
    else if len == 0 || fileOffset + len > |o.bytes| then Failure(Inval)
    else Success((o.(nextMapping := o.nextMapping + 1,
                     registered := o.registered[o.nextMapping := Extent(fileOffset, fileOffset + len)]),
                  o.nextMapping))
  }

  function Unregister(o: Object, id: nat): Object {
    o.(registered := o.registered - {id})
  }

  /** A new length is refused while a registered range would not fit. */
  predicate MayResize(o: Object, size: nat) {
    forall id :: id in o.registered ==> o.registered[id].end <= size
  }

  function Resized(bytes: seq<Byte>, size: nat): (r: seq<Byte>)
    ensures |r| == size
  {
    if size <= |bytes| then bytes[..size] else bytes + seq(size - |bytes|, i => 0)
  }

  // ----- the mapping list

  predicate InMapping(m: Mapping, a: nat) {
    m.address <= a < m.address + m.len
  }

  predicate Overlaps(m: Mapping, address: nat, end: nat) {
    address < m.address + m.len && m.address < end
  }

  function SwapRemove(ms: seq<Mapping>, i: nat): seq<Mapping>
    requires i < |ms|
  {
    ms[i := ms[|ms| - 1]][..|ms| - 1]
  }

  /** The index of the mapping with exactly this range, if there is one. */
  function Position(ms: seq<Mapping>, address: nat, len: nat): (k: nat)
    ensures k <= |ms|
    ensures k < |ms| ==> ms[k].address == address && ms[k].len == len
    ensures forall i :: 0 <= i < k ==> !(ms[i].address == address && ms[i].len == len)
  {
    if ms == [] || (ms[0].address == address && ms[0].len == len) then 0 else 1 + Position(ms[1..], address, len)
  }

  // ----- calls

  /** What the environment makes of a call: the descriptor, and the two system calls. */
  datatype Env = Env(obj: Result<ObjectId, Errno>, cloneOk: bool, mmapOk: bool)

  function Put(s: System, p: Pid, x: Process): System {
    s.(processes := s.processes[p := x])
  }

  function PutObject(s: System, o: ObjectId, x: Object): System {
    s.(objects := s.objects[o := x])
  }

  /** Checks before the mapping list is locked. */
  function MapRefusal(address: nat, len: nat, fileOffset: nat, env: Env): Option<Errno> {
    if len == 0 || address % WASM_PAGE != 0 || len % WASM_PAGE != 0 || fileOffset % WASM_PAGE != 0 then Some(Inval)
    else if address + len >= U64_LIMIT then Some(Overflow)
    else match env.obj case Success(_) => None case Failure(e) => Some(e)
  }

  /**
   `fd_map` on the process and the object it names. A registration whose
   mapping is dropped on the way out is undone; its number stays spent.
   */
  function MapInto(x: Process, o: ObjectId, target: Object, page: nat, address: nat, len: nat, fileOffset: nat,
                   cloneOk: bool, mmapOk: bool): (r: (Process, Object, Option<Errno>))
    requires page > 0
  {
    if exists i :: 0 <= i < |x.mappings| && Overlaps(x.mappings[i], address, address + len) then
      (x, target, Some(Exist))
    else match Register(target, fileOffset, len)
      case Failure(e) => (x, target, Some(e))
      case Success((registered, id)) =>
        if !cloneOk then (x, Unregister(registered, id), Some(Io))
        else if !ValidRange(|x.cells|, page, address, len, fileOffset) || !mmapOk then
          (x, Unregister(registered, id), Some(Inval))
        else
          (x.(cells := Overlaid(x.cells, address, len, o, fileOffset),
              overlayCount := x.overlayCount + 1,
              mappings := x.mappings + [Mapping(o, id, address, len, fileOffset)],
              count := |x.mappings| + 1),
           registered, None)
  }

  /** `fd_map`: the new state and the error, if any. */
  function FdMap(s: System, page: nat, p: Pid, address: nat, len: nat, fileOffset: nat, env: Env): (System, Option<Errno>)
    requires page > 0 && p in s.processes
    requires env.obj.Success? ==> env.obj.value in s.objects
  {
    var refusal := MapRefusal(address, len, fileOffset, env);
    if refusal.Some? then (s, refusal)
    else
      var o := env.obj.value;
      var r := MapInto(s.processes[p], o, s.objects[o], page, address, len, fileOffset, env.cloneOk, env.mmapOk);
      (Put(PutObject(s, o, r.1), p, r.0), r.2)
  }

  /** `fd_unmap` on the process: only a whole mapping goes, named by its exact range. */
  function UnmapFrom(x: Process, page: nat, address: nat, len: nat, mmapOk: bool): (r: (Process, Result<Mapping, Errno>))
    requires page > 0
  {
    if len == 0 || address % WASM_PAGE != 0 || len % WASM_PAGE != 0 then (x, Failure(Inval))
    else
      var k := Position(x.mappings, address, len);
      if k == |x.mappings| then (x, Failure(Inval))
      else if !ValidRange(|x.cells|, page, address, len, 0) || !mmapOk then (x, Failure(Inval))
      else
        (x.(cells := Restored(x.cells, address, len),
            overlayCount := if x.overlayCount == 0 then 0 else x.overlayCount - 1,
            mappings := SwapRemove(x.mappings, k),
            count := |x.mappings| - 1),
         Success(x.mappings[k]))
  }

  /** `fd_unmap`: the mapping taken from the list is dropped, which unregisters it. */
  function FdUnmap(s: System, page: nat, p: Pid, address: nat, len: nat, mmapOk: bool): (System, Option<Errno>)
    requires page > 0 && p in s.processes
    requires forall i :: 0 <= i < |s.processes[p].mappings| ==> s.processes[p].mappings[i].obj in s.objects
  {
    match UnmapFrom(s.processes[p], page, address, len, mmapOk)
    case (_, Failure(e)) => (s, Some(e))
    case (x, Success(m)) => (Put(PutObject(s, m.obj, Unregister(s.objects[m.obj], m.id)), p, x), None)
  }

  /** The byte a process reads. */
  function Load(s: System, p: Pid, a: nat): Byte
    requires p in s.processes && a < |s.processes[p].cells|
    requires s.processes[p].cells[a].At? ==>
               s.processes[p].cells[a].obj in s.objects
               && s.processes[p].cells[a].offset < |s.objects[s.processes[p].cells[a].obj].bytes|
  {
    match s.processes[p].cells[a]
    case Own(b) => b
    case At(o, f) => s.objects[o].bytes[f]
  }

  function Store(s: System, p: Pid, a: nat, b: Byte): System
    requires p in s.processes && a < |s.processes[p].cells|
    requires s.processes[p].cells[a].At? ==>
               s.processes[p].cells[a].obj in s.objects
               && s.processes[p].cells[a].offset < |s.objects[s.processes[p].cells[a].obj].bytes|
  {
    var x := s.processes[p];
    match x.cells[a]
    case Own(_) => Put(s, p, x.(cells := x.cells[a := Own(b)]))
    case At(o, f) => PutObject(s, o, s.objects[o].(bytes := s.objects[o].bytes[f := b]))
  }

  // ----- fork

  ghost predicate Readable(s: System, p: Pid)
    requires p in s.processes
  {
    forall a :: 0 <= a < |s.processes[p].cells| && s.processes[p].cells[a].At? ==>
      && s.processes[p].cells[a].obj in s.objects
      && s.processes[p].cells[a].offset < |s.objects[s.processes[p].cells[a].obj].bytes|
  }

  /** A byte-for-byte copy of what the process reads, with no overlay in it. */
  function Copied(s: System, p: Pid): (r: seq<Cell>)
    requires p in s.processes && Readable(s, p)
    ensures |r| == |s.processes[p].cells|
  {
    seq(|s.processes[p].cells|, a requires 0 <= a < |s.processes[p].cells| => Own(Load(s, p, a)))
  }

  /** `fork_clone` of one mapping into the child; `None` where `expect` would panic. */
  function CloneMapping(s: System, c: Pid, m: Mapping): Option<System>
    requires c in s.processes && m.obj in s.objects
  {
    match Register(s.objects[m.obj], m.fileOffset, m.len)
    case Failure(_) => None
    case Success((registered, id)) =>
      var y := s.processes[c];
      Some(Put(PutObject(s, m.obj, registered), c,
               y.(mappings := y.mappings + [m.(id := id)], count := |y.mappings| + 1)))
  }

  /** Cloning a list of mappings into the child, in order. */
  function CloneMappings(s: System, c: Pid, ms: seq<Mapping>): (r: Option<System>)
    requires c in s.processes && forall i :: 0 <= i < |ms| ==> ms[i].obj in s.objects
    ensures r.Some? ==> c in r.value.processes && r.value.objects.Keys == s.objects.Keys
  {
    if ms == [] then Some(s)
    else match CloneMappings(s, c, ms[..|ms| - 1])
      case None => None
      case Some(t) => CloneMapping(t, c, ms[|ms| - 1])
  }

  /** Restoring one overlay in the child. */
  function ReplayOne(y: Process, m: Mapping): Process {
    y.(cells := Overlaid(y.cells, m.address, m.len, m.obj, m.fileOffset), overlayCount := y.overlayCount + 1)
  }

  /** Restoring the first `k`. */
  function Replay(y: Process, k: nat): (r: Process)
    requires k <= |y.mappings|
    ensures r == y.(cells := r.cells, overlayCount := y.overlayCount + k) && |r.cells| == |y.cells|
  {
    if k == 0 then y else ReplayOne(Replay(y, k - 1), y.mappings[k - 1])
  }

  /** The child as `proc_fork` first makes it: the copied memory and no mapping. */
  function Unmapped(s: System, p: Pid): Process
    requires p in s.processes && Readable(s, p)
  {
    Process(Copied(s, p), 0, [], 0, false)
  }

  /**
   `proc_fork`. The child runs only if the environment lets every overlay be
   restored; `restored` is how many it lets through. A panic changes nothing.
   */
  function Fork(s: System, p: Pid, c: Pid, restored: nat): System
    requires p in s.processes && Readable(s, p)
    requires forall i :: 0 <= i < |s.processes[p].mappings| ==> s.processes[p].mappings[i].obj in s.objects
  {
    match CloneMappings(Put(s, c, Unmapped(s, p)), c, s.processes[p].mappings)
    case None => s
    case Some(t) =>
      var y := t.processes[c];
      var k := if restored < |y.mappings| then restored else |y.mappings|;
      Put(t, c, Replay(y, k).(running := k == |y.mappings|))
  }

  /** A process that ends drops every mapping it lists. */
  function Exit(s: System, p: Pid): System
    requires p in s.processes
    requires forall i :: 0 <= i < |s.processes[p].mappings| ==> s.processes[p].mappings[i].obj in s.objects
    decreases |s.processes[p].mappings|
  {
    var x := s.processes[p];
    var n := |x.mappings|;
    if n == 0 then s.(processes := s.processes - {p})
    else
      var m := x.mappings[n - 1];
      Exit(Put(PutObject(s, m.obj, Unregister(s.objects[m.obj], m.id)), p,
               x.(mappings := x.mappings[..n - 1], count := n - 1, running := false)), p)
  }

  // ----- futexes

  datatype FutexOwner = Private(process: Pid) | Shared(obj: ObjectId)

  /** The first mapping holding all four bytes at `a`. */
  function FindWord(ms: seq<Mapping>, a: nat): (k: nat)
    ensures k <= |ms|
    ensures k < |ms| ==> ms[k].address <= a && a + 4 <= ms[k].address + ms[k].len
    ensures forall i :: 0 <= i < k ==> !(ms[i].address <= a && a + 4 <= ms[i].address + ms[i].len)
  {
    if ms == [] || (ms[0].address <= a && a + 4 <= ms[0].address + ms[0].len) then 0 else 1 + FindWord(ms[1..], a)
  }

  /** `futex_owner`: whose queue a word's waiters are in, and under which number. */
  function FutexIdentity(s: System, p: Pid, a: nat): (FutexOwner, nat)
    requires p in s.processes
  {
    var x := s.processes[p];
    if x.count == 0 then (Private(p), a)
    else
      var k := FindWord(x.mappings, a);
      if k == |x.mappings| then (Private(p), a)
      else (Shared(x.mappings[k].obj), x.mappings[k].fileOffset + (a - x.mappings[k].address))
  }

  // ----- growing

  /** A grow that has to move the allocation is refused while overlays exist. */
  predicate GrowRefused(x: Process, moves: bool) {
    moves && x.overlayCount > 0
  }

  // ----- what every state keeps

  predicate Aligned(m: Mapping) {
    m.len > 0 && m.address % WASM_PAGE == 0 && m.len % WASM_PAGE == 0 && m.fileOffset % WASM_PAGE == 0
  }

  ghost predicate MappingOk(s: System, x: Process, m: Mapping) {
    && Aligned(m)
    && m.address + m.len <= |x.cells|
    && m.obj in s.objects
    && m.id in s.objects[m.obj].registered
    && s.objects[m.obj].registered[m.id] == Extent(m.fileOffset, m.fileOffset + m.len)
  }

  ghost predicate Disjoint(ms: seq<Mapping>) {
    forall i, j :: 0 <= i < j < |ms| ==> !Overlaps(ms[i], ms[j].address, ms[j].address + ms[j].len)
  }

  /** The memory's bytes are the objects' where a mapping says so, and its own elsewhere. */
  ghost predicate Agrees(cells: seq<Cell>, ms: seq<Mapping>) {
    && (forall i, a :: 0 <= i < |ms| && 0 <= a < |cells| && InMapping(ms[i], a) ==>
          cells[a] == At(ms[i].obj, ms[i].fileOffset + (a - ms[i].address)))
    && (forall a :: 0 <= a < |cells| && cells[a].At? ==> exists i :: 0 <= i < |ms| && InMapping(ms[i], a))
  }

  ghost predicate ProcessOk(s: System, x: Process) {
    && x.count == |x.mappings|
    && (forall i :: 0 <= i < |x.mappings| ==> MappingOk(s, x, x.mappings[i]))
    && Disjoint(x.mappings)
    && (x.running ==> x.overlayCount == |x.mappings| && Agrees(x.cells, x.mappings))
  }

  ghost predicate ObjectOk(x: Object) {
    forall id :: id in x.registered ==>
      id < x.nextMapping && x.registered[id].end <= |x.bytes| && x.registered[id].end < U64_LIMIT
  }

  /** Entry `i` of process `p`'s list is the mapping registered under `id`. */
  predicate Holds(s: System, p: Pid, i: nat, o: ObjectId, id: nat) {
    && p in s.processes && i < |s.processes[p].mappings|
    && s.processes[p].mappings[i].obj == o && s.processes[p].mappings[i].id == id
  }

  /** A registered range is that of a live mapping. */
  ghost predicate Held(s: System) {
    forall o, id :: o in s.objects && id in s.objects[o].registered ==> exists p, i :: Holds(s, p, i, o, id)
  }

  /** And of one only. */
  ghost predicate HeldOnce(s: System) {
    forall p, i, q, j, o, id :: Holds(s, p, i, o, id) && Holds(s, q, j, o, id) ==> p == q && i == j
  }

  ghost predicate Inv(s: System) {
    && (forall o :: o in s.objects ==> ObjectOk(s.objects[o]))
    && (forall p :: p in s.processes ==> ProcessOk(s, s.processes[p]))
    && Held(s) && HeldOnce(s)
  }
}
