/** `FsBlobStore::put`, step by step. */
module PutProtocol {
  // Any number of concurrent writers in any number of processes work over a
  // directory whose names point at inodes. A run may stop at any step; a process
  // may crash and another may take its pid.

  import opened Bits
  import opened Base
  import Cas

  const TWO64: int := 0x1_0000_0000_0000_0000

  /** Names inside a shard directory: `<hex>.zst` and `<hex>.tmp.<pid>.<counter>`. */
  datatype Name = Blob(d: Digest) | Temp(d: Digest, pid: nat, counter: nat)

  /** Where a thread stands inside `put`. */
  datatype Phase =
    | Checking(bytes: Bytes)
    | Drawing(bytes: Bytes)
    | Creating(bytes: Bytes, counter: nat)
    | Writing(bytes: Bytes, counter: nat, inode: nat, offset: nat)
    | Returned(bytes: Bytes)
    | Failed

  datatype Thread = Thread(handle: nat, phase: Phase)

  /** One open `FsBlobStore`: its process and the number of counter values it
      has drawn. The counter itself wraps at 64 bits. */
  datatype Handle = Handle(pid: nat, draws: nat)

  datatype State = State(
    dir: map<Name, nat>,
    data: map<nat, Bytes>,
    handles: map<nat, Handle>,
    threads: map<nat, Thread>)

  datatype Step =
    | Open(h: nat, pid: nat)
    | Crash(h: nat)
    | Call(t: nat, h: nat, bytes: Bytes)
    | Check(t: nat)
    | Draw(t: nat)
    | Create(t: nat, inode: nat)
    | Write(t: nat, n: nat)
    | Rename(t: nat)
    | Abort(t: nat)
    | RenameError(t: nat)

  /** Writing `chunk` at `offset` of a file, as `write(2)` does. */
  function WriteAt(file: Bytes, offset: nat, chunk: Bytes): Bytes {
    if |file| < offset then file + seq(offset - |file|, _ => 0 as byte) + chunk
    else file[..offset] + chunk + (if offset + |chunk| <= |file| then file[offset + |chunk|..] else [])
  }

  predicate Live(s: State, t: nat) { t in s.threads && s.threads[t].handle in s.handles }

  function TempName(p: Prim, s: State, t: nat): Name
    requires Live(s, t) && (s.threads[t].phase.Creating? || s.threads[t].phase.Writing?)
  {
    Temp(Of(p, s.threads[t].phase.bytes), s.handles[s.threads[t].handle].pid, s.threads[t].phase.counter)
  }

  function Goto(s: State, t: nat, phase: Phase): State
    requires t in s.threads
  {
    s.(threads := s.threads[t := s.threads[t].(phase := phase)])
  }

  predicate Enabled(p: Prim, s: State, e: Step) {
    match e
    case Open(h, _) => h !in s.handles
    case Crash(h) => h in s.handles
    case Call(t, h, _) =>
      && h in s.handles
      && (t in s.threads ==> s.threads[t].phase.Returned? || s.threads[t].phase.Failed?)
    case Check(t) => Live(s, t) && s.threads[t].phase.Checking?
    case Draw(t) => Live(s, t) && s.threads[t].phase.Drawing?
    case Create(t, inode) =>
      && Live(s, t) && s.threads[t].phase.Creating?
      && (TempName(p, s, t) in s.dir || inode !in s.data)
    case Write(t, n) =>
      && Live(s, t) && s.threads[t].phase.Writing?
      && s.threads[t].phase.inode in s.data
      && 0 < n && s.threads[t].phase.offset + n <= |p.zstd(s.threads[t].phase.bytes)|
    case Rename(t) =>
      && Live(s, t) && s.threads[t].phase.Writing?
      && s.threads[t].phase.offset == |p.zstd(s.threads[t].phase.bytes)|
    case RenameError(t) =>
      && Live(s, t) && s.threads[t].phase.Writing?
      && s.threads[t].phase.offset == |p.zstd(s.threads[t].phase.bytes)|
    case Abort(t) => Live(s, t) && (s.threads[t].phase.Creating? || s.threads[t].phase.Writing?)
  }

  function Next(p: Prim, s: State, e: Step): State
    requires Enabled(p, s, e)
  {
    match e
    case Open(h, pid) => s.(handles := s.handles[h := Handle(pid, 0)])
    case Crash(h) =>
      s.(handles := s.handles - {h},
         threads := map t | t in s.threads && s.threads[t].handle != h :: s.threads[t])
    case Call(t, h, bytes) => s.(threads := s.threads[t := Thread(h, Checking(bytes))])
    case Check(t) =>
      var bytes := s.threads[t].phase.bytes;
      Goto(s, t, if Blob(Of(p, bytes)) in s.dir then Returned(bytes) else Drawing(bytes))
    case Draw(t) =>
      var h := s.threads[t].handle;
      var draws := s.handles[h].draws + 1;
      Goto(s.(handles := s.handles[h := s.handles[h].(draws := draws)]), t,
           Creating(s.threads[t].phase.bytes, draws % TWO64))
    case Create(t, inode) =>
      var name := TempName(p, s, t);
      var i := if name in s.dir then s.dir[name] else inode;
      Goto(s.(dir := s.dir[name := i], data := s.data[i := []]), t,
           Writing(s.threads[t].phase.bytes, s.threads[t].phase.counter, i, 0))
    case Write(t, n) =>
      var Writing(bytes, counter, inode, offset) := s.threads[t].phase;
      Goto(s.(data := s.data[inode := WriteAt(s.data[inode], offset, p.zstd(bytes)[offset..offset + n])]), t,
           Writing(bytes, counter, inode, offset + n))
    case Rename(t) =>
      var name := TempName(p, s, t);
      var bytes := s.threads[t].phase.bytes;
      if name in s.dir
      then Goto(s.(dir := (s.dir - {name})[Blob(Of(p, bytes)) := s.dir[name]]), t, Returned(bytes))
      else Goto(s, t, Failed)
    case RenameError(t) => Goto(s.(dir := s.dir - {TempName(p, s, t)}), t, Failed)
    case Abort(t) => Goto(s, t, Failed)
  }

  /** A run: `states[i + 1]` is `states[i]` after `steps[i]`, from an empty directory. */
  ghost predicate Run(p: Prim, states: seq<State>, steps: seq<Step>) {
    && |states| == |steps| + 1
    && states[0] == State(map[], map[], map[], map[])
    && forall i :: 0 <= i < |steps| ==> Enabled(p, states[i], steps[i]) && states[i + 1] == Next(p, states[i], steps[i])
  }

  /** The condition on the environment: at any time a process has one handle
      on this directory, and no handle has drawn 2^64 counter values. */
  ghost predicate OnePerProcess(s: State) {
    && (forall g, h :: g in s.handles && h in s.handles && s.handles[g].pid == s.handles[h].pid ==> g == h)
    && (forall h :: h in s.handles ==> s.handles[h].draws < TWO64)
  }

  /** The file behind a digest is the complete encoding of bytes with that digest. */
  ghost predicate Complete(p: Prim, s: State, inputs: set<Bytes>, d: Digest)
    requires Blob(d) in s.dir
  {
    && s.dir[Blob(d)] in s.data
    && exists b :: b in inputs && Of(p, b) == d && s.data[s.dir[Blob(d)]] == p.zstd(b)
  }

  /** `FsBlobStore::get`: open, decompress, hash again. */
  function Get(p: Prim, s: State, d: Digest): Option<Bytes> {
    if Blob(d) in s.dir && s.dir[Blob(d)] in s.data then
      match p.unzstd(s.data[s.dir[Blob(d)]])
      case Some(b) => if Of(p, b) == d then Some(b) else None
      case None => None
    else None
  }

  predicate Named(ph: Phase) { ph.Creating? || ph.Writing? }

  /** What a single thread may rely on, whatever the others do. */
  ghost predicate ThreadInv(p: Prim, s: State, inputs: set<Bytes>, t: nat)
    requires t in s.threads
  {
    var ph := s.threads[t].phase;
    && Live(s, t)
    && (!ph.Failed? ==> ph.bytes in inputs)
    && (Named(ph) ==> 1 <= ph.counter <= s.handles[s.threads[t].handle].draws)
    && (ph.Writing? ==>
          && TempName(p, s, t) in s.dir && s.dir[TempName(p, s, t)] == ph.inode && ph.inode in s.data
          && ph.offset <= |p.zstd(ph.bytes)| && s.data[ph.inode] == p.zstd(ph.bytes)[..ph.offset])
    && (ph.Returned? ==> Blob(Of(p, ph.bytes)) in s.dir)
  }

  /** Names point at existing inodes, and no inode has two names. */
  ghost predicate DirInv(s: State) {
    && (forall q :: q in s.dir ==> s.dir[q] in s.data)
    && (forall q, r :: q in s.dir && r in s.dir && s.dir[q] == s.dir[r] ==> q == r)
  }

  /** Threads of one handle that hold a counter value hold different ones. */
  ghost predicate CounterInv(s: State) {
    forall t, u :: t in s.threads && u in s.threads && t != u && s.threads[t].handle == s.threads[u].handle
      && Named(s.threads[t].phase) && Named(s.threads[u].phase)
      ==> s.threads[t].phase.counter != s.threads[u].phase.counter
  }

  ghost predicate Inv(p: Prim, s: State, inputs: set<Bytes>) {
    && DirInv(s)
    && CounterInv(s)
    && (forall d :: Blob(d) in s.dir ==> Complete(p, s, inputs, d))
    && (forall t :: t in s.threads ==> ThreadInv(p, s, inputs, t))
  }

  /** The thread that takes the step, if a thread does. */
  predicate Acts(e: Step, t: nat) {
    !e.Open? && !e.Crash? && e.t == t
  }

  /** The bytes a step brings into the system are among `inputs`. */
  predicate From(e: Step, inputs: set<Bytes>) { e.Call? ==> e.bytes in inputs }

  lemma {:induction false} StepInv(p: Prim, s: State, e: Step, inputs: set<Bytes>)
    requires Enabled(p, s, e) && From(e, inputs)
    requires Inv(p, s, inputs) && OnePerProcess(s) && OnePerProcess(Next(p, s, e))
    ensures Inv(p, Next(p, s, e), inputs)
  {
    var s' := Next(p, s, e);
    StepDir(p, s, e, inputs);
    StepCounter(p, s, e, inputs);
    forall d | Blob(d) in s'.dir
      ensures Complete(p, s', inputs, d)
    {
      StepComplete(p, s, e, inputs, d);
    }
    forall t | t in s'.threads
      ensures ThreadInv(p, s', inputs, t)
    {
      if Acts(e, t) {
        StepActor(p, s, e, inputs);
      } else {
        StepBystander(p, s, e, inputs, t);
      }
    }
  }

  lemma {:induction false} StepDir(p: Prim, s: State, e: Step, inputs: set<Bytes>)
    requires Enabled(p, s, e) && Inv(p, s, inputs)
    ensures DirInv(Next(p, s, e))
  {
  }

  lemma {:induction false} StepCounter(p: Prim, s: State, e: Step, inputs: set<Bytes>)
    requires Enabled(p, s, e) && Inv(p, s, inputs)
    requires OnePerProcess(Next(p, s, e))
    ensures CounterInv(Next(p, s, e))
  {
    if e.Draw? {
      DrawCounter(p, s, e, inputs);
    }
  }

  lemma {:induction false} DrawCounter(p: Prim, s: State, e: Step, inputs: set<Bytes>)
    requires Enabled(p, s, e) && Inv(p, s, inputs) && e.Draw?
    requires OnePerProcess(Next(p, s, e))
    ensures CounterInv(Next(p, s, e))
  {
    assert Next(p, s, e).handles[s.threads[e.t].handle].draws < TWO64;
    forall u | u in s.threads && Named(s.threads[u].phase) && s.threads[u].handle == s.threads[e.t].handle
      ensures s.threads[u].phase.counter <= s.handles[s.threads[e.t].handle].draws
    {
      assert ThreadInv(p, s, inputs, u);
    }
  }

  lemma {:induction false} StepComplete(p: Prim, s: State, e: Step, inputs: set<Bytes>, d: Digest)
    requires Enabled(p, s, e) && Inv(p, s, inputs)
    requires Blob(d) in Next(p, s, e).dir
    ensures Complete(p, Next(p, s, e), inputs, d)
  {
    var s' := Next(p, s, e);
    if e.Rename? && TempName(p, s, e.t) in s.dir && d == Of(p, s.threads[e.t].phase.bytes) {
      var bytes := s.threads[e.t].phase.bytes;
      assert ThreadInv(p, s, inputs, e.t);
      assert p.zstd(bytes)[..|p.zstd(bytes)|] == p.zstd(bytes);
      assert s'.data[s'.dir[Blob(d)]] == p.zstd(bytes);
    } else {
      assert Complete(p, s, inputs, d);
      assert e.Write? ==> ThreadInv(p, s, inputs, e.t);
      assert s'.data[s'.dir[Blob(d)]] == s.data[s.dir[Blob(d)]];
    }
  }

  lemma {:induction false} StepWriter(p: Prim, s: State, e: Step, inputs: set<Bytes>)
    requires Enabled(p, s, e) && e.Write? && Inv(p, s, inputs)
    ensures ThreadInv(p, Next(p, s, e), inputs, e.t)
  {
    assert ThreadInv(p, s, inputs, e.t);
    var ph := s.threads[e.t].phase;
    var enc := p.zstd(ph.bytes);
    assert WriteAt(enc[..ph.offset], ph.offset, enc[ph.offset..ph.offset + e.n]) == enc[..ph.offset + e.n];
  }

  lemma {:induction false} StepActor(p: Prim, s: State, e: Step, inputs: set<Bytes>)
    requires Enabled(p, s, e) && From(e, inputs) && Inv(p, s, inputs)
    requires OnePerProcess(Next(p, s, e))
    requires !e.Open? && !e.Crash?
    ensures ThreadInv(p, Next(p, s, e), inputs, e.t)
  {
    if e.Write? {
      StepWriter(p, s, e, inputs);
    } else if e.Draw? {
      assert ThreadInv(p, s, inputs, e.t);
      assert Next(p, s, e).handles[s.threads[e.t].handle].draws < TWO64;
    } else if !e.Call? {
      assert ThreadInv(p, s, inputs, e.t);
    }
  }

  /** A step leaves alone the thread itself and the handle it works on. */
  lemma {:induction false} BystanderStays(p: Prim, s: State, e: Step, t: nat)
    requires Enabled(p, s, e)
    requires t in Next(p, s, e).threads && !Acts(e, t)
    ensures t in s.threads && Next(p, s, e).threads[t] == s.threads[t]
    ensures Live(s, t) ==> Live(Next(p, s, e), t)
    ensures Live(s, t) ==>
      var g, h := s.handles[s.threads[t].handle], Next(p, s, e).handles[s.threads[t].handle];
      h.pid == g.pid && h.draws >= g.draws
  {
  }

  /** It leaves alone the other thread's temporary file: this is where the
      temporary names have to differ. */
  lemma {:induction false} BystanderFile(p: Prim, s: State, e: Step, inputs: set<Bytes>, t: nat)
    requires Enabled(p, s, e) && Inv(p, s, inputs) && OnePerProcess(s)
    requires t in s.threads && !Acts(e, t) && s.threads[t].phase.Writing?
    ensures
      var name, inode := TempName(p, s, t), s.threads[t].phase.inode;
      var s' := Next(p, s, e);
      name in s'.dir && s'.dir[name] == inode && inode in s'.data && s'.data[inode] == s.data[inode]
  {
    assert ThreadInv(p, s, inputs, t);
    if e.Create? || e.Write? || e.Rename? || e.RenameError? {
      assert ThreadInv(p, s, inputs, e.t);
      assert TempName(p, s, t) != TempName(p, s, e.t) by {
        var g, h := s.threads[t].handle, s.threads[e.t].handle;
        assert g != h ==> s.handles[g].pid != s.handles[h].pid;
      }
    }
  }

  lemma {:induction false} BystanderBlob(p: Prim, s: State, e: Step, d: Digest)
    requires Enabled(p, s, e)
    requires Blob(d) in s.dir
    ensures Blob(d) in Next(p, s, e).dir
  {
  }

  lemma {:induction false} StepBystander(p: Prim, s: State, e: Step, inputs: set<Bytes>, t: nat)
    requires Enabled(p, s, e) && Inv(p, s, inputs) && OnePerProcess(s)
    requires t in Next(p, s, e).threads && !Acts(e, t)
    ensures ThreadInv(p, Next(p, s, e), inputs, t)
  {
    BystanderStays(p, s, e, t);
    assert ThreadInv(p, s, inputs, t);
    var ph := s.threads[t].phase;
    if ph.Writing? {
      BystanderFile(p, s, e, inputs, t);
      assert TempName(p, Next(p, s, e), t) == TempName(p, s, t);
    } else if ph.Returned? {
      BystanderBlob(p, s, e, Of(p, ph.bytes));
    }
  }

  /** Everything the theorems about a run suppose: what is put is among
      `inputs`, and temporary names are unique. */
  ghost predicate GoodRun(p: Prim, states: seq<State>, steps: seq<Step>, inputs: set<Bytes>) {
    && Run(p, states, steps)
    && (forall i :: 0 <= i < |steps| ==> From(steps[i], inputs))
    && (forall i :: 0 <= i < |states| ==> OnePerProcess(states[i]))
  }

  lemma {:induction false} RunInv(p: Prim, states: seq<State>, steps: seq<Step>, inputs: set<Bytes>, i: nat)
    requires GoodRun(p, states, steps, inputs) && i < |states|
    ensures Inv(p, states[i], inputs)
  {
    if i > 0 {
      RunInv(p, states, steps, inputs, i - 1);
      StepInv(p, states[i - 1], steps[i - 1], inputs);
    }
  }

  /** At every point of every run, every visible blob holds the complete
      encoding of bytes that hash to its name. */
  lemma {:induction false} VisibleBlobsAreComplete(p: Prim, states: seq<State>, steps: seq<Step>, inputs: set<Bytes>)
    requires GoodRun(p, states, steps, inputs)
    ensures forall i, d :: 0 <= i < |states| && Blob(d) in states[i].dir ==> Complete(p, states[i], inputs, d)
  {
    forall i, d | 0 <= i < |states| && Blob(d) in states[i].dir
      ensures Complete(p, states[i], inputs, d)
    {
      RunInv(p, states, steps, inputs, i);
    }
  }

  lemma {:induction false} CompleteMeansReadable(p: Prim, s: State, inputs: set<Bytes>, d: Digest)
    requires Lawful(p) && Blob(d) in s.dir && Complete(p, s, inputs, d)
    ensures Get(p, s, d).Some? && Get(p, s, d).value in inputs && Of(p, Get(p, s, d).value) == d
  {
    var b :| b in inputs && Of(p, b) == d && s.data[s.dir[Blob(d)]] == p.zstd(b);
    assert p.unzstd(p.zstd(b)) == Some(b);
  }

  /** Once a `put` has returned, `get` yields its bytes in every later state,
      whatever the other writers do and wherever they are stopped. */
  lemma {:induction false} ReturnedPutIsDurable(p: Prim, states: seq<State>, steps: seq<Step>, inputs: set<Bytes>,
                                                i: nat, j: nat, t: nat)
    requires Lawful(p) && CollisionFree(p, inputs) && GoodRun(p, states, steps, inputs)
    requires i <= j < |states|
    requires t in states[i].threads && states[i].threads[t].phase.Returned?
    ensures
      var bytes := states[i].threads[t].phase.bytes;
      Get(p, states[j], Of(p, bytes)) == Some(bytes)
  {
    var bytes := states[i].threads[t].phase.bytes;
    var d := Of(p, bytes);
    RunInv(p, states, steps, inputs, i);
    assert ThreadInv(p, states[i], inputs, t);
    BlobStays(p, states, steps, i, j, d);
    RunInv(p, states, steps, inputs, j);
    CompleteMeansReadable(p, states[j], inputs, d);
    OfInjective(p, inputs, Get(p, states[j], d).value, bytes);
  }

  lemma {:induction false} BlobStays(p: Prim, states: seq<State>, steps: seq<Step>, i: nat, j: nat, d: Digest)
    requires Run(p, states, steps) && i <= j < |states| && Blob(d) in states[i].dir
    ensures Blob(d) in states[j].dir
    decreases j
  {
    if i < j {
      BlobStays(p, states, steps, i, j - 1, d);
      BystanderBlob(p, states[j - 1], steps[j - 1], d);
    }
  }

  /** No temporary name leads to this inode, so no writer holds it. */
  ghost predicate Sealed(s: State, inode: nat) {
    inode in s.data && forall q :: q in s.dir && s.dir[q] == inode ==> q.Blob?
  }

  lemma {:induction false} StepSealed(p: Prim, s: State, e: Step, inputs: set<Bytes>, inode: nat)
    requires Enabled(p, s, e) && Inv(p, s, inputs) && Sealed(s, inode)
    ensures Sealed(Next(p, s, e), inode) && Next(p, s, e).data[inode] == s.data[inode]
  {
    if e.Write? || e.Rename? {
      assert ThreadInv(p, s, inputs, e.t);
      assert TempName(p, s, e.t) in s.dir;
    }
  }

  /** A reader that opened a visible blob reads the same bytes however long it
      takes, even if the name is renamed over meanwhile. */
  lemma {:induction false} OpenedFileIsFrozen(p: Prim, states: seq<State>, steps: seq<Step>, inputs: set<Bytes>,
                                              i: nat, j: nat, d: Digest)
    requires GoodRun(p, states, steps, inputs) && i <= j < |states|
    requires Blob(d) in states[i].dir
    ensures
      var inode := states[i].dir[Blob(d)];
      Sealed(states[j], inode) && inode in states[i].data && states[j].data[inode] == states[i].data[inode]
    decreases j
  {
    if i == j {
      RunInv(p, states, steps, inputs, i);
    } else {
      OpenedFileIsFrozen(p, states, steps, inputs, i, j - 1, d);
      RunInv(p, states, steps, inputs, j - 1);
      StepSealed(p, states[j - 1], steps[j - 1], inputs, states[i].dir[Blob(d)]);
    }
  }

  // ---------- refinement of the in-memory store ----------

  /** To readers the directory looks like the map `m`. */
  ghost predicate Shows(p: Prim, s: State, m: Cas.Blobs) {
    forall d :: Get(p, s, d) == Cas.Lookup(m, d)
  }

  /** Steps that make a blob visible. */
  predicate Commits(p: Prim, s: State, e: Step) {
    e.Rename? && Live(s, e.t) && s.threads[e.t].phase.Writing? && TempName(p, s, e.t) in s.dir
  }

  /** The rename is the one step that changes what readers see, and it changes
      it as one atomic `MemBlobStore::put` of the thread's bytes would. */
  lemma {:induction false} StepRefines(p: Prim, s: State, e: Step, inputs: set<Bytes>, m: Cas.Blobs)
    requires Lawful(p) && CollisionFree(p, inputs)
    requires Enabled(p, s, e) && From(e, inputs) && Inv(p, s, inputs)
    requires OnePerProcess(s) && OnePerProcess(Next(p, s, e))
    requires Shows(p, s, m)
    ensures Shows(p, Next(p, s, e), if Commits(p, s, e) then Cas.Stored(p, m, s.threads[e.t].phase.bytes) else m)
  {
    var s' := Next(p, s, e);
    StepInv(p, s, e, inputs);
    var m' := if Commits(p, s, e) then Cas.Stored(p, m, s.threads[e.t].phase.bytes) else m;
    forall d
      ensures Get(p, s', d) == Cas.Lookup(m', d)
    {
      assert Get(p, s, d) == Cas.Lookup(m, d);
      StepGet(p, s, e, inputs, d);
    }
  }

  lemma {:induction false} StepGet(p: Prim, s: State, e: Step, inputs: set<Bytes>, d: Digest)
    requires Lawful(p) && CollisionFree(p, inputs)
    requires Enabled(p, s, e) && Inv(p, s, inputs) && Inv(p, Next(p, s, e), inputs)
    ensures Get(p, Next(p, s, e), d) ==
      if Commits(p, s, e) && Get(p, s, d).None? && d == Of(p, s.threads[e.t].phase.bytes)
      then Some(s.threads[e.t].phase.bytes) else Get(p, s, d)
  {
    var s' := Next(p, s, e);
    if Blob(d) in s.dir {
      assert Complete(p, s, inputs, d);
      assert Blob(d) in s'.dir && Complete(p, s', inputs, d);
      CompleteMeansReadable(p, s, inputs, d);
      CompleteMeansReadable(p, s', inputs, d);
      OfInjective(p, inputs, Get(p, s, d).value, Get(p, s', d).value);
    } else if Commits(p, s, e) && d == Of(p, s.threads[e.t].phase.bytes) {
      assert ThreadInv(p, s, inputs, e.t);
      assert Blob(d) in s'.dir && Complete(p, s', inputs, d);
      CompleteMeansReadable(p, s', inputs, d);
      OfInjective(p, inputs, Get(p, s', d).value, s.threads[e.t].phase.bytes);
    } else {
      assert Blob(d) !in s'.dir;
    }
  }

  /** The byte strings committed by the first `n` steps of a run, in order. */
  ghost function CommitLog(p: Prim, states: seq<State>, steps: seq<Step>, n: nat): seq<Bytes>
    requires n <= |steps| < |states|
  {
    if n == 0 then []
    else
      var rest := CommitLog(p, states, steps, n - 1);
      if Commits(p, states[n - 1], steps[n - 1])
      then rest + [states[n - 1].threads[steps[n - 1].t].phase.bytes]
      else rest
  }

  /** Every run of the protocol is a run of the simple store that performs the
      same puts one after another in the order of their renames. */
  lemma {:induction false} RunRefinesMemStore(p: Prim, states: seq<State>, steps: seq<Step>, inputs: set<Bytes>, n: nat)
    requires Lawful(p) && CollisionFree(p, inputs) && GoodRun(p, states, steps, inputs)
    requires n <= |steps|
    ensures Shows(p, states[n], Cas.StoredAll(p, map[], CommitLog(p, states, steps, n)))
  {
    if n > 0 {
      RunRefinesMemStore(p, states, steps, inputs, n - 1);
      RunInv(p, states, steps, inputs, n - 1);
      assert OnePerProcess(states[n]) && states[n] == Next(p, states[n - 1], steps[n - 1]);
      var rest := CommitLog(p, states, steps, n - 1);
      StepRefines(p, states[n - 1], steps[n - 1], inputs, Cas.StoredAll(p, map[], rest));
      if Commits(p, states[n - 1], steps[n - 1]) {
        Cas.StoredAllAppend(p, map[], rest, states[n - 1].threads[steps[n - 1].t].phase.bytes);
      }
    }
  }

  // ---------- why one handle per process is needed ----------

  /** Some run that puts nothing but `b`, and in which no handle draws more
      than one counter value, ends in `s`. */
  ghost predicate Reaches(p: Prim, b: Bytes, s: State) {
    exists states, steps :: RunTo(p, b, states, steps, s)
  }

  ghost predicate RunTo(p: Prim, b: Bytes, states: seq<State>, steps: seq<Step>, s: State) {
    && Run(p, states, steps) && states[|steps|] == s
    && (forall i :: 0 <= i < |steps| ==> From(steps[i], {b}))
    && (forall i :: 0 <= i < |states| ==> FewDraws(states[i]))
  }

  predicate FewDraws(s: State) {
    forall h :: h in s.handles ==> s.handles[h].draws <= 1
  }

  lemma {:induction false} OneMoreStep(p: Prim, b: Bytes, s: State, e: Step, s': State)
    requires Reaches(p, b, s)
    requires Enabled(p, s, e) && s' == Next(p, s, e) && From(e, {b}) && FewDraws(s')
    ensures Reaches(p, b, s')
  {
    var states, steps :| RunTo(p, b, states, steps, s);
    var more := states + [s'];
    forall i | 0 <= i < |steps| + 1
      ensures Enabled(p, more[i], (steps + [e])[i]) && more[i + 1] == Next(p, more[i], (steps + [e])[i])
    {
      if i < |steps| {
        assert more[i] == states[i] && more[i + 1] == states[i + 1];
      }
    }
    assert RunTo(p, b, more, steps + [e], s');
  }

  /** Both threads have drawn counter value 1. */
  lemma {:induction false} BothDraw(p: Prim, b: Bytes)
    ensures Reaches(p, b, BothDrew(b))
  {
    var two := map[0 := Handle(7, 0), 1 := Handle(7, 0)];
    var s0 := State(map[], map[], map[], map[]);
    assert RunTo(p, b, [s0], [], s0);
    var s1 := State(map[], map[], map[0 := Handle(7, 0)], map[]);
    OneMoreStep(p, b, s0, Open(0, 7), s1);
    var s2 := State(map[], map[], two, map[]);
    OneMoreStep(p, b, s1, Open(1, 7), s2);
    var s3 := State(map[], map[], two, map[0 := Thread(0, Checking(b))]);
    OneMoreStep(p, b, s2, Call(0, 0, b), s3);
    var s4 := State(map[], map[], two, map[0 := Thread(0, Checking(b)), 1 := Thread(1, Checking(b))]);
    OneMoreStep(p, b, s3, Call(1, 1, b), s4);
    BothDrawRest(p, b, two, s4);
  }

  function BothDrew(b: Bytes): State {
    State(map[], map[], map[0 := Handle(7, 1), 1 := Handle(7, 1)],
          map[0 := Thread(0, Creating(b, 1)), 1 := Thread(1, Creating(b, 1))])
  }

  lemma {:induction false} BothDrawRest(p: Prim, b: Bytes, two: map<nat, Handle>, s4: State)
    requires two == map[0 := Handle(7, 0), 1 := Handle(7, 0)]
    requires s4 == State(map[], map[], two, map[0 := Thread(0, Checking(b)), 1 := Thread(1, Checking(b))])
    requires Reaches(p, b, s4)
    ensures Reaches(p, b, BothDrew(b))
  {
    var s5 := State(map[], map[], two, map[0 := Thread(0, Drawing(b)), 1 := Thread(1, Checking(b))]);
    OneMoreStep(p, b, s4, Check(0), s5);
    var s6 := BothChecked(b);
    OneMoreStep(p, b, s5, Check(1), s6);
    BothCheckedDraw(p, b);
  }

  function BothChecked(b: Bytes): State {
    State(map[], map[], map[0 := Handle(7, 0), 1 := Handle(7, 0)],
          map[0 := Thread(0, Drawing(b)), 1 := Thread(1, Drawing(b))])
  }

  lemma {:induction false} BothCheckedDraw(p: Prim, b: Bytes)
    requires Reaches(p, b, BothChecked(b))
    ensures Reaches(p, b, BothDrew(b))
  {
    var s7 := State(map[], map[], map[0 := Handle(7, 1), 1 := Handle(7, 0)],
                    map[0 := Thread(0, Creating(b, 1)), 1 := Thread(1, Drawing(b))]);
    OneMoreStep(p, b, BothChecked(b), Draw(0), s7);
    OneMoreStep(p, b, s7, Draw(1), BothDrew(b));
  }

  /** The second thread has truncated the first one's finished temp file. */
  function Truncated(p: Prim, b: Bytes): State {
    var n := |p.zstd(b)|;
    State(map[Temp(Of(p, b), 7, 1) := 0], map[0 := []], map[0 := Handle(7, 1), 1 := Handle(7, 1)],
          map[0 := Thread(0, Writing(b, 1, 0, n)), 1 := Thread(1, Writing(b, 1, 0, 0))])
  }

  lemma {:induction false} TruncatedReached(p: Prim, b: Bytes)
    requires p.zstd(b) != []
    ensures Reaches(p, b, Truncated(p, b))
  {
    WrittenReached(p, b);
    OneMoreStep(p, b, Written(p, b), Create(1, 1), Truncated(p, b));
  }

  /** The first thread has written its temp file; the second is about to create its own. */
  function Written(p: Prim, b: Bytes): State {
    State(map[Temp(Of(p, b), 7, 1) := 0], map[0 := p.zstd(b)], map[0 := Handle(7, 1), 1 := Handle(7, 1)],
          map[0 := Thread(0, Writing(b, 1, 0, |p.zstd(b)|)), 1 := Thread(1, Creating(b, 1))])
  }

  lemma {:induction false} WrittenReached(p: Prim, b: Bytes)
    requires p.zstd(b) != []
    ensures Reaches(p, b, Written(p, b))
  {
    CreatedReached(p, b);
    var n := |p.zstd(b)|;
    assert WriteAt([], 0, p.zstd(b)[0..0 + n]) == p.zstd(b);
    OneMoreStep(p, b, Created(p, b), Write(0, n), Written(p, b));
  }

  /** The first thread has created its temp file. */
  function Created(p: Prim, b: Bytes): State {
    State(map[Temp(Of(p, b), 7, 1) := 0], map[0 := []], map[0 := Handle(7, 1), 1 := Handle(7, 1)],
          map[0 := Thread(0, Writing(b, 1, 0, 0)), 1 := Thread(1, Creating(b, 1))])
  }

  lemma {:induction false} CreatedReached(p: Prim, b: Bytes)
    ensures Reaches(p, b, Created(p, b))
  {
    BothDraw(p, b);
    OneMoreStep(p, b, BothDrew(b), Create(0, 0), Created(p, b));
  }

  /** Two handles opened by one process on one directory draw the same counter
      values, and then a visible blob can be an empty file. */
  lemma {:induction false} TwoHandlesExposeTornBlob(p: Prim, b: Bytes)
    requires p.zstd(b) != []
    ensures exists s :: Reaches(p, b, s) && Blob(Of(p, b)) in s.dir && !Complete(p, s, {b}, Of(p, b))
  {
    TruncatedReached(p, b);
    var s11 := Truncated(p, b);
    var s12 := Next(p, s11, Rename(0));
    assert s12.dir[Blob(Of(p, b))] == 0 && s12.data[0] == [];
    OneMoreStep(p, b, s11, Rename(0), s12);
  }
}
