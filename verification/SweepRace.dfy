/** `put` while a sweep deletes blobs. */
module SweepRace {
  // `pf gc` unlinks blob files and takes no lock. The writers' protocol keeps what it
  // promises about visible blobs; a put that has returned can be undone.

  import opened Bits
  import opened Base
  import opened PutProtocol

  /** A step of a writer, or the sweep unlinking the file of a digest. */
  datatype Move = Writer(e: Step) | Delete(d: Digest)

  predicate CanMove(p: Prim, s: State, v: Move) { v.Writer? ==> Enabled(p, s, v.e) }

  function Moved(p: Prim, s: State, v: Move): State
    requires CanMove(p, s, v)
  {
    match v
    case Writer(e) => Next(p, s, e)
    case Delete(d) => s.(dir := s.dir - {Blob(d)})
  }

  ghost predicate SweptRun(p: Prim, states: seq<State>, moves: seq<Move>) {
    && |states| == |moves| + 1
    && states[0] == State(map[], map[], map[], map[])
    && forall i :: 0 <= i < |moves| ==> CanMove(p, states[i], moves[i]) && states[i + 1] == Moved(p, states[i], moves[i])
  }

  ghost predicate GoodSweptRun(p: Prim, states: seq<State>, moves: seq<Move>, inputs: set<Bytes>) {
    && SweptRun(p, states, moves)
    && (forall i :: 0 <= i < |moves| && moves[i].Writer? ==> From(moves[i].e, inputs))
    && (forall i :: 0 <= i < |states| ==> OnePerProcess(states[i]))
  }

  // ---------- what a sweep cannot break ----------

  function ForgetPhase(th: Thread): Thread { if th.phase.Returned? then th.(phase := Failed) else th }

  /** The same state, but no thread remembers that its put has returned. */
  function Forget(s: State): State {
    s.(threads := map t | t in s.threads :: ForgetPhase(s.threads[t]))
  }

  /** The invariant of the writers, except that a returned put need not be there. */
  ghost predicate SweptInv(p: Prim, s: State, inputs: set<Bytes>) { Inv(p, Forget(s), inputs) }

  lemma {:induction false} ForgetInv(p: Prim, s: State, inputs: set<Bytes>)
    requires Inv(p, s, inputs)
    ensures SweptInv(p, s, inputs)
  {
    var o := Forget(s);
    forall t | t in o.threads
      ensures ThreadInv(p, o, inputs, t)
    {
      assert ThreadInv(p, s, inputs, t);
    }
    forall d | Blob(d) in o.dir
      ensures Complete(p, o, inputs, d)
    {
      assert Complete(p, s, inputs, d);
    }
  }

  /** Nobody else looks at whether a put has returned. */
  lemma {:induction false} ForgetNext(p: Prim, s: State, e: Step)
    requires Enabled(p, s, e)
    ensures Enabled(p, Forget(s), e) && Forget(Next(p, Forget(s), e)) == Forget(Next(p, s, e))
  {
    assert Enabled(p, Forget(s), e);
    ForgetNextThreads(p, s, e);
  }

  lemma {:induction false} ForgetNextThreads(p: Prim, s: State, e: Step)
    requires Enabled(p, s, e) && Enabled(p, Forget(s), e)
    ensures
      var o, r := Next(p, Forget(s), e), Next(p, s, e);
      && o.dir == r.dir && o.data == r.data && o.handles == r.handles
      && o.threads.Keys == r.threads.Keys
      && forall t :: t in o.threads ==> ForgetPhase(o.threads[t]) == ForgetPhase(r.threads[t])
  {
    if !e.Open? && !e.Crash? && !e.Call? {
      assert Forget(s).threads[e.t] == s.threads[e.t];
    }
  }

  lemma {:induction false} MoveInv(p: Prim, s: State, v: Move, inputs: set<Bytes>)
    requires CanMove(p, s, v) && (v.Writer? ==> From(v.e, inputs))
    requires SweptInv(p, s, inputs) && OnePerProcess(s) && OnePerProcess(Moved(p, s, v))
    ensures SweptInv(p, Moved(p, s, v), inputs)
  {
    match v {
      case Writer(e) =>
        ForgetNext(p, s, e);
        StepInv(p, Forget(s), e, inputs);
        ForgetInv(p, Next(p, Forget(s), e), inputs);
      case Delete(d) =>
        DeleteInv(p, s, d, inputs);
    }
  }

  lemma {:induction false} DeleteInv(p: Prim, s: State, d: Digest, inputs: set<Bytes>)
    requires SweptInv(p, s, inputs)
    ensures SweptInv(p, Moved(p, s, Delete(d)), inputs)
  {
    var o, r := Forget(s), Forget(Moved(p, s, Delete(d)));
    forall t | t in r.threads
      ensures ThreadInv(p, r, inputs, t)
    {
      assert ThreadInv(p, o, inputs, t);
    }
    forall c | Blob(c) in r.dir
      ensures Complete(p, r, inputs, c)
    {
      assert Complete(p, o, inputs, c);
    }
  }

  lemma {:induction false} SweptRunInv(p: Prim, states: seq<State>, moves: seq<Move>, inputs: set<Bytes>, i: nat)
    requires GoodSweptRun(p, states, moves, inputs) && i < |states|
    ensures SweptInv(p, states[i], inputs)
  {
    if i > 0 {
      var n := i - 1;
      SweptRunInv(p, states, moves, inputs, n);
      assert states[n + 1] == Moved(p, states[n], moves[n]);
      MoveInv(p, states[n], moves[n], inputs);
    }
  }

  /** With sweeps at any time, every visible blob is still the complete encoding of
      bytes that hash to its name. */
  lemma {:induction false} SweptBlobsAreComplete(p: Prim, states: seq<State>, moves: seq<Move>, inputs: set<Bytes>, i: nat, d: Digest)
    requires GoodSweptRun(p, states, moves, inputs) && i < |states| && Blob(d) in states[i].dir
    ensures Complete(p, states[i], inputs, d)
  {
    SweptRunInv(p, states, moves, inputs, i);
    assert Complete(p, Forget(states[i]), inputs, d);
  }

  /** What the threads put is among the inputs. */
  ghost predicate BytesFrom(s: State, inputs: set<Bytes>) {
    forall t :: t in s.threads && !s.threads[t].phase.Failed? ==> s.threads[t].phase.bytes in inputs
  }

  lemma {:induction false} StepBytes(p: Prim, s: State, e: Step, inputs: set<Bytes>)
    requires Enabled(p, s, e) && From(e, inputs) && BytesFrom(s, inputs)
    ensures BytesFrom(Next(p, s, e), inputs)
  {
    var r := Next(p, s, e);
    if Acting(e) {
      assert r.threads[e.t].phase.Failed? || r.threads[e.t].phase.bytes in inputs;
    }
    assert forall t :: t in r.threads && !(Acting(e) && t == e.t) ==> t in s.threads && r.threads[t] == s.threads[t];
  }

  predicate Acting(e: Step) { !e.Open? && !e.Crash? }

  lemma {:induction false} SweptRunBytes(p: Prim, states: seq<State>, moves: seq<Move>, inputs: set<Bytes>, i: nat)
    requires GoodSweptRun(p, states, moves, inputs) && i < |states|
    ensures BytesFrom(states[i], inputs)
  {
    if i > 0 {
      var n := i - 1;
      SweptRunBytes(p, states, moves, inputs, n);
      assert states[n + 1] == Moved(p, states[n], moves[n]);
      if moves[n].Writer? {
        StepBytes(p, states[n], moves[n].e, inputs);
      }
    }
  }

  // ---------- what it can undo ----------

  /** The move puts the blob of `d` in place. */
  predicate Places(p: Prim, s: State, v: Move, d: Digest)
    requires CanMove(p, s, v)
  {
    v.Writer? && v.e.Rename? && TempName(p, s, v.e.t) in s.dir && Of(p, s.threads[v.e.t].phase.bytes) == d
  }

  lemma {:induction false} BlobMoves(p: Prim, s: State, v: Move, d: Digest)
    requires CanMove(p, s, v)
    ensures Blob(d) in Moved(p, s, v).dir <==> Places(p, s, v, d) || (Blob(d) in s.dir && v != Delete(d))
  {
    match v
    case Delete(_) =>
    case Writer(e) => BlobSteps(p, s, e, d);
  }

  lemma {:induction false} BlobSteps(p: Prim, s: State, e: Step, d: Digest)
    requires Enabled(p, s, e)
    ensures Blob(d) in Next(p, s, e).dir <==> Places(p, s, Writer(e), d) || Blob(d) in s.dir
  {
  }

  ghost predicate PlacedBetween(p: Prim, states: seq<State>, moves: seq<Move>, k: nat, j: nat, d: Digest)
    requires SweptRun(p, states, moves) && j < |states|
  {
    exists l :: k < l < j && Places(p, states[l], moves[l], d)
  }

  /** After every deletion of the blob between `i` and `j` it was placed again. */
  ghost predicate PlacedSince(p: Prim, states: seq<State>, moves: seq<Move>, i: nat, j: nat, d: Digest)
    requires SweptRun(p, states, moves) && j < |states|
  {
    forall k :: i <= k < j && moves[k] == Delete(d) ==> PlacedBetween(p, states, moves, k, j, d)
  }

  lemma {:induction false} ThereIff(p: Prim, states: seq<State>, moves: seq<Move>, i: nat, j: nat, d: Digest)
    requires SweptRun(p, states, moves) && i <= j < |states| && Blob(d) in states[i].dir
    ensures Blob(d) in states[j].dir <==> PlacedSince(p, states, moves, i, j, d)
    decreases j
  {
    if i < j {
      var n := j - 1;
      ThereIff(p, states, moves, i, n, d);
      BlobMoves(p, states[n], moves[n], d);
      SinceStep(p, states, moves, i, n, d);
    }
  }

  lemma {:induction false} SinceStep(p: Prim, states: seq<State>, moves: seq<Move>, i: nat, n: nat, d: Digest)
    requires SweptRun(p, states, moves) && i <= n < |moves|
    ensures PlacedSince(p, states, moves, i, n + 1, d) <==>
      moves[n] != Delete(d) && (Places(p, states[n], moves[n], d) || PlacedSince(p, states, moves, i, n, d))
  {
    forall k | i <= k < n
      ensures PlacedBetween(p, states, moves, k, n + 1, d) <==>
        PlacedBetween(p, states, moves, k, n, d) || Places(p, states[n], moves[n], d)
    {
      if Places(p, states[n], moves[n], d) {
        assert PlacedBetween(p, states, moves, k, n + 1, d);
      }
    }
    assert !PlacedBetween(p, states, moves, n, n + 1, d);
  }

  /** A put that has returned while its blob was there is readable later if and only
      if, after every deletion since, the blob was placed again. */
  lemma {:induction false} ReturnedPutReadableIff(p: Prim, states: seq<State>, moves: seq<Move>, inputs: set<Bytes>,
                                                  i: nat, j: nat, t: nat)
    requires Lawful(p) && CollisionFree(p, inputs) && GoodSweptRun(p, states, moves, inputs) && i <= j < |states|
    requires t in states[i].threads && states[i].threads[t].phase.Returned?
    requires Blob(Of(p, states[i].threads[t].phase.bytes)) in states[i].dir
    ensures
      var bytes := states[i].threads[t].phase.bytes;
      Get(p, states[j], Of(p, bytes)) == Some(bytes) <==> PlacedSince(p, states, moves, i, j, Of(p, bytes))
  {
    var bytes := states[i].threads[t].phase.bytes;
    var d := Of(p, bytes);
    SweptRunBytes(p, states, moves, inputs, i);
    ThereIff(p, states, moves, i, j, d);
    if Blob(d) in states[j].dir {
      SweptBlobsAreComplete(p, states, moves, inputs, j, d);
      CompleteMeansReadable(p, states[j], inputs, d);
      OfInjective(p, inputs, Get(p, states[j], d).value, bytes);
    }
  }

  /** A put finds the file of its digest and returns at once; then the sweep, which
      did not mark the digest, unlinks it. The put has returned and cannot be read. */
  lemma {:induction false} SweepUndoesPut(p: Prim, s: State, h: nat, t: nat, b: Bytes)
    requires h in s.handles && t !in s.threads && Blob(Of(p, b)) in s.dir
    ensures
      var call, check, delete := Writer(Call(t, h, b)), Writer(Check(t)), Delete(Of(p, b));
      && CanMove(p, s, call)
      && var s1 := Moved(p, s, call);
         CanMove(p, s1, check)
         && var s2 := Moved(p, s1, check);
            var s3 := Moved(p, s2, delete);
            s3.threads[t].phase == Returned(b) && Get(p, s3, Of(p, b)) == None
  {
  }
}
