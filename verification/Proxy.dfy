/** `ToolProxy::invoke`: any number of concurrent callers, one ledger. */
module Proxy {
  import opened Bits
  import opened Base
  import opened Ledger
  import Json

  /** A registered tool; what it answers is up to the environment. */
  datatype Handler = Handler(name: string, class_: Class)

  /** Where a call stands. */
  datatype Phase =
    | Looking
    | Minting(h: Handler)
    | Running(h: Handler, key: string)
    | Recording(h: Handler, key: string, result: Json.Value)
    | Recorded(h: Handler, key: string, result: Json.Value, ix: nat)
    | Returned(h: Handler, key: string, result: Json.Value, ix: nat)
    | Failed

  datatype Call = Call(id: string, args: Json.Value, phase: Phase)

  datatype State = State(tools: map<string, Handler>, entries: seq<Entry>, calls: map<nat, Call>)

  datatype Step =
    | Register(id: string, h: Handler)
    | Invoke(t: nat, id: string, args: Json.Value)
    | Look(t: nat)
    | Mint(t: nat, minted: Option<string>)
    | Answer(t: nat, result: Option<Json.Value>)
    | Record(t: nat, ts: string)
    | Return(t: nat)

  predicate At(s: State, t: nat) { t in s.calls }

  function Goto(s: State, t: nat, phase: Phase): State
    requires t in s.calls
  {
    s.(calls := s.calls[t := s.calls[t].(phase := phase)])
  }

  /** What is recorded for a call, before it is signed. */
  function Report(p: Prim, call: Call, key: string, result: Json.Value, h: Handler, ts: string): Entry {
    Entry(ts, call.id, Of(p, p.render(call.args)), key, Of(p, p.render(result)), h.class_, "")
  }

  /** The entry names the tool and its class, the hash of the arguments as the
      arguments' hash and that of the result as the result's, and the key. */
  predicate Tells(p: Prim, e: Entry, id: string, class_: Class, args: Json.Value, key: string, result: Json.Value) {
    && e.toolId == id && e.class_ == class_ && e.key == key
    && e.argsHash == Of(p, p.render(args)) && e.resultHash == Of(p, p.render(result))
  }

  /** The entry that `append` adds to a ledger. */
  function Signed(p: Prim, secret: Bytes, es: seq<Entry>, e: Entry): Entry {
    e.(mac := HexEncode(p.hmacText(secret, PrevHash(p, es, |es|) + EntryHash(p, e))))
  }

  predicate Enabled(p: Prim, s: State, e: Step) {
    match e
    case Register(_, _) => true
    case Invoke(t, _, _) => !At(s, t)
    case Look(t) => At(s, t) && s.calls[t].phase.Looking?
    case Mint(t, _) => At(s, t) && s.calls[t].phase.Minting?
    case Answer(t, _) => At(s, t) && s.calls[t].phase.Running?
    case Record(t, ts) => At(s, t) && s.calls[t].phase.Recording? && p.instant(ts) == Some(ts)
    case Return(t) => At(s, t) && s.calls[t].phase.Recorded?
  }

  function Next(p: Prim, secret: Bytes, s: State, e: Step): State
    requires Enabled(p, s, e)
  {
    match e
    case Register(id, h) => s.(tools := s.tools[id := h])
    case Invoke(t, id, args) => s.(calls := s.calls[t := Call(id, args, Looking)])
    case Look(t) =>
      var id := s.calls[t].id;
      Goto(s, t, if id in s.tools then Minting(s.tools[id]) else Failed)
    case Mint(t, minted) =>
      Goto(s, t, if minted.Some? then Running(s.calls[t].phase.h, minted.value) else Failed)
    case Answer(t, result) =>
      var ph := s.calls[t].phase;
      Goto(s, t, if result.Some? then Recording(ph.h, ph.key, result.value) else Failed)
    case Record(t, ts) =>
      var ph := s.calls[t].phase;
      var e := Signed(p, secret, s.entries, Report(p, s.calls[t], ph.key, ph.result, ph.h, ts));
      Goto(s.(entries := s.entries + [e]), t, Recorded(ph.h, ph.key, ph.result, |s.entries|))
    case Return(t) =>
      var ph := s.calls[t].phase;
      Goto(s, t, Returned(ph.h, ph.key, ph.result, ph.ix))
  }

  /** A run from a proxy around the ledger `start`. */
  ghost predicate Run(p: Prim, secret: Bytes, start: seq<Entry>, states: seq<State>, steps: seq<Step>) {
    && |states| == |steps| + 1
    && states[0] == State(map[], start, map[])
    && forall i :: 0 <= i < |steps| ==> Enabled(p, states[i], steps[i]) && states[i + 1] == Next(p, secret, states[i], steps[i])
  }

  // ---------- the step that records is `Ledger::append` ----------

  /** An entry that `Append` may add is the one the record step adds. */
  lemma {:induction false} AppendIsSigned(p: Prim, secret: Bytes, es: seq<Entry>, e: Entry)
    requires Appended(p, secret, es + [e])
    ensures e == Signed(p, secret, es, Stripped(e))
  {
    assert SignedEntry(p, secret, es + [e], |es|);
    MessageLast(p, es, e);
    assert EntryHash(p, Stripped(e)) == EntryHash(p, e);
  }

  lemma {:induction false} RecordKeepsChain(p: Prim, secret: Bytes, es: seq<Entry>, e: Entry)
    requires Appended(p, secret, es) && Timed(p, e)
    ensures Appended(p, secret, es + [Signed(p, secret, es, e)])
  {
    var s := Signed(p, secret, es, e);
    assert Stripped(s) == Stripped(e);
    assert EntryHash(p, s) == EntryHash(p, e);
    AppendedExtends(p, secret, es, s);
  }

  /** The proxy as one caller sees it, with nobody else about. */
  class ToolProxy {
    var tools: map<string, Handler>
    const ledger: Ledger

    constructor (ledger: Ledger)
      ensures this.ledger == ledger && tools == map[]
    {
      this.ledger := ledger;
      tools := map[];
    }

    /** The last registration of an id wins. */
    method Register(id: string, h: Handler)
      modifies this
      ensures tools == old(tools)[id := h]
    {
      tools := tools[id := h];
    }

    /** A call that fails leaves the ledger alone; one that succeeds has added
        its entry, and the chain stays whole. */
    method Invoke(p: Prim, id: string, args: Json.Value, minted: Option<string>, answer: Option<Json.Value>, now: string)
      returns (r: Option<Json.Value>)
      requires ledger.Valid(p) && p.instant(now) == Some(now)
      modifies ledger
      ensures ledger.Valid(p)
      ensures r == if id in tools && minted.Some? then answer else None
      ensures r.None? ==> ledger.entries == old(ledger.entries)
      ensures r.Some? ==>
        var call := Call(id, args, Looking);
        var report := Report(p, call, minted.value, r.value, tools[id], now);
        ledger.entries == old(ledger.entries) + [Signed(p, ledger.secret, old(ledger.entries), report)]
      ensures r.Some? ==>
        var e := ledger.entries[|ledger.entries| - 1];
        && |ledger.entries| == |old(ledger.entries)| + 1 && SignedAfter(p, ledger.secret, old(ledger.entries), e)
        && e.ts == now && Tells(p, e, id, tools[id].class_, args, minted.value, r.value)
    {
      if id !in tools {
        return None;
      }
      var h := tools[id];
      var argsHash := Of(p, p.render(args));
      if minted.None? || answer.None? {
        return None;
      }
      var resultHash := Of(p, p.render(answer.value));
      ghost var before := ledger.entries;
      var e := ledger.Append(p, now, id, argsHash, minted.value, resultHash, h.class_);
      AppendIsSigned(p, ledger.secret, before, e);
      return answer;
    }
  }

  // ---------- the invariant ----------

  /** The ledger position a call was recorded at. */
  function Slot(ph: Phase): Option<nat> { if ph.Recorded? || ph.Returned? then Some(ph.ix) else None }

  predicate SameSlot(a: Phase, b: Phase) { Slot(a).Some? && Slot(a) == Slot(b) }

  /** The entry says what the call did. */
  predicate Records(p: Prim, e: Entry, call: Call)
    requires Slot(call.phase).Some?
  {
    Stripped(e) == Report(p, call, call.phase.key, call.phase.result, call.phase.h, e.ts)
  }

  ghost predicate OwnSlot(p: Prim, start: seq<Entry>, s: State, t: nat)
    requires t in s.calls
  {
    Slot(s.calls[t].phase).Some? ==>
      var ix := Slot(s.calls[t].phase).value;
      |start| <= ix < |s.entries| && Records(p, s.entries[ix], s.calls[t])
  }

  ghost predicate Owned(s: State, ix: nat) { exists t :: t in s.calls && Slot(s.calls[t].phase) == Some(ix) }

  ghost predicate Inv(p: Prim, secret: Bytes, start: seq<Entry>, s: State) {
    && Appended(p, secret, s.entries)
    && start <= s.entries
    && (forall t :: t in s.calls ==> OwnSlot(p, start, s, t))
    && (forall t, u :: t in s.calls && u in s.calls && SameSlot(s.calls[t].phase, s.calls[u].phase) ==> t == u)
    && (forall ix :: |start| <= ix < |s.entries| ==> Owned(s, ix))
  }

  lemma {:induction false} RecordOwnSlots(p: Prim, secret: Bytes, start: seq<Entry>, s: State, t: nat, ts: string)
    requires Inv(p, secret, start, s) && Enabled(p, s, Record(t, ts))
    ensures
      var s' := Next(p, secret, s, Record(t, ts));
      && (forall u :: u in s'.calls ==> OwnSlot(p, start, s', u))
      && (forall u, v :: u in s'.calls && v in s'.calls && SameSlot(s'.calls[u].phase, s'.calls[v].phase) ==> u == v)
  {
    var s' := Next(p, secret, s, Record(t, ts));
    forall u | u in s.calls
      ensures OwnSlot(p, start, s, u)
      ensures Slot(s.calls[u].phase).Some? ==> Slot(s.calls[u].phase).value < |s.entries|
    {
      assert OwnSlot(p, start, s, u);
    }
  }

  lemma {:induction false} RecordOwned(p: Prim, secret: Bytes, start: seq<Entry>, s: State, t: nat, ts: string)
    requires Inv(p, secret, start, s) && Enabled(p, s, Record(t, ts))
    ensures
      var s' := Next(p, secret, s, Record(t, ts));
      forall ix :: |start| <= ix < |s'.entries| ==> Owned(s', ix)
  {
    var s' := Next(p, secret, s, Record(t, ts));
    forall ix | |start| <= ix < |s'.entries|
      ensures Owned(s', ix)
    {
      if ix < |s.entries| {
        assert Owned(s, ix);
        var u :| u in s.calls && Slot(s.calls[u].phase) == Some(ix);
        assert Slot(s'.calls[u].phase) == Some(ix);
      } else {
        assert Slot(s'.calls[t].phase) == Some(ix);
      }
    }
  }

  lemma {:induction false} RecordStep(p: Prim, secret: Bytes, start: seq<Entry>, s: State, t: nat, ts: string)
    requires Inv(p, secret, start, s) && Enabled(p, s, Record(t, ts))
    ensures Inv(p, secret, start, Next(p, secret, s, Record(t, ts)))
  {
    var ph := s.calls[t].phase;
    RecordKeepsChain(p, secret, s.entries, Report(p, s.calls[t], ph.key, ph.result, ph.h, ts));
    RecordOwnSlots(p, secret, start, s, t, ts);
    RecordOwned(p, secret, start, s, t, ts);
  }

  /** The same position, reached by the same call. */
  predicate SameRecord(a: Call, b: Call) {
    Slot(a.phase) == Slot(b.phase)
    && (Slot(a.phase).Some? ==>
          a.id == b.id && a.args == b.args && a.phase.h == b.phase.h && a.phase.key == b.phase.key && a.phase.result == b.phase.result)
  }

  lemma {:induction false} OtherStep(p: Prim, secret: Bytes, start: seq<Entry>, s: State, e: Step)
    requires Inv(p, secret, start, s) && Enabled(p, s, e) && !e.Record?
    ensures Inv(p, secret, start, Next(p, secret, s, e))
  {
    hide Inv;
    var s' := Next(p, secret, s, e);
    SameRecordsSameInv(p, secret, start, s, s');
  }

  lemma {:induction false} SameRecordsSameInv(p: Prim, secret: Bytes, start: seq<Entry>, s: State, s': State)
    requires Inv(p, secret, start, s) && s'.entries == s.entries
    requires forall u :: u in s.calls ==> u in s'.calls && SameRecord(s.calls[u], s'.calls[u])
    requires forall u :: u in s'.calls && u !in s.calls ==> Slot(s'.calls[u].phase).None?
    ensures Inv(p, secret, start, s')
  {
    forall u | u in s'.calls
      ensures OwnSlot(p, start, s', u)
    {
      if u in s.calls {
        assert OwnSlot(p, start, s, u);
      }
    }
    forall ix | |start| <= ix < |s'.entries|
      ensures Owned(s', ix)
    {
      assert Owned(s, ix);
      var u :| u in s.calls && Slot(s.calls[u].phase) == Some(ix);
      assert u in s'.calls;
    }
  }

  lemma {:induction false} RunKeepsInv(p: Prim, secret: Bytes, start: seq<Entry>, states: seq<State>, steps: seq<Step>, n: nat)
    requires Run(p, secret, start, states, steps) && Appended(p, secret, start) && n < |states|
    ensures Inv(p, secret, start, states[n])
  {
    if n > 0 {
      RunKeepsInv(p, secret, start, states, steps, n - 1);
      if steps[n - 1].Record? {
        RecordStep(p, secret, start, states[n - 1], steps[n - 1].t, steps[n - 1].ts);
      } else {
        OtherStep(p, secret, start, states[n - 1], steps[n - 1]);
      }
    }
  }

  // ---------- the main results ----------

  /** The entry at a recorded call's position tells what the call did. */
  predicate ToldAt(p: Prim, entries: seq<Entry>, call: Call)
    requires Slot(call.phase).Some?
  {
    call.phase.ix < |entries|
    && Tells(p, entries[call.phase.ix], call.id, call.phase.h.class_, call.args, call.phase.key, call.phase.result)
  }

  /** In every reachable state the ledger verifies under its secret, still
      begins with what the proxy was given, and its new entries are in
      one-to-one correspondence with the calls that have been recorded, each
      entry reporting its call; every call that returned is among them. */
  lemma {:induction false} OneEntryPerInvoke(p: Prim, secret: Bytes, start: seq<Entry>, states: seq<State>, steps: seq<Step>, n: nat)
    requires Run(p, secret, start, states, steps) && Appended(p, secret, start) && n < |states|
    ensures
      var s := states[n];
      && Verifies(p, secret, s.entries) && start <= s.entries
      && (forall t :: t in s.calls ==> OwnSlot(p, start, s, t))
      && (forall t :: t in s.calls && Slot(s.calls[t].phase).Some? ==> ToldAt(p, s.entries, s.calls[t]))
      && (forall t, u :: t in s.calls && u in s.calls && SameSlot(s.calls[t].phase, s.calls[u].phase) ==> t == u)
      && (forall ix :: |start| <= ix < |s.entries| ==> Owned(s, ix))
      && (forall t :: t in s.calls && s.calls[t].phase.Returned? ==> Slot(s.calls[t].phase).Some?)
  {
    RunKeepsInv(p, secret, start, states, steps, n);
    AppendedVerifies(p, secret, states[n].entries);
    var s := states[n];
    forall t | t in s.calls && Slot(s.calls[t].phase).Some?
      ensures ToldAt(p, s.entries, s.calls[t])
    {
      assert OwnSlot(p, start, s, t);
    }
  }

  lemma {:induction false} StepKeepsRecord(p: Prim, secret: Bytes, s: State, e: Step, t: nat)
    requires Enabled(p, s, e) && t in s.calls && Slot(s.calls[t].phase).Some?
    ensures
      var s' := Next(p, secret, s, e);
      s.entries <= s'.entries && t in s'.calls && Slot(s'.calls[t].phase) == Slot(s.calls[t].phase)
  {
  }

  /** A call that has returned, or has been recorded, stays so at its position,
      and the ledger only grows. */
  lemma {:induction false} RecordedForGood(p: Prim, secret: Bytes, start: seq<Entry>, states: seq<State>, steps: seq<Step>,
                                           m: nat, n: nat, t: nat)
    requires Run(p, secret, start, states, steps) && Appended(p, secret, start) && m <= n < |states|
    requires t in states[m].calls && Slot(states[m].calls[t].phase).Some?
    ensures states[m].entries <= states[n].entries
    ensures t in states[n].calls && Slot(states[n].calls[t].phase) == Slot(states[m].calls[t].phase)
    ensures
      var ix := Slot(states[m].calls[t].phase).value;
      ix < |states[m].entries| && states[n].entries[ix] == states[m].entries[ix]
  {
    RunKeepsInv(p, secret, start, states, steps, m);
    assert OwnSlot(p, start, states[m], t);
    if m < n {
      RecordedForGood(p, secret, start, states, steps, m, n - 1, t);
      StepKeepsRecord(p, secret, states[n - 1], steps[n - 1], t);
    }
  }

  /** The steps that brought a call where it is: it was invoked with these
      arguments, found its tool registered, was minted its key, got its answer,
      and took the ledger's next position. */
  ghost predicate Came(states: seq<State>, steps: seq<Step>, n: nat, t: nat, call: Call)
    requires |states| == |steps| + 1 && n <= |steps|
  {
    && (exists i :: 0 <= i < n && steps[i] == Invoke(t, call.id, call.args))
    && match call.phase
       case Looking => true
       case Failed => true
       case Minting(h) => Found(states, steps, n, t, call.id, h)
       case Running(h, key) => Found(states, steps, n, t, call.id, h) && Minted(steps, n, t, key)
       case Recording(h, key, result) =>
         Found(states, steps, n, t, call.id, h) && Minted(steps, n, t, key) && Answered(steps, n, t, result)
       case Recorded(h, key, result, ix) =>
         && Found(states, steps, n, t, call.id, h) && Minted(steps, n, t, key) && Answered(steps, n, t, result)
         && Took(states, steps, n, t, ix)
       case Returned(h, key, result, ix) =>
         && Found(states, steps, n, t, call.id, h) && Minted(steps, n, t, key) && Answered(steps, n, t, result)
         && Took(states, steps, n, t, ix)
  }

  /** The tool was registered under the id when the call looked it up. */
  ghost predicate Found(states: seq<State>, steps: seq<Step>, n: nat, t: nat, id: string, h: Handler)
    requires |states| == |steps| + 1 && n <= |steps|
  {
    exists i :: 0 <= i < n && steps[i] == Look(t) && id in states[i].tools && states[i].tools[id] == h
  }

  ghost predicate Minted(steps: seq<Step>, n: nat, t: nat, key: string)
    requires n <= |steps|
  {
    exists i :: 0 <= i < n && steps[i] == Mint(t, Some(key))
  }

  ghost predicate Answered(steps: seq<Step>, n: nat, t: nat, result: Json.Value)
    requires n <= |steps|
  {
    exists i :: 0 <= i < n && steps[i] == Answer(t, Some(result))
  }

  ghost predicate Took(states: seq<State>, steps: seq<Step>, n: nat, t: nat, ix: nat)
    requires |states| == |steps| + 1 && n <= |steps|
  {
    exists i :: 0 <= i < n && steps[i].Record? && steps[i].t == t && |states[i].entries| == ix
  }

  lemma {:induction false} CameOn(states: seq<State>, steps: seq<Step>, n: nat, t: nat, call: Call)
    requires |states| == |steps| + 1 && n < |steps| && Came(states, steps, n, t, call)
    ensures Came(states, steps, n + 1, t, call)
  {
  }

  /** Whatever a call holds at any point of a run, it has from its own steps: the
      result returned is the tool's answer, under the key minted for it. */
  lemma {:induction false} CallCame(p: Prim, secret: Bytes, start: seq<Entry>, states: seq<State>, steps: seq<Step>, n: nat, t: nat)
    requires Run(p, secret, start, states, steps) && n < |states| && t in states[n].calls
    ensures Came(states, steps, n, t, states[n].calls[t])
  {
    var last, e := n - 1, steps[n - 1];
    if t in states[last].calls {
      CallCame(p, secret, start, states, steps, last, t);
      CameOn(states, steps, last, t, states[last].calls[t]);
    }
    assert states[n] == Next(p, secret, states[last], e);
    assert steps[last] == e;
  }

  /** Idempotency keys come from a random source: no two recorded calls share one. */
  ghost predicate FreshKeys(s: State) {
    forall t, u :: t in s.calls && u in s.calls && Slot(s.calls[t].phase).Some? && Slot(s.calls[u].phase).Some? && t != u ==>
      s.calls[t].phase.key != s.calls[u].phase.key
  }

  /** With fresh keys, whatever the interleaving, the recorded ledger detects
      every edit, drop, reordering, repetition and splice before its end. */
  lemma {:induction false} RunsAreTamperEvident(p: Prim, secret: Bytes, states: seq<State>, steps: seq<Step>, n: nat, es: seq<Entry>)
    requires Lawful(p) && Run(p, secret, [], states, steps) && n < |states| && FreshKeys(states[n])
    requires CollisionFree(p, Bodies(p, es) + Bodies(p, states[n].entries))
    ensures SignedBy(p, es, states[n].entries) && Verifies(p, secret, es) <==> PrefixOf(es, states[n].entries)
  {
    RunKeepsInv(p, secret, [], states, steps, n);
    FreshKeysDistinct(p, secret, states[n]);
    VerifiesIffPrefix(p, secret, es, states[n].entries);
  }

  lemma {:induction false} FreshKeysDistinct(p: Prim, secret: Bytes, s: State)
    requires Inv(p, secret, [], s) && FreshKeys(s)
    ensures Distinct(s.entries)
  {
    forall i, j | 0 <= i < j < |s.entries|
      ensures Stripped(s.entries[i]) != Stripped(s.entries[j])
    {
      assert Owned(s, i) && Owned(s, j);
      var t :| t in s.calls && Slot(s.calls[t].phase) == Some(i);
      var u :| u in s.calls && Slot(s.calls[u].phase) == Some(j);
      assert OwnSlot(p, [], s, t) && OwnSlot(p, [], s, u);
      assert t != u;
      assert Stripped(s.entries[i]).key == s.calls[t].phase.key && Stripped(s.entries[j]).key == s.calls[u].phase.key;
    }
  }
}
