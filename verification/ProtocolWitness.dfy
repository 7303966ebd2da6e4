/** Runs that show what the protocol does not promise, and that a bound is reached. */
module ProtocolWitness {
  import opened Documents
  import opened ServiceSpec
  import opened Protocol
  import opened ProtocolBreaker

  lemma OneStep(cfg: Config, trace: Trace, s: State, a: Action) returns (longer: Trace, s': State)
    requires Run(cfg, trace) == Some(s) && Next(cfg, s, a).Some?
    ensures longer == trace + [a] && Run(cfg, longer) == Some(s') && Next(cfg, s, a) == Some(s')
  {
    RunExtended(cfg, trace, a);
    longer, s' := trace + [a], Next(cfg, s, a).value;
  }

  lemma ReadOneStep(cfg: Config, trace: Trace, s: State, id: Id, e: Event) returns (longer: Trace, s': State)
    requires Run(cfg, trace) == Some(s) && id in s.calls && IsReadEvent(e) && ReadStep(cfg, s, id, e).Some?
    ensures Run(cfg, longer) == Some(s') && ReadStep(cfg, s, id, e) == Some(s')
  {
    longer, s' := OneStep(cfg, trace, s, Do(id, e));
  }

  lemma PassContextStep(cfg: Config, trace: Trace, s: State, id: Id) returns (longer: Trace, s': State)
    requires Run(cfg, trace) == Some(s) && id in s.calls && s.calls[id].pc.Tested? && id !in s.cancelled
    ensures longer == trace + [Do(id, PassContext)] && Run(cfg, longer) == Some(s')
    ensures s' == At(s, id, Checked(s.calls[id].pc.write))
  {
    longer, s' := OneStep(cfg, trace, s, Do(id, PassContext));
  }

  lemma StartStep(cfg: Config, trace: Trace, s: State, id: Id) returns (longer: Trace, s': State)
    requires Run(cfg, trace) == Some(s) && id in s.calls && s.calls[id].pc.Checked?
    ensures longer == trace + [Do(id, Start)] && Run(cfg, longer) == Some(s')
    ensures s' == At(s, id, Waiting(s.now)).(
                    txns := s.txns[id := Pending(s.calls[id].key, s.calls[id].pc.write, s.now)])
  {
    longer, s' := OneStep(cfg, trace, s, Do(id, Start));
  }

  lemma GapAfterPass(s: State, id: Id)
    requires id in InTheGap(s)
    ensures InTheGap(At(s, id, Checked(s.calls[id].pc.write))) == InTheGap(s)
  {
  }

  lemma GapAfterStart(s: State, id: Id, s': State)
    requires id in s.calls && s'.calls == s.calls[id := s.calls[id].(pc := Waiting(s.now))]
    ensures InTheGap(s') == InTheGap(s) - {id}
  {
  }

  lemma StartsOf(steps: seq<Action>, a: Action)
    ensures Starts(steps + [a]) == Starts(steps) + if IsStart(a) then 1 else 0
  {
    assert (steps + [a])[..|steps|] == steps;
  }

  /** What a call in the gap still has to do to start its transaction. */
  function GapSteps(pc: Pc, id: Id): seq<Action> {
    if pc.Tested? then [Do(id, PassContext)] + [Do(id, Start)] else [] + [Do(id, Start)]
  }

  lemma GapStepsStartOnce(pc: Pc, id: Id)
    ensures NoReset(GapSteps(pc, id)) && Starts(GapSteps(pc, id)) == 1
  {
    StartsOf([], Do(id, PassContext));
    assert [] + [Do(id, PassContext)] == [Do(id, PassContext)];
    StartsOf([Do(id, PassContext)], Do(id, Start));
    StartsOf([], Do(id, Start));
  }

  /** A call in the gap that is not cancelled can go on and start its transaction. */
  lemma LeaveGap(cfg: Config, trace: Trace, s: State, id: Id) returns (longer: Trace, s': State, steps: seq<Action>)
    requires Run(cfg, trace) == Some(s) && id in InTheGap(s) && id !in s.cancelled
    ensures longer == trace + steps && Run(cfg, longer) == Some(s') && NoReset(steps) && Starts(steps) == 1
    ensures InTheGap(s') == InTheGap(s) - {id} && s'.cancelled == s.cancelled
  {
    steps := GapSteps(s.calls[id].pc, id);
    GapStepsStartOnce(s.calls[id].pc, id);
    if s.calls[id].pc.Tested? {
      var t0, s0 := PassContextStep(cfg, trace, s, id);
      GapAfterPass(s, id);
      longer, s' := StartStep(cfg, t0, s0, id);
      GapAfterStart(s0, id, s');
      assert longer == trace + ([Do(id, PassContext)] + [Do(id, Start)]);
    } else {
      longer, s' := StartStep(cfg, trace, s, id);
      GapAfterStart(s, id, s');
    }
  }

  lemma {:induction false} StartsConcat(a: seq<Action>, b: seq<Action>)
    ensures Starts(a + b) == Starts(a) + Starts(b)
    decreases |b|
  {
    if b == [] {
      assert a + b == a;
    } else {
      assert (a + b)[..|a + b|-1] == a + b[..|b|-1];
      StartsConcat(a, b[..|b|-1]);
    }
  }

  /** The bound on starts after a timeout is reached: if none of the calls in the gap is
      cancelled, the run can be prolonged, without a reset, so that all of them start. */
  lemma {:induction false} BreakerBoundIsReached(cfg: Config, trace: Trace, s: State) returns (steps: seq<Action>)
    requires Run(cfg, trace) == Some(s) && InTheGap(s) !! s.cancelled
    ensures Run(cfg, trace + steps).Some? && NoReset(steps) && Starts(steps) == |InTheGap(s)|
    decreases |InTheGap(s)|
  {
    if InTheGap(s) == {} {
      steps := [];
      assert trace + steps == trace;
    } else {
      var id :| id in InTheGap(s);
      var longer, s', first := LeaveGap(cfg, trace, s, id);
      var rest := BreakerBoundIsReached(cfg, longer, s');
      steps := first + rest;
      assert trace + steps == longer + rest;
      StartsConcat(first, rest);
    }
  }

  lemma PassFlagStep(cfg: Config, trace: Trace, s: State, id: Id) returns (longer: Trace, s': State)
    requires Run(cfg, trace) == Some(s) && id in s.calls && s.calls[id].pc.Ready? && !s.degraded
    ensures Run(cfg, longer) == Some(s') && s' == At(s, id, Tested(s.calls[id].pc.write))
  {
    longer, s' := OneStep(cfg, trace, s, Do(id, PassFlag));
  }

  lemma CommitAndReceive(cfg: Config, trace: Trace, s: State, id: Id) returns (longer: Trace, s': State)
    requires Run(cfg, trace) == Some(s) && id in s.calls && s.calls[id].pc.Waiting?
    requires id in s.txns && s.txns[id].Pending? && s.txns[id].since == s.now
    ensures Run(cfg, longer) == Some(s')
    ensures s' == At(s, id, Done(Written)).(db := Commit1(s.db, s.txns[id].key, s.txns[id].write, s.now + cfg.ttl),
                                            txns := s.txns[id := Committed])
  {
    longer, s' := OneStep(cfg, trace, s, Do(id, Commit(s.now)));
    longer, s' := OneStep(cfg, longer, s', Do(id, Receive));
  }

  /** A prepared write that meets no obstacle commits and returns nil. */
  lemma WriteThrough(cfg: Config, trace: Trace, s: State, id: Id) returns (longer: Trace, s': State)
    requires Run(cfg, trace) == Some(s) && id in s.calls && s.calls[id].pc.Ready?
    requires !s.degraded && id !in s.cancelled
    ensures Run(cfg, longer) == Some(s')
    ensures s'.calls == s.calls[id := s.calls[id].(pc := Done(Written))]
    ensures s'.db == Commit1(s.db, s.calls[id].key, s.calls[id].pc.write, s.now + cfg.ttl)
    ensures s'.degraded == s.degraded && s'.cancelled == s.cancelled && s'.now == s.now
  {
    longer, s' := PassFlagStep(cfg, trace, s, id);
    longer, s' := PassContextStep(cfg, longer, s', id);
    longer, s' := StartStep(cfg, longer, s', id);
    longer, s' := CommitAndReceive(cfg, longer, s', id);
  }

  lemma CallPatch(cfg: Config, trace: Trace, s: State, id: Id, key: Key, op: Op)
    returns (longer: Trace, s': State)
    requires Run(cfg, trace) == Some(s) && id !in s.calls && id !in s.cancelled && op.PatchOp?
    ensures Run(cfg, longer) == Some(s')
    ensures s' == s.(calls := s.calls[id := Call(key, op, true, Reading(s.now))])
  {
    longer, s' := OneStep(cfg, trace, s, Invoke(id, key, op, true));
    longer, s' := ReadOneStep(cfg, longer, s', id, BeginRead);
  }

  /** A patch that is called and finds nothing. */
  lemma CallAndRead(cfg: Config, trace: Trace, s: State, id: Id, key: Key, op: Op)
    returns (longer: Trace, s': State)
    requires Run(cfg, trace) == Some(s) && id !in s.calls && id !in s.cancelled && key !in s.db
    requires op.PatchOp?
    ensures Run(cfg, longer) == Some(s')
    ensures s' == s.(calls := s.calls[id := Call(key, op, true, Ready(Payload(cfg, op, None, s.now)))])
  {
    longer, s' := CallPatch(cfg, trace, s, id, key, op);
    longer, s' := ReadOneStep(cfg, longer, s', id, Snapshot);
    longer, s' := ReadOneStep(cfg, longer, s', id, FinishPatchRead);
  }

  /** A single patch stores its document. */
  lemma PatchStores(cfg: Config, path: string, params: map<string, string>) returns (trace: Trace, s: State)
    ensures Run(cfg, trace) == Some(s) && "k" in s.db
    ensures s.db["k"].doc == PatchedDocument(map[], Patch(path, params, cfg.format(0)))
  {
    assert Run(cfg, []) == Some(INITIAL);
    trace, s := CallAndRead(cfg, [], INITIAL, 0, "k", PatchOp(path, params));
    trace, s := WriteThrough(cfg, trace, s, 0);
  }

  /** A lost update: two patches of one key both return nil, yet the document has only what the
      second one wrote, whereas applied one after the other they give both parameters. */
  lemma LostUpdate(cfg: Config) returns (trace: Trace, s: State)
    ensures Run(cfg, trace) == Some(s)
    ensures 0 in s.calls && s.calls[0].pc == Done(Written) && s.calls[0].op == PatchOp("", map["a" := "1"])
    ensures 1 in s.calls && s.calls[1].pc == Done(Written) && s.calls[1].op == PatchOp("", map["b" := "2"])
    ensures "k" in s.db && "b" in s.db["k"].doc && "a" !in s.db["k"].doc
    ensures forall x, y :: "a" in PatchAll(map[], [Patch("", map["a" := "1"], x), Patch("", map["b" := "2"], y)])
  {
    assert Run(cfg, []) == Some(INITIAL);
    trace, s := CallAndRead(cfg, [], INITIAL, 0, "k", PatchOp("", map["a" := "1"]));
    trace, s := CallAndRead(cfg, trace, s, 1, "k", PatchOp("", map["b" := "2"]));
    trace, s := WriteThrough(cfg, trace, s, 0);
    trace, s := WriteThrough(cfg, trace, s, 1);
    forall x, y ensures "a" in PatchAll(map[], [Patch("", map["a" := "1"], x), Patch("", map["b" := "2"], y)]) {
      var p, q := Patch("", map["a" := "1"], x), Patch("", map["b" := "2"], y);
      assert [p, q][1..] == [q] && [q][1..] == [];
      assert PatchAll(map[], [p, q]) == PatchAll(PatchedDocument(map[], p), [q]);
      assert PatchAll(PatchedDocument(map[], p), [q]) == PatchedDocument(PatchedDocument(map[], p), q);
    }
  }
}
