/** What a call has read and what it hands to its transaction. */
module ProtocolPayload {
  import opened Documents
  import opened Protocol
  import opened ProtocolCalls

  /** What a payload is made of: what the snapshot of the call saw, and the clock reading the
      payload is stamped with. */
  datatype Inputs = Inputs(seen: Option<Fields>, stamp: int)

  predicate MakesPayload(a: Action, id: Id) {
    a.Do? && a.id == id && (a.event.Prepare? || a.event.FinishPatchRead?)
  }

  function Take(s: State, i: Inputs, a: Action, id: Id): Inputs {
    if Marks(a, id, SnapshotTaken) && id in s.calls then i.(seen := Visible(s.db, s.calls[id].key, s.now))
    else if MakesPayload(a, id) then i.(stamp := s.now)
    else i
  }

  function InputsOf(cfg: Config, trace: Trace, id: Id): Inputs {
    if trace == [] then Inputs(None, 0)
    else
      var before := trace[..|trace|-1];
      match Run(cfg, before)
      case Some(s) => Take(s, InputsOf(cfg, before, id), trace[|trace|-1], id)
      case None => Inputs(None, 0)
  }

  /** What the call's snapshot saw. */
  function Seen(cfg: Config, trace: Trace, id: Id): Option<Fields> {
    InputsOf(cfg, trace, id).seen
  }

  function PayloadOf(cfg: Config, op: Op, i: Inputs): Write {
    Payload(cfg, op, i.seen, i.stamp)
  }

  predicate CarriesPayload(pc: Pc) {
    pc.Ready? || pc.Tested? || pc.Checked?
  }

  predicate PayloadInv(cfg: Config, s: State, id: Id, i: Inputs) {
    id in s.calls ==>
      var c := s.calls[id];
      && (c.pc.Read? ==> c.pc.found == i.seen)
      && (c.pc.Done? && c.pc.outcome.Fetched? ==> c.pc.outcome.found == i.seen)
      && (CarriesPayload(c.pc) ==> c.pc.write == PayloadOf(cfg, c.op, i))
      && (id in s.txns && s.txns[id].Pending? ==>
            s.txns[id].key == c.key && s.txns[id].write == PayloadOf(cfg, c.op, i))
  }

  lemma PayloadInvRead(cfg: Config, l: Landmarks, s: State, id: Id, e: Event, s': State, i: Inputs)
    requires CallInv(l, s, id) && PayloadInv(cfg, s, id, i) && id in s.calls && ReadStep(cfg, s, id, e) == Some(s')
    ensures PayloadInv(cfg, s', id, Take(s, i, Do(id, e), id))
  {
    ReadStepOnlyPc(cfg, s, id, e, s');
  }

  lemma PayloadInvGate(cfg: Config, s: State, id: Id, e: Event, s': State, i: Inputs)
    requires PayloadInv(cfg, s, id, i) && id in s.calls && GateStep(cfg, s, id, e) == Some(s')
    requires s.calls[id].pc.Called? ==> id !in s.txns
    ensures PayloadInv(cfg, s', id, Take(s, i, Do(id, e), id))
  {
    GateStepOnlyPc(cfg, s, id, e, s');
  }

  lemma PayloadInvTxn(cfg: Config, s: State, id: Id, e: Event, s': State, i: Inputs)
    requires PayloadInv(cfg, s, id, i) && id in s.calls && TxnStep(cfg, s, id, e) == Some(s')
    ensures PayloadInv(cfg, s', id, i)
  {
    TxnStepKeeps(cfg, s, id, e, s');
  }

  lemma StepKeepsPayloadInv(cfg: Config, l: Landmarks, s: State, a: Action, s': State, id: Id, i: Inputs)
    requires CallInv(l, s, id) && PayloadInv(cfg, s, id, i) && Next(cfg, s, a) == Some(s')
    ensures PayloadInv(cfg, s', id, Take(s, i, a, id))
  {
    if !About(a, id) {
      OthersUntouched(cfg, s, a, s', id);
    } else if a.Do? && IsReadEvent(a.event) {
      PayloadInvRead(cfg, l, s, id, a.event, s', i);
    } else if a.Do? && IsGateEvent(a.event) {
      PayloadInvGate(cfg, s, id, a.event, s', i);
    } else if a.Do? {
      PayloadInvTxn(cfg, s, id, a.event, s', i);
    }
  }

  lemma {:induction false} PayloadInvHolds(cfg: Config, trace: Trace, id: Id)
    requires Run(cfg, trace).Some?
    ensures PayloadInv(cfg, Run(cfg, trace).value, id, InputsOf(cfg, trace, id))
    decreases |trace|
  {
    if trace != [] {
      LastStep(cfg, trace);
      var before, a := trace[..|trace|-1], trace[|trace|-1];
      CallInvHolds(cfg, before, id);
      PayloadInvHolds(cfg, before, id);
      StepKeepsPayloadInv(cfg, LandmarksOf(before, id), Run(cfg, before).value, a, Run(cfg, trace).value, id,
                          InputsOf(cfg, before, id));
    }
  }

  /** Once the transaction has been started, neither the snapshot nor the stamp changes. */
  lemma {:induction false} InputsKept(cfg: Config, trace: Trace, id: Id, n: nat)
    requires Run(cfg, trace).Some? && 0 <= LandmarksOf(trace, id).began < n <= |trace|
    ensures InputsOf(cfg, trace[..n], id) == InputsOf(cfg, trace, id)
    decreases |trace|
  {
    if n == |trace| {
      assert trace[..n] == trace;
    } else {
      LastStep(cfg, trace);
      var before, a := trace[..|trace|-1], trace[|trace|-1];
      assert before[..n] == trace[..n];
      CallInvHolds(cfg, trace, id);
      OccursAtPlace(trace, id, Began, |trace| - 1);
      CallInvHolds(cfg, before, id);
      InputsKept(cfg, before, id, n);
      StartedTakesNothing(cfg, LandmarksOf(before, id), Run(cfg, before).value, a, Run(cfg, trace).value, id);
    }
  }

  lemma StartedTakesNothing(cfg: Config, l: Landmarks, s: State, a: Action, s': State, id: Id)
    requires CallInv(l, s, id) && l.began >= 0 && Next(cfg, s, a) == Some(s')
    ensures !Marks(a, id, SnapshotTaken) && !MakesPayload(a, id)
  {
  }

  /** A call invoked at one clock reading and started at another stamps its payload in between. */
  predicate StampInv(s: State, id: Id, called: int, started: int, stamp: int) {
    id in s.calls ==>
      && called <= s.now
      && (CarriesPayload(s.calls[id].pc) ==> called <= stamp <= s.now)
      && (id in s.txns ==> called <= stamp <= started)
  }

  lemma StampInvRead(cfg: Config, s: State, id: Id, e: Event, s': State, called: int, started: int, i: Inputs)
    requires id in s.calls && ReadStep(cfg, s, id, e) == Some(s') && StampInv(s, id, called, started, i.stamp)
    requires !HasTxn(s.calls[id].pc) ==> id !in s.txns
    ensures StampInv(s', id, called, started, Take(s, i, Do(id, e), id).stamp)
  {
  }

  lemma StampInvGate(cfg: Config, s: State, id: Id, e: Event, s': State, called: int, started: int, i: Inputs)
    requires id in s.calls && GateStep(cfg, s, id, e) == Some(s') && StampInv(s, id, called, started, i.stamp)
    requires !HasTxn(s.calls[id].pc) ==> id !in s.txns
    ensures StampInv(s', id, called, started, Take(s, i, Do(id, e), id).stamp)
  {
  }

  lemma StampInvTxn(cfg: Config, s: State, id: Id, e: Event, s': State, called: int, started: int, stamp: int)
    requires id in s.calls && TxnStep(cfg, s, id, e) == Some(s') && StampInv(s, id, called, started, stamp)
    requires e.Start? ==> started == s.now
    ensures StampInv(s', id, called, started, stamp)
  {
  }

  lemma StepKeepsStampInv(cfg: Config, l: Landmarks, s: State, a: Action, s': State, id: Id, called: int, started: int,
                          i: Inputs)
    requires CallInv(l, s, id) && Next(cfg, s, a) == Some(s')
    requires id in s.calls ==> StampInv(s, id, called, started, i.stamp)
    requires Marks(a, id, Invoked) ==> called == s.now
    requires Marks(a, id, Began) ==> started == s.now
    ensures StampInv(s', id, called, started, Take(s, i, a, id).stamp)
  {
    if !About(a, id) {
      StepClock(cfg, s, a, s');
      OthersUntouched(cfg, s, a, s', id);
    } else if a.Do? && IsReadEvent(a.event) {
      StampInvRead(cfg, s, id, a.event, s', called, started, i);
    } else if a.Do? && IsGateEvent(a.event) {
      StampInvGate(cfg, s, id, a.event, s', called, started, i);
    } else if a.Do? {
      StampInvTxn(cfg, s, id, a.event, s', called, started, i.stamp);
    }
  }

  lemma {:induction false} StampInvHolds(cfg: Config, trace: Trace, id: Id)
    requires Run(cfg, trace).Some?
    ensures StampInv(Run(cfg, trace).value, id, TimeOf(cfg, trace, id, Invoked), TimeOf(cfg, trace, id, Began),
                     InputsOf(cfg, trace, id).stamp)
    decreases |trace|
  {
    if trace != [] {
      LastStep(cfg, trace);
      var before, a := trace[..|trace|-1], trace[|trace|-1];
      StampInvHolds(cfg, before, id);
      CallInvHolds(cfg, before, id);
      TimeOfExtended(cfg, trace, id, Invoked);
      TimeOfExtended(cfg, trace, id, Began);
      InvokedOnce(cfg, LandmarksOf(before, id), Run(cfg, before).value, a, Run(cfg, trace).value, id);
      StepKeepsStampInv(cfg, LandmarksOf(before, id), Run(cfg, before).value, a, Run(cfg, trace).value, id,
                        TimeOf(cfg, trace, id, Invoked), TimeOf(cfg, trace, id, Began), InputsOf(cfg, before, id));
    }
  }

  lemma InvokedOnce(cfg: Config, l: Landmarks, s: State, a: Action, s': State, id: Id)
    requires CallInv(l, s, id) && Next(cfg, s, a) == Some(s')
    ensures Marks(a, id, Invoked) ==> id !in s.calls
    ensures Marks(a, id, Began) ==> id !in s.txns
  {
  }

  /** A started transaction carries a payload stamped between the invocation and the start. */
  lemma StampedInTime(cfg: Config, trace: Trace, id: Id)
    requires Run(cfg, trace).Some? && LandmarksOf(trace, id).began >= 0
    ensures TimeOf(cfg, trace, id, Invoked) <= InputsOf(cfg, trace, id).stamp <= TimeOf(cfg, trace, id, Began)
  {
    StampInvHolds(cfg, trace, id);
    CallInvHolds(cfg, trace, id);
  }

  /** A call keeps its key and operation for ever. */
  lemma StepKeepsCalls(cfg: Config, s: State, a: Action, s': State, id: Id)
    requires Next(cfg, s, a) == Some(s') && id in s.calls
    ensures id in s'.calls && s'.calls[id].key == s.calls[id].key && s'.calls[id].op == s.calls[id].op
  {
    if a.Do? && IsReadEvent(a.event) {
      ReadStepOnlyPc(cfg, s, a.id, a.event, s');
    } else if a.Do? && IsGateEvent(a.event) {
      GateStepOnlyPc(cfg, s, a.id, a.event, s');
    } else if a.Do? {
      TxnStepKeeps(cfg, s, a.id, a.event, s');
    }
  }

  lemma {:induction false} CallsKept(cfg: Config, trace: Trace, n: nat, id: Id)
    requires Run(cfg, trace).Some? && n <= |trace|
    requires Run(cfg, trace[..n]).Some? && id in Run(cfg, trace[..n]).value.calls
    ensures id in Run(cfg, trace).value.calls
    ensures Run(cfg, trace).value.calls[id].key == Run(cfg, trace[..n]).value.calls[id].key
    ensures Run(cfg, trace).value.calls[id].op == Run(cfg, trace[..n]).value.calls[id].op
    decreases |trace|
  {
    if n == |trace| {
      assert trace[..n] == trace;
    } else {
      LastStep(cfg, trace);
      var before := trace[..|trace|-1];
      assert before[..n] == trace[..n];
      CallsKept(cfg, before, n, id);
      StepKeepsCalls(cfg, Run(cfg, before).value, trace[|trace|-1], Run(cfg, trace).value, id);
    }
  }

  /** What the snapshot saw is what the key held, unexpired, when the snapshot was taken. */
  lemma {:induction false} SeenAtSnapshot(cfg: Config, trace: Trace, id: Id)
    requires Run(cfg, trace).Some? && LandmarksOf(trace, id).snapshot >= 0
    ensures var i := LandmarksOf(trace, id).snapshot;
      && i < |trace| && Run(cfg, trace[..i]).Some?
      && id in Run(cfg, trace[..i]).value.calls
      && var s := Run(cfg, trace[..i]).value;
         Seen(cfg, trace, id) == Visible(s.db, s.calls[id].key, s.now)
    decreases |trace|
  {
    LastStep(cfg, trace);
    LandmarksInThePast(trace, id);
    var before, a := trace[..|trace|-1], trace[|trace|-1];
    var i := LandmarksOf(trace, id).snapshot;
    if Marks(a, id, SnapshotTaken) {
      assert trace[..i] == before;
    } else {
      SeenAtSnapshot(cfg, before, id);
      assert before[..i] == trace[..i];
    }
  }
}
