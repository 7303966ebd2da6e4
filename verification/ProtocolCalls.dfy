/** What every run says about each single call: which of its actions happened, how often, and
    in which order. */
module ProtocolCalls {
  import opened Documents
  import opened Protocol

  /** The landmarks of a call. */
  datatype Mark = Invoked | SnapshotTaken | FlagPassed | Began | CommitDone | Returned

  predicate IsReturn(e: Event) {
    || e.RefuseRead? || e.FailRead? || e.AbandonRead? || e.FinishFetch?
    || e.RejectDegraded? || e.RefuseCancelled? || e.Receive? || e.ReceiveError? || e.Abandon? || e.MarkDegraded?
  }

  predicate Marks(a: Action, id: Id, m: Mark) {
    match m
    case Invoked => a.Invoke? && a.id == id
    case SnapshotTaken => a.Do? && a.id == id && a.event.Snapshot?
    case FlagPassed => a.Do? && a.id == id && a.event.PassFlag?
    case Began => a.Do? && a.id == id && a.event.Start?
    case CommitDone => a.Do? && a.id == id && a.event.Commit?
    case Returned => a.Do? && a.id == id && IsReturn(a.event)
  }

  /** The indices at which a call's landmarks occurred, -1 for one that has not; repeated tells
      whether some landmark occurred twice. */
  datatype Landmarks = Landmarks(
    invoked: int, snapshot: int, passed: int, began: int, committed: int, returned: int, repeated: bool)

  const NOTHING := Landmarks(-1, -1, -1, -1, -1, -1, false)

  function Place(l: Landmarks, m: Mark): int {
    match m
    case Invoked => l.invoked
    case SnapshotTaken => l.snapshot
    case FlagPassed => l.passed
    case Began => l.began
    case CommitDone => l.committed
    case Returned => l.returned
  }

  function Note(l: Landmarks, i: nat, a: Action, id: Id): Landmarks {
    if Marks(a, id, Invoked) then l.(invoked := i, repeated := l.repeated || l.invoked >= 0)
    else if Marks(a, id, SnapshotTaken) then l.(snapshot := i, repeated := l.repeated || l.snapshot >= 0)
    else if Marks(a, id, FlagPassed) then l.(passed := i, repeated := l.repeated || l.passed >= 0)
    else if Marks(a, id, Began) then l.(began := i, repeated := l.repeated || l.began >= 0)
    else if Marks(a, id, CommitDone) then l.(committed := i, repeated := l.repeated || l.committed >= 0)
    else if Marks(a, id, Returned) then l.(returned := i, repeated := l.repeated || l.returned >= 0)
    else l
  }

  function LandmarksOf(trace: Trace, id: Id): Landmarks {
    if trace == [] then NOTHING
    else Note(LandmarksOf(trace[..|trace|-1], id), |trace| - 1, trace[|trace|-1], id)
  }

  lemma NotePlace(l: Landmarks, i: nat, a: Action, id: Id, m: Mark)
    ensures Place(Note(l, i, a, id), m) == if Marks(a, id, m) then i else Place(l, m)
    ensures !Note(l, i, a, id).repeated ==> !l.repeated && (Marks(a, id, m) ==> Place(l, m) < 0)
  {
  }

  /** Unless something was repeated, a landmark occurs exactly at its place. */
  lemma {:induction false} OccursAtPlace(trace: Trace, id: Id, m: Mark, i: nat)
    requires i < |trace| && !LandmarksOf(trace, id).repeated
    ensures Marks(trace[i], id, m) <==> i == Place(LandmarksOf(trace, id), m)
  {
    var before, a := trace[..|trace|-1], trace[|trace|-1];
    PlaceInTrace(before, id, m);
    NotePlace(LandmarksOf(before, id), |before|, a, id, m);
    if i < |before| {
      assert before[i] == trace[i];
      OccursAtPlace(before, id, m, i);
    }
  }

  lemma {:induction false} PlaceInTrace(trace: Trace, id: Id, m: Mark)
    ensures -1 <= Place(LandmarksOf(trace, id), m) < |trace|
  {
    if trace != [] {
      var before := trace[..|trace|-1];
      PlaceInTrace(before, id, m);
      NotePlace(LandmarksOf(before, id), |before|, trace[|trace|-1], id, m);
    }
  }

  predicate HasTxn(pc: Pc) {
    || pc.Waiting? || pc.TimingOut?
    || (pc.Done? && (pc.outcome.Written? || pc.outcome.WriteFailed? || pc.outcome.Abandoned? || pc.outcome.TimedOut?))
  }

  predicate BeforeFlag(pc: Pc) {
    pc.Called? || pc.Reading? || pc.Read? || pc.Ready?
  }

  predicate BetweenFlagAndStart(pc: Pc) {
    pc.Tested? || pc.Checked?
  }

  /** If the landmark at place j occurred, the one at place i occurred before it. */
  predicate Earlier(i: int, j: int) {
    j >= 0 ==> 0 <= i < j
  }

  predicate BothInOrder(i: int, j: int) {
    i >= 0 && j >= 0 ==> i < j
  }

  /** The order of the landmarks, whatever the outcome. */
  predicate Ordered(l: Landmarks) {
    && !l.repeated
    && Earlier(l.invoked, l.snapshot)
    && Earlier(l.invoked, l.passed)
    && Earlier(l.passed, l.began)
    && Earlier(l.began, l.committed)
    && Earlier(l.invoked, l.returned)
    && BothInOrder(l.snapshot, l.passed)
    && BothInOrder(l.snapshot, l.returned)
    && BothInOrder(l.began, l.returned)
  }

  /** How a call's program counter and transaction reflect its landmarks. */
  predicate Reflects(l: Landmarks, c: Call, txns: map<Id, Txn>, id: Id) {
    && l.invoked >= 0
    && (l.returned >= 0 <==> c.pc.Done?)
    && (l.began >= 0 <==> id in txns)
    && (l.began >= 0 <==> HasTxn(c.pc))
    && (l.committed >= 0 <==> id in txns && txns[id].Committed?)
    && (BeforeFlag(c.pc) ==> l.passed < 0)
    && (BetweenFlagAndStart(c.pc) ==> l.passed >= 0)
    && (c.pc.Called? || c.pc.Reading? ==> l.snapshot < 0)
    && (c.pc.Read? || (c.pc.Done? && c.pc.outcome.Fetched?) ==> l.snapshot >= 0)
    && (c.op.PatchOp? && (c.pc.Ready? || BetweenFlagAndStart(c.pc) || HasTxn(c.pc)) ==> l.snapshot >= 0)
    && (c.pc == Done(Written) ==> l.committed >= 0 && l.committed < l.returned)
    && (c.pc == Done(WriteFailed) ==> id in txns && txns[id].Aborted?)
    && (c.pc.Done? && c.pc.outcome.Fetched? ==> c.op.FetchOp?)
  }

  ghost predicate CallInv(l: Landmarks, s: State, id: Id) {
    Ordered(l) && if id in s.calls then Reflects(l, s.calls[id], s.txns, id) else id !in s.txns && l == NOTHING
  }

  predicate InThePast(l: Landmarks, n: nat) {
    l.invoked < n && l.snapshot < n && l.passed < n && l.began < n && l.committed < n && l.returned < n
  }

  lemma LandmarksInThePast(trace: Trace, id: Id)
    ensures InThePast(LandmarksOf(trace, id), |trace|)
  {
    PlaceInTrace(trace, id, Invoked);
    PlaceInTrace(trace, id, SnapshotTaken);
    PlaceInTrace(trace, id, FlagPassed);
    PlaceInTrace(trace, id, Began);
    PlaceInTrace(trace, id, CommitDone);
    PlaceInTrace(trace, id, Returned);
  }

  predicate About(a: Action, id: Id) {
    (a.Do? || a.Invoke?) && a.id == id
  }

  /** An action of another call, or of the environment, leaves a call and its transaction alone. */
  lemma OthersUntouched(cfg: Config, s: State, a: Action, s': State, id: Id)
    requires Next(cfg, s, a) == Some(s') && !About(a, id)
    ensures id in s.calls <==> id in s'.calls
    ensures id in s.calls ==> s.calls[id] == s'.calls[id]
    ensures id in s.txns <==> id in s'.txns
    ensures id in s.txns ==> s.txns[id] == s'.txns[id]
  {
    if a.Do? && IsReadEvent(a.event) {
      ReadStepOnlyPc(cfg, s, a.id, a.event, s');
    } else if a.Do? && IsGateEvent(a.event) {
      GateStepOnlyPc(cfg, s, a.id, a.event, s');
    } else if a.Do? {
      TxnStepKeeps(cfg, s, a.id, a.event, s');
    }
  }

  lemma CallInvReadBegins(cfg: Config, l: Landmarks, n: nat, s: State, id: Id, e: Event, s': State)
    requires CallInv(l, s, id) && InThePast(l, n) && id in s.calls
    requires e.BeginRead? || e.RefuseRead? || e.Snapshot?
    requires ReadStep(cfg, s, id, e) == Some(s')
    ensures CallInv(Note(l, n, Do(id, e), id), s', id)
  {
  }

  lemma CallInvReadEnds(cfg: Config, l: Landmarks, n: nat, s: State, id: Id, e: Event, s': State)
    requires CallInv(l, s, id) && InThePast(l, n) && id in s.calls
    requires e.FailRead? || e.AbandonRead? || e.FinishFetch? || e.FinishPatchRead?
    requires ReadStep(cfg, s, id, e) == Some(s')
    ensures CallInv(Note(l, n, Do(id, e), id), s', id)
  {
    ReadStepOnlyPc(cfg, s, id, e, s');
  }

  lemma CallInvGate(cfg: Config, l: Landmarks, n: nat, s: State, id: Id, e: Event, s': State)
    requires CallInv(l, s, id) && InThePast(l, n) && id in s.calls
    requires IsGateEvent(e) && GateStep(cfg, s, id, e) == Some(s')
    ensures CallInv(Note(l, n, Do(id, e), id), s', id)
  {
    GateStepOnlyPc(cfg, s, id, e, s');
  }

  lemma CallInvTxn(cfg: Config, l: Landmarks, n: nat, s: State, id: Id, e: Event, s': State)
    requires CallInv(l, s, id) && InThePast(l, n) && id in s.calls
    requires e.Start? || e.Commit? || e.Abort?
    requires TxnStep(cfg, s, id, e) == Some(s')
    ensures CallInv(Note(l, n, Do(id, e), id), s', id)
  {
  }

  lemma CallInvSelect(cfg: Config, l: Landmarks, n: nat, s: State, id: Id, e: Event, s': State)
    requires CallInv(l, s, id) && InThePast(l, n) && id in s.calls
    requires !e.Start? && !e.Commit? && !e.Abort?
    requires TxnStep(cfg, s, id, e) == Some(s')
    ensures CallInv(Note(l, n, Do(id, e), id), s', id)
  {
  }

  lemma StepKeepsCallInv(cfg: Config, l: Landmarks, n: nat, s: State, a: Action, s': State, id: Id)
    requires CallInv(l, s, id) && InThePast(l, n) && Next(cfg, s, a) == Some(s')
    ensures CallInv(Note(l, n, a, id), s', id)
  {
    if !About(a, id) {
      OthersUntouched(cfg, s, a, s', id);
    } else if a.Do? && (a.event.BeginRead? || a.event.RefuseRead? || a.event.Snapshot?) {
      CallInvReadBegins(cfg, l, n, s, id, a.event, s');
    } else if a.Do? && IsReadEvent(a.event) {
      CallInvReadEnds(cfg, l, n, s, id, a.event, s');
    } else if a.Do? && IsGateEvent(a.event) {
      CallInvGate(cfg, l, n, s, id, a.event, s');
    } else if a.Do? && !a.event.Start? && !a.event.Commit? && !a.event.Abort? {
      CallInvSelect(cfg, l, n, s, id, a.event, s');
    } else if a.Do? {
      CallInvTxn(cfg, l, n, s, id, a.event, s');
    }
  }

  /** The invariant of every call in every run. */
  lemma {:induction false} CallInvHolds(cfg: Config, trace: Trace, id: Id)
    requires Run(cfg, trace).Some?
    ensures CallInv(LandmarksOf(trace, id), Run(cfg, trace).value, id)
    decreases |trace|
  {
    if trace != [] {
      LastStep(cfg, trace);
      var before, a := trace[..|trace|-1], trace[|trace|-1];
      CallInvHolds(cfg, before, id);
      LandmarksInThePast(before, id);
      StepKeepsCallInv(cfg, LandmarksOf(before, id), |before|, Run(cfg, before).value, a, Run(cfg, trace).value, id);
    }
  }

  /** The clock before a landmark, or 0 if it has not occurred. */
  ghost function TimeOf(cfg: Config, trace: Trace, id: Id, m: Mark): int
    requires Run(cfg, trace).Some?
  {
    PlaceInTrace(trace, id, m);
    if Place(LandmarksOf(trace, id), m) < 0 then 0 else ClockAt(cfg, trace, Place(LandmarksOf(trace, id), m))
  }

  lemma TimeOfExtended(cfg: Config, trace: Trace, id: Id, m: Mark)
    requires trace != [] && Run(cfg, trace).Some?
    ensures Run(cfg, trace[..|trace|-1]).Some?
    ensures TimeOf(cfg, trace, id, m) ==
            if Marks(trace[|trace|-1], id, m) then Run(cfg, trace[..|trace|-1]).value.now
            else TimeOf(cfg, trace[..|trace|-1], id, m)
  {
    LastStep(cfg, trace);
    var before := trace[..|trace|-1];
    PlaceInTrace(before, id, m);
    NotePlace(LandmarksOf(before, id), |before|, trace[|trace|-1], id, m);
    var i := Place(LandmarksOf(trace, id), m);
    if 0 <= i < |before| {
      ClockInPrefix(cfg, trace, |before|, i);
    }
  }
}
