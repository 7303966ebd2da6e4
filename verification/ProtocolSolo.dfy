/** A call that nobody interferes with: exactly how it may end. This is the contract of the
    service as an object that serves one call at a time. */
module ProtocolSolo {
  import opened Documents
  import opened Protocol
  import opened ProtocolCalls

  /** What a call finds when it is made, and leaves when it returns: the storage, the clock, and
      whether its context is cancelled. */
  datatype Situation = Situation(db: Database, degraded: bool, now: int, cancelled: bool)

  function SituationOf(s: State, id: Id): Situation {
    Situation(s.db, s.degraded, s.now, id in s.cancelled)
  }

  predicate Reads(op: Op) {
    op.PatchOp? || op.FetchOp?
  }

  /** How the database may be left. */
  predicate MayLeave(cfg: Config, key: Key, op: Op, before: Database, t: Times, outcome: Outcome, after: Database) {
    match outcome
    case Written => after == CommitAlone(cfg, before, key, op, t)
    case TimedOut => after == before || after == CommitAlone(cfg, before, key, op, t)
    case Abandoned => after == before || after == CommitAlone(cfg, before, key, op, t)
    case _ => after == before
  }

  /** When an outcome is possible. */
  predicate MayReturn(cfg: Config, key: Key, op: Op, hasDeadline: bool, before: Situation, t: Times, outcome: Outcome,
                      after: Situation) {
    match outcome
    case Written => !op.FetchOp? && !before.degraded && !before.cancelled
    case WriteFailed => !op.FetchOp? && !before.degraded && !before.cancelled
    case TimedOut =>
      !op.FetchOp? && !before.degraded && !before.cancelled && t.stamp + cfg.writeTimeout <= after.now
    case Abandoned => !op.FetchOp? && !before.degraded && !before.cancelled && after.cancelled
    case Rejected => !op.FetchOp? && before.degraded && (op.PatchOp? ==> !before.cancelled)
    case NotStarted => !op.FetchOp? && !before.degraded && after.cancelled && (op.PatchOp? ==> !before.cancelled)
    case Fetched(found) => op.FetchOp? && !before.cancelled && found == Visible(before.db, key, t.read)
    case ReadFailed => Reads(op) && !before.cancelled
    case ReadNotStarted => Reads(op) && after.cancelled
    case ReadAbandoned =>
      Reads(op) && !before.cancelled && (after.cancelled || (!hasDeadline && before.now + cfg.readTimeout <= after.now))
  }

  /** How a call may end. */
  predicate MayEnd(cfg: Config, key: Key, op: Op, hasDeadline: bool, before: Situation, t: Times, outcome: Outcome,
                   after: Situation) {
    && before.now <= t.read <= t.stamp <= t.stored <= after.now
    && (before.cancelled ==> after.cancelled)
    && after.degraded == (before.degraded || outcome == TimedOut)
    && MayLeave(cfg, key, op, before.db, t, outcome, after.db)
    && MayReturn(cfg, key, op, hasDeadline, before, t, outcome, after)
  }

  /** An action of the call or of its surroundings, none of another call. */
  predicate SoloAction(a: Action, id: Id) {
    a.Tick? || (a.Cancel? && a.id == id) || About(a, id)
  }

  /** The state some actions lead to from a state, if every one is enabled. */
  function Walk(cfg: Config, s: State, steps: seq<Action>): Option<State> {
    if steps == [] then Some(s)
    else
      match Walk(cfg, s, steps[..|steps|-1])
      case None => None
      case Some(s') => Next(cfg, s', steps[|steps|-1])
  }

  lemma {:induction false} RunThenWalk(cfg: Config, trace: Trace, s: State, steps: seq<Action>)
    requires Run(cfg, trace) == Some(s)
    ensures Run(cfg, trace + steps) == Walk(cfg, s, steps)
    decreases |steps|
  {
    if steps == [] {
      assert trace + steps == trace;
    } else {
      var fewer := steps[..|steps|-1];
      RunThenWalk(cfg, trace, s, fewer);
      assert (trace + steps)[..|trace + steps|-1] == trace + fewer;
    }
  }

  ghost predicate SoloWalk(cfg: Config, s0: State, steps: seq<Action>, id: Id, s: State) {
    Walk(cfg, s0, steps) == Some(s) && forall a | a in steps :: SoloAction(a, id)
  }

  /** The call was made and returned by the last of these actions, none of which is of another call. */
  ghost predicate SoloCall(cfg: Config, s0: State, steps: seq<Action>, id: Id, key: Key, op: Op, hasDeadline: bool,
                           outcome: Outcome, after: Situation) {
    && steps != [] && Marks(steps[|steps|-1], id, Returned)
    && Walk(cfg, s0, steps).Some?
    && SoloWalk(cfg, s0, steps, id, Walk(cfg, s0, steps).value)
    && id in Walk(cfg, s0, steps).value.calls
    && Walk(cfg, s0, steps).value.calls[id] == Call(key, op, hasDeadline, Done(outcome))
    && SituationOf(Walk(cfg, s0, steps).value, id) == after
  }

  // Every end of a solo call is one the contract allows.

  /** When the steps of the call happened, as far as they have. */
  function Follow(t: Times, now: int, a: Action): Times {
    if a.Do? && (a.event.Snapshot? || a.event.Prepare?) then Times(now, now, now)
    else if a.Do? && a.event.FinishPatchRead? then Times(t.read, now, now)
    else if a.Do? && a.event.Commit? then t.(stored := a.event.stamp)
    else t
  }

  predicate BeforeStart(s0: State, s: State, id: Id) {
    id !in s.txns && s.db == s0.db
  }

  predicate HoldsPayload(cfg: Config, s0: State, c: Call, id: Id, t: Times, w: Write) {
    && !c.op.FetchOp? && (c.op.PatchOp? ==> id !in s0.cancelled)
    && w == Payload(cfg, c.op, Visible(s0.db, c.key, t.read), t.stamp)
  }

  predicate SoloTxn(cfg: Config, s0: State, s: State, id: Id, t: Times)
    requires id in s.calls
  {
    var c := s.calls[id];
    && id in s.txns && !c.op.FetchOp? && !s0.degraded && id !in s0.cancelled
    && match s.txns[id]
       case Pending(key, w, since) =>
         && key == c.key && w == Payload(cfg, c.op, Visible(s0.db, key, t.read), t.stamp)
         && t.stamp <= since && s.db == s0.db
       case Committed => s.db == CommitAlone(cfg, s0.db, c.key, c.op, t)
       case Aborted => s.db == s0.db
  }

  /** Where a call that has not returned is, after a solo walk from s0. */
  predicate SoloPc(cfg: Config, s0: State, s: State, id: Id, t: Times)
    requires id in s.calls
  {
    var c := s.calls[id];
    match c.pc
    case Called => BeforeStart(s0, s, id)
    case Reading(since) => BeforeStart(s0, s, id) && Reads(c.op) && id !in s0.cancelled && s0.now <= since
    case Read(found, since) =>
      BeforeStart(s0, s, id) && Reads(c.op) && id !in s0.cancelled && s0.now <= since
        && found == Visible(s0.db, c.key, t.read)
    case Ready(w) => BeforeStart(s0, s, id) && HoldsPayload(cfg, s0, c, id, t, w)
    case Tested(w) => BeforeStart(s0, s, id) && HoldsPayload(cfg, s0, c, id, t, w) && !s0.degraded
    case Checked(w) =>
      BeforeStart(s0, s, id) && HoldsPayload(cfg, s0, c, id, t, w) && !s0.degraded && id !in s0.cancelled
    case Waiting(since) => SoloTxn(cfg, s0, s, id, t) && t.stamp <= since
    case TimingOut => SoloTxn(cfg, s0, s, id, t) && t.stamp + cfg.writeTimeout <= s.now
    case Done(_) => true
  }

  predicate SoloInv(cfg: Config, s0: State, s: State, id: Id, t: Times) {
    && (id in s0.cancelled ==> id in s.cancelled)
    && (id !in s.calls ==> BeforeStart(s0, s, id))
    && (!(id in s.calls && s.calls[id].pc.Done?) ==>
          s0.now <= t.read <= t.stamp <= t.stored <= s.now && s.degraded == s0.degraded)
    && (id in s.calls ==> SoloPc(cfg, s0, s, id, t))
  }

  lemma SoloInvRead(cfg: Config, s0: State, s: State, id: Id, t: Times, e: Event, s': State)
    requires SoloInv(cfg, s0, s, id, t) && id in s.calls && IsReadEvent(e) && ReadStep(cfg, s, id, e) == Some(s')
    ensures SoloInv(cfg, s0, s', id, Follow(t, s.now, Do(id, e)))
  {
    ReadStepOnlyPc(cfg, s, id, e, s');
  }

  lemma SoloInvGate(cfg: Config, s0: State, s: State, id: Id, t: Times, e: Event, s': State)
    requires SoloInv(cfg, s0, s, id, t) && id in s.calls && IsGateEvent(e) && GateStep(cfg, s, id, e) == Some(s')
    ensures SoloInv(cfg, s0, s', id, Follow(t, s.now, Do(id, e)))
  {
    GateStepOnlyPc(cfg, s, id, e, s');
  }

  lemma SoloInvTxn(cfg: Config, s0: State, s: State, id: Id, t: Times, e: Event, s': State)
    requires SoloInv(cfg, s0, s, id, t) && id in s.calls && !s.calls[id].pc.Done?
    requires !IsReadEvent(e) && !IsGateEvent(e) && TxnStep(cfg, s, id, e) == Some(s')
    ensures SoloInv(cfg, s0, s', id, Follow(t, s.now, Do(id, e)))
  {
  }

  lemma SoloInvStep(cfg: Config, s0: State, s: State, id: Id, t: Times, a: Action, s': State)
    requires SoloInv(cfg, s0, s, id, t) && SoloAction(a, id) && Next(cfg, s, a) == Some(s')
    ensures SoloInv(cfg, s0, s', id, Follow(t, s.now, a))
  {
    if a.Do? && IsReadEvent(a.event) {
      SoloInvRead(cfg, s0, s, id, t, a.event, s');
    } else if a.Do? && IsGateEvent(a.event) {
      SoloInvGate(cfg, s0, s, id, t, a.event, s');
    } else if a.Do? {
      if s.calls[id].pc.Done? {
        TxnStepKeeps(cfg, s, id, a.event, s');
      } else {
        SoloInvTxn(cfg, s0, s, id, t, a.event, s');
      }
    }
  }

  lemma {:induction false} SoloInvHolds(cfg: Config, s0: State, steps: seq<Action>, id: Id, s: State) returns (t: Times)
    requires id !in s0.calls && id !in s0.txns && SoloWalk(cfg, s0, steps, id, s)
    ensures SoloInv(cfg, s0, s, id, t)
    decreases |steps|
  {
    t := Times(s0.now, s0.now, s0.now);
    if steps != [] {
      var fewer, a := steps[..|steps|-1], steps[|steps|-1];
      var before := Walk(cfg, s0, fewer).value;
      assert a in steps;
      t := SoloInvHolds(cfg, s0, fewer, id, before);
      SoloInvStep(cfg, s0, before, id, t, a, s);
      t := Follow(t, before.now, a);
    }
  }

  ghost predicate ReturnedInTime(cfg: Config, s0: State, id: Id, t: Times, s': State) {
    id in s'.calls && s'.calls[id].pc.Done? &&
    var c := s'.calls[id];
    MayEnd(cfg, c.key, c.op, c.hasDeadline, SituationOf(s0, id), t, c.pc.outcome, SituationOf(s', id))
  }

  lemma SoloReadReturn(cfg: Config, s0: State, s: State, id: Id, t: Times, e: Event, s': State)
    requires SoloInv(cfg, s0, s, id, t) && IsReturn(e) && id in s.calls && ReadStep(cfg, s, id, e) == Some(s')
    ensures ReturnedInTime(cfg, s0, id, t, s')
  {
  }

  lemma SoloGateReturn(cfg: Config, s0: State, s: State, id: Id, t: Times, e: Event, s': State)
    requires SoloInv(cfg, s0, s, id, t) && IsReturn(e) && id in s.calls && GateStep(cfg, s, id, e) == Some(s')
    ensures ReturnedInTime(cfg, s0, id, t, s')
  {
  }

  lemma SoloTxnReturn(cfg: Config, s0: State, s: State, id: Id, t: Times, e: Event, s': State)
    requires SoloInv(cfg, s0, s, id, t) && IsReturn(e) && id in s.calls && TxnStep(cfg, s, id, e) == Some(s')
    ensures ReturnedInTime(cfg, s0, id, t, s')
  {
  }

  lemma SoloReturn(cfg: Config, s0: State, s: State, id: Id, t: Times, e: Event, s': State)
    requires SoloInv(cfg, s0, s, id, t) && IsReturn(e) && Next(cfg, s, Do(id, e)) == Some(s')
    ensures ReturnedInTime(cfg, s0, id, t, s')
  {
    if IsReadEvent(e) {
      SoloReadReturn(cfg, s0, s, id, t, e, s');
    } else if IsGateEvent(e) {
      SoloGateReturn(cfg, s0, s, id, t, e, s');
    } else {
      SoloTxnReturn(cfg, s0, s, id, t, e, s');
    }
  }

  /** However a solo call ends, it is one of the ways the contract allows. */
  lemma SoloCallMayEnd(cfg: Config, s0: State, steps: seq<Action>, id: Id, key: Key, op: Op, hasDeadline: bool,
                       outcome: Outcome, after: Situation) returns (t: Times)
    requires id !in s0.calls && id !in s0.txns
    requires SoloCall(cfg, s0, steps, id, key, op, hasDeadline, outcome, after)
    ensures MayEnd(cfg, key, op, hasDeadline, SituationOf(s0, id), t, outcome, after)
  {
    var fewer, a := steps[..|steps|-1], steps[|steps|-1];
    var s := Walk(cfg, s0, fewer).value;
    t := SoloInvHolds(cfg, s0, fewer, id, s);
    SoloReturn(cfg, s0, s, id, t, a.event, Walk(cfg, s0, steps).value);
  }

  // Every end the contract allows is one of a solo call.

  lemma Go(cfg: Config, s0: State, steps: seq<Action>, id: Id, s: State, a: Action)
    returns (more: seq<Action>, s': State)
    requires SoloWalk(cfg, s0, steps, id, s) && SoloAction(a, id) && Next(cfg, s, a).Some?
    ensures SoloWalk(cfg, s0, more, id, s') && Next(cfg, s, a) == Some(s') && more != [] && more[|more|-1] == a
  {
    more, s' := steps + [a], Next(cfg, s, a).value;
    assert more[..|steps|] == steps;
  }

  lemma GoRead(cfg: Config, s0: State, steps: seq<Action>, id: Id, s: State, e: Event)
    returns (more: seq<Action>, s': State)
    requires SoloWalk(cfg, s0, steps, id, s) && id in s.calls && IsReadEvent(e) && ReadStep(cfg, s, id, e).Some?
    ensures SoloWalk(cfg, s0, more, id, s') && ReadStep(cfg, s, id, e) == Some(s')
  {
    more, s' := Go(cfg, s0, steps, id, s, Do(id, e));
  }

  lemma GoGate(cfg: Config, s0: State, steps: seq<Action>, id: Id, s: State, e: Event)
    returns (more: seq<Action>, s': State)
    requires SoloWalk(cfg, s0, steps, id, s) && id in s.calls && IsGateEvent(e) && GateStep(cfg, s, id, e).Some?
    ensures SoloWalk(cfg, s0, more, id, s') && GateStep(cfg, s, id, e) == Some(s')
  {
    more, s' := Go(cfg, s0, steps, id, s, Do(id, e));
  }

  lemma GoTxn(cfg: Config, s0: State, steps: seq<Action>, id: Id, s: State, e: Event)
    returns (more: seq<Action>, s': State)
    requires SoloWalk(cfg, s0, steps, id, s) && id in s.calls && !IsReadEvent(e) && !IsGateEvent(e)
    requires TxnStep(cfg, s, id, e).Some?
    ensures SoloWalk(cfg, s0, more, id, s') && TxnStep(cfg, s, id, e) == Some(s')
    ensures more != [] && more[|more|-1] == Do(id, e)
  {
    more, s' := Go(cfg, s0, steps, id, s, Do(id, e));
  }

  lemma WaitUntil(cfg: Config, s0: State, steps: seq<Action>, id: Id, s: State, time: int)
    returns (more: seq<Action>, s': State)
    requires SoloWalk(cfg, s0, steps, id, s) && s.now <= time
    ensures SoloWalk(cfg, s0, more, id, s') && s' == s.(now := time)
  {
    more, s' := Go(cfg, s0, steps, id, s, Tick(time - s.now));
  }

  lemma CancelIf(cfg: Config, s0: State, steps: seq<Action>, id: Id, s: State, cancelled: bool)
    returns (more: seq<Action>, s': State)
    requires SoloWalk(cfg, s0, steps, id, s) && (id in s.cancelled ==> cancelled)
    ensures SoloWalk(cfg, s0, more, id, s') && s' == s.(cancelled := s'.cancelled)
    ensures id in s'.cancelled <==> cancelled
  {
    more, s' := steps, s;
    if cancelled {
      more, s' := Go(cfg, s0, steps, id, s, Cancel(id));
    }
  }

  /** The call returns with an outcome that does not involve the database. */
  lemma Return(cfg: Config, s0: State, steps: seq<Action>, id: Id, s: State, e: Event, outcome: Outcome,
               after: Situation) returns (more: seq<Action>)
    requires SoloWalk(cfg, s0, steps, id, s) && id in s.calls && s.db == after.db && s.degraded == after.degraded
    requires IsReturn(e) && s.now <= after.now && (id in s.cancelled <==> after.cancelled)
    requires Next(cfg, s.(now := after.now), Do(id, e)) == Some(At(s.(now := after.now), id, Done(outcome)))
    ensures var c := s.calls[id]; SoloCall(cfg, s0, more, id, c.key, c.op, c.hasDeadline, outcome, after)
  {
    var longer, s1 := WaitUntil(cfg, s0, steps, id, s, after.now);
    var s2;
    more, s2 := Go(cfg, s0, longer, id, s1, Do(id, e));
  }

  function CallMade(s0: State, id: Id, key: Key, op: Op, hasDeadline: bool, pc: Pc): State {
    s0.(calls := s0.calls[id := Call(key, op, hasDeadline, pc)])
  }

  lemma CallIt(cfg: Config, s0: State, id: Id, key: Key, op: Op, hasDeadline: bool)
    returns (steps: seq<Action>, s: State)
    requires id !in s0.calls
    ensures SoloWalk(cfg, s0, steps, id, s) && s == CallMade(s0, id, key, op, hasDeadline, Called)
  {
    steps, s := Go(cfg, s0, [], id, s0, Invoke(id, key, op, hasDeadline));
  }

  lemma BeginIt(cfg: Config, s0: State, id: Id, key: Key, op: Op, hasDeadline: bool)
    returns (steps: seq<Action>, s: State)
    requires id !in s0.calls && Reads(op) && id !in s0.cancelled
    ensures SoloWalk(cfg, s0, steps, id, s) && s == CallMade(s0, id, key, op, hasDeadline, Reading(s0.now))
  {
    steps, s := CallIt(cfg, s0, id, key, op, hasDeadline);
    steps, s := GoRead(cfg, s0, steps, id, s, BeginRead);
  }

  lemma ReadIt(cfg: Config, s0: State, id: Id, key: Key, op: Op, hasDeadline: bool, t: Times)
    returns (steps: seq<Action>, s: State)
    requires id !in s0.calls && Reads(op) && id !in s0.cancelled && s0.now <= t.read
    ensures SoloWalk(cfg, s0, steps, id, s)
    ensures s == CallMade(s0, id, key, op, hasDeadline, Read(Visible(s0.db, key, t.read), s0.now)).(now := t.read)
  {
    steps, s := BeginIt(cfg, s0, id, key, op, hasDeadline);
    steps, s := WaitUntil(cfg, s0, steps, id, s, t.read);
    steps, s := GoRead(cfg, s0, steps, id, s, Snapshot);
  }

  /** The call has its payload. */
  lemma PrepareIt(cfg: Config, s0: State, id: Id, key: Key, op: Op, hasDeadline: bool, t: Times)
    returns (steps: seq<Action>, s: State)
    requires id !in s0.calls && !op.FetchOp? && (op.PatchOp? ==> id !in s0.cancelled) && s0.now <= t.read <= t.stamp
    ensures SoloWalk(cfg, s0, steps, id, s)
    ensures var w := Payload(cfg, op, Visible(s0.db, key, t.read), t.stamp);
      s == CallMade(s0, id, key, op, hasDeadline, Ready(w)).(now := t.stamp)
  {
    if op.PatchOp? {
      steps, s := ReadIt(cfg, s0, id, key, op, hasDeadline, t);
      steps, s := WaitUntil(cfg, s0, steps, id, s, t.stamp);
      steps, s := GoRead(cfg, s0, steps, id, s, FinishPatchRead);
    } else {
      steps, s := CallIt(cfg, s0, id, key, op, hasDeadline);
      steps, s := WaitUntil(cfg, s0, steps, id, s, t.stamp);
      steps, s := GoGate(cfg, s0, steps, id, s, Prepare);
    }
  }

  /** The call has passed the flag test. */
  lemma TestIt(cfg: Config, s0: State, id: Id, key: Key, op: Op, hasDeadline: bool, t: Times)
    returns (steps: seq<Action>, s: State)
    requires id !in s0.calls && !op.FetchOp? && (op.PatchOp? ==> id !in s0.cancelled) && s0.now <= t.read <= t.stamp
    requires !s0.degraded
    ensures SoloWalk(cfg, s0, steps, id, s)
    ensures var w := Payload(cfg, op, Visible(s0.db, key, t.read), t.stamp);
      s == CallMade(s0, id, key, op, hasDeadline, Tested(w)).(now := t.stamp)
  {
    steps, s := PrepareIt(cfg, s0, id, key, op, hasDeadline, t);
    steps, s := GoGate(cfg, s0, steps, id, s, PassFlag);
  }

  function Started(cfg: Config, s0: State, id: Id, key: Key, op: Op, hasDeadline: bool, t: Times): State {
    var w := Payload(cfg, op, Visible(s0.db, key, t.read), t.stamp);
    CallMade(s0, id, key, op, hasDeadline, Waiting(t.stamp)).(
      now := t.stamp, txns := s0.txns[id := Pending(key, w, t.stamp)])
  }

  /** The call has passed both tests. */
  lemma CheckIt(cfg: Config, s0: State, id: Id, key: Key, op: Op, hasDeadline: bool, t: Times)
    returns (steps: seq<Action>, s: State)
    requires id !in s0.calls && !op.FetchOp? && id !in s0.cancelled && s0.now <= t.read <= t.stamp && !s0.degraded
    ensures SoloWalk(cfg, s0, steps, id, s)
    ensures var w := Payload(cfg, op, Visible(s0.db, key, t.read), t.stamp);
      s == CallMade(s0, id, key, op, hasDeadline, Checked(w)).(now := t.stamp)
  {
    steps, s := TestIt(cfg, s0, id, key, op, hasDeadline, t);
    steps, s := GoGate(cfg, s0, steps, id, s, PassContext);
  }

  /** The call has started its transaction; its context may be cancelled from then on. */
  lemma StartIt(cfg: Config, s0: State, id: Id, key: Key, op: Op, hasDeadline: bool, t: Times, cancelled: bool)
    returns (steps: seq<Action>, s: State)
    requires id !in s0.calls && !op.FetchOp? && id !in s0.cancelled && s0.now <= t.read <= t.stamp && !s0.degraded
    ensures SoloWalk(cfg, s0, steps, id, s)
    ensures s == Started(cfg, s0, id, key, op, hasDeadline, t).(cancelled := s.cancelled)
    ensures id in s.cancelled <==> cancelled
  {
    steps, s := CheckIt(cfg, s0, id, key, op, hasDeadline, t);
    steps, s := GoTxn(cfg, s0, steps, id, s, Start);
    assert s == Started(cfg, s0, id, key, op, hasDeadline, t);
    steps, s := CancelIf(cfg, s0, steps, id, s, cancelled);
  }

  /** The transaction of a waiting call has committed, or failed. */
  lemma EndTxn(cfg: Config, s0: State, id: Id, key: Key, op: Op, hasDeadline: bool, t: Times, cancelled: bool,
               commits: bool) returns (steps: seq<Action>, s: State)
    requires id !in s0.calls && !op.FetchOp? && id !in s0.cancelled && !s0.degraded
    requires s0.now <= t.read <= t.stamp <= t.stored
    ensures SoloWalk(cfg, s0, steps, id, s)
    ensures id in s.calls && s.calls[id] == Call(key, op, hasDeadline, Waiting(t.stamp))
    ensures s.db == if commits then CommitAlone(cfg, s0.db, key, op, t) else s0.db
    ensures id in s.txns && s.txns[id] == if commits then Committed else Aborted
    ensures s.now == t.stored && !s.degraded && (id in s.cancelled <==> cancelled)
  {
    steps, s := StartIt(cfg, s0, id, key, op, hasDeadline, t, cancelled);
    steps, s := WaitUntil(cfg, s0, steps, id, s, t.stored);
    steps, s := GoTxn(cfg, s0, steps, id, s, if commits then Commit(t.stored) else Abort);
  }

  lemma TimeOutIt(cfg: Config, s0: State, steps: seq<Action>, id: Id, s: State, since: int, after: Situation)
    returns (more: seq<Action>)
    requires SoloWalk(cfg, s0, steps, id, s) && id in s.calls && s.calls[id].pc == Waiting(since)
    requires s.db == after.db && after.degraded && (id in s.cancelled <==> after.cancelled)
    requires s.now <= after.now && since + cfg.writeTimeout <= after.now
    ensures var c := s.calls[id]; SoloCall(cfg, s0, more, id, c.key, c.op, c.hasDeadline, TimedOut, after)
  {
    var s1, s2, s3;
    more, s1 := WaitUntil(cfg, s0, steps, id, s, after.now);
    more, s2 := GoTxn(cfg, s0, more, id, s1, Expire);
    more, s3 := GoTxn(cfg, s0, more, id, s2, MarkDegraded);
  }

  /** A write that started its transaction. */
  lemma StartedWalk(cfg: Config, s0: State, id: Id, key: Key, op: Op, hasDeadline: bool, t: Times, outcome: Outcome,
                    after: Situation) returns (steps: seq<Action>)
    requires id !in s0.calls && MayEnd(cfg, key, op, hasDeadline, SituationOf(s0, id), t, outcome, after)
    requires outcome.Written? || outcome.WriteFailed? || outcome.Abandoned? || outcome.TimedOut?
    ensures SoloCall(cfg, s0, steps, id, key, op, hasDeadline, outcome, after)
  {
    var commits := outcome.Written? || (!outcome.WriteFailed? && after.db == CommitAlone(cfg, s0.db, key, op, t));
    var s;
    steps, s := EndTxn(cfg, s0, id, key, op, hasDeadline, t, after.cancelled, commits);
    if outcome.TimedOut? {
      steps := TimeOutIt(cfg, s0, steps, id, s, t.stamp, after);
    } else {
      var e := if outcome.Written? then Receive else if outcome.WriteFailed? then ReceiveError else Abandon;
      steps := Return(cfg, s0, steps, id, s, e, outcome, after);
    }
  }

  /** A write that was refused. */
  lemma RefusedWalk(cfg: Config, s0: State, id: Id, key: Key, op: Op, hasDeadline: bool, t: Times, outcome: Outcome,
                    after: Situation) returns (steps: seq<Action>)
    requires id !in s0.calls && MayEnd(cfg, key, op, hasDeadline, SituationOf(s0, id), t, outcome, after)
    requires outcome.Rejected? || outcome.NotStarted?
    ensures SoloCall(cfg, s0, steps, id, key, op, hasDeadline, outcome, after)
  {
    var s;
    if outcome.Rejected? {
      steps, s := PrepareIt(cfg, s0, id, key, op, hasDeadline, t);
      steps, s := CancelIf(cfg, s0, steps, id, s, after.cancelled);
      steps := Return(cfg, s0, steps, id, s, RejectDegraded, outcome, after);
    } else {
      steps, s := TestIt(cfg, s0, id, key, op, hasDeadline, t);
      steps, s := CancelIf(cfg, s0, steps, id, s, after.cancelled);
      steps := Return(cfg, s0, steps, id, s, RefuseCancelled, outcome, after);
    }
  }

  /** A call that ended in its read. */
  lemma ReadWalk(cfg: Config, s0: State, id: Id, key: Key, op: Op, hasDeadline: bool, t: Times, outcome: Outcome,
                 after: Situation) returns (steps: seq<Action>)
    requires id !in s0.calls && MayEnd(cfg, key, op, hasDeadline, SituationOf(s0, id), t, outcome, after)
    requires outcome.Fetched? || outcome.ReadFailed? || outcome.ReadNotStarted? || outcome.ReadAbandoned?
    ensures SoloCall(cfg, s0, steps, id, key, op, hasDeadline, outcome, after)
  {
    var s;
    if outcome.Fetched? {
      steps, s := ReadIt(cfg, s0, id, key, op, hasDeadline, t);
    } else if outcome.ReadNotStarted? {
      steps, s := CallIt(cfg, s0, id, key, op, hasDeadline);
    } else {
      steps, s := BeginIt(cfg, s0, id, key, op, hasDeadline);
    }
    steps, s := CancelIf(cfg, s0, steps, id, s, after.cancelled);
    var e := if outcome.Fetched? then FinishFetch else if outcome.ReadNotStarted? then RefuseRead
             else if outcome.ReadFailed? then FailRead else AbandonRead;
    steps := Return(cfg, s0, steps, id, s, e, outcome, after);
  }

  /** However the contract lets a call end, the transition system has a solo call that ends so. */
  lemma MayEndIsSoloCall(cfg: Config, s0: State, id: Id, key: Key, op: Op, hasDeadline: bool, t: Times,
                         outcome: Outcome, after: Situation) returns (steps: seq<Action>)
    requires id !in s0.calls && MayEnd(cfg, key, op, hasDeadline, SituationOf(s0, id), t, outcome, after)
    ensures SoloCall(cfg, s0, steps, id, key, op, hasDeadline, outcome, after)
  {
    if outcome.Written? || outcome.WriteFailed? || outcome.Abandoned? || outcome.TimedOut? {
      steps := StartedWalk(cfg, s0, id, key, op, hasDeadline, t, outcome, after);
    } else if outcome.Rejected? || outcome.NotStarted? {
      steps := RefusedWalk(cfg, s0, id, key, op, hasDeadline, t, outcome, after);
    } else {
      steps := ReadWalk(cfg, s0, id, key, op, hasDeadline, t, outcome, after);
    }
  }

  /** From any point of any run, a call made with nobody else acting can end exactly as the
      contract of a single call says. */
  lemma SoloIff(cfg: Config, trace: Trace, id: Id, key: Key, op: Op, hasDeadline: bool, outcome: Outcome,
                after: Situation)
    requires Run(cfg, trace).Some? && id !in Run(cfg, trace).value.calls
    ensures (exists t :: MayEnd(cfg, key, op, hasDeadline, SituationOf(Run(cfg, trace).value, id), t, outcome, after))
            <==> exists steps :: SoloCall(cfg, Run(cfg, trace).value, steps, id, key, op, hasDeadline, outcome, after)
    ensures forall steps :: Run(cfg, trace + steps) == Walk(cfg, Run(cfg, trace).value, steps)
  {
    var s0 := Run(cfg, trace).value;
    CallInvHolds(cfg, trace, id);
    if t :| MayEnd(cfg, key, op, hasDeadline, SituationOf(s0, id), t, outcome, after) {
      var steps := MayEndIsSoloCall(cfg, s0, id, key, op, hasDeadline, t, outcome, after);
    }
    if steps :| SoloCall(cfg, s0, steps, id, key, op, hasDeadline, outcome, after) {
      var t := SoloCallMayEnd(cfg, s0, steps, id, key, op, hasDeadline, outcome, after);
    }
    forall steps ensures Run(cfg, trace + steps) == Walk(cfg, s0, steps) {
      RunThenWalk(cfg, trace, s0, steps);
    }
  }
}
