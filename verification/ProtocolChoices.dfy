/** What is possible at any point of any run, whatever else is going on: which select branches can
    be taken, how a transaction can end, in particular after its caller has given up, and that what
    a call can do depends on nothing but its own situation. */
module ProtocolChoices {
  import opened Documents
  import opened ServiceSpec
  import opened Protocol
  import opened ProtocolCalls
  import opened ProtocolPayload
  import opened ProtocolOutcomes
  import opened ProtocolSolo

  /** After these steps the call has returned with the outcome. */
  ghost predicate EndsAs(cfg: Config, trace: Trace, steps: seq<Action>, id: Id, outcome: Outcome) {
    match Run(cfg, trace + steps)
    case Some(s) => id in s.calls && s.calls[id].pc == Done(outcome)
    case None => false
  }

  lemma OneMore(cfg: Config, trace: Trace, a: Action)
    requires Run(cfg, trace).Some?
    ensures Run(cfg, trace + [a]) == Next(cfg, Run(cfg, trace).value, a)
  {
    RunExtended(cfg, trace, a);
  }

  lemma TwoMore(cfg: Config, trace: Trace, a: Action, b: Action)
    requires Run(cfg, trace).Some? && Next(cfg, Run(cfg, trace).value, a).Some?
    ensures Run(cfg, trace + [a, b]) == Next(cfg, Next(cfg, Run(cfg, trace).value, a).value, b)
  {
    OneMore(cfg, trace, a);
    OneMore(cfg, trace + [a], b);
    assert trace + [a, b] == trace + [a] + [b];
  }

  /** One more action of a call about its transaction or its select. */
  lemma TxnMore(cfg: Config, trace: Trace, id: Id, e: Event)
    requires Run(cfg, trace).Some? && id in Run(cfg, trace).value.calls && !IsReadEvent(e) && !IsGateEvent(e)
    ensures Run(cfg, trace + [Do(id, e)]) == TxnStep(cfg, Run(cfg, trace).value, id, e)
  {
    OneMore(cfg, trace, Do(id, e));
  }

  predicate IsWaiting(s: State, id: Id) {
    id in s.calls && s.calls[id].pc.Waiting? && id in s.txns
  }

  lemma ReceiveChoice(cfg: Config, trace: Trace, id: Id)
    requires Run(cfg, trace).Some? && IsWaiting(Run(cfg, trace).value, id)
    ensures Run(cfg, trace).value.txns[id].Committed? <==> EndsAs(cfg, trace, [Do(id, Receive)], id, Written)
    ensures Run(cfg, trace).value.txns[id].Aborted? <==> EndsAs(cfg, trace, [Do(id, ReceiveError)], id, WriteFailed)
  {
    TxnMore(cfg, trace, id, Receive);
    TxnMore(cfg, trace, id, ReceiveError);
  }

  lemma AbandonChoice(cfg: Config, trace: Trace, id: Id)
    requires Run(cfg, trace).Some? && IsWaiting(Run(cfg, trace).value, id)
    ensures id in Run(cfg, trace).value.cancelled <==> EndsAs(cfg, trace, [Do(id, Abandon)], id, Abandoned)
  {
    TxnMore(cfg, trace, id, Abandon);
  }

  /** A waiting writer can take every branch of its select that is ready, and no other: whichever
      of them are ready at once, it may be any of these. */
  lemma WriterChoices(cfg: Config, trace: Trace, id: Id)
    requires Run(cfg, trace).Some? && id in Run(cfg, trace).value.calls
    requires Run(cfg, trace).value.calls[id].pc.Waiting?
    ensures var s := Run(cfg, trace).value;
      && id in s.txns
      && (s.txns[id].Committed? <==> EndsAs(cfg, trace, [Do(id, Receive)], id, Written))
      && (s.txns[id].Aborted? <==> EndsAs(cfg, trace, [Do(id, ReceiveError)], id, WriteFailed))
      && (id in s.cancelled <==> EndsAs(cfg, trace, [Do(id, Abandon)], id, Abandoned))
      && (TimeOf(cfg, trace, id, Began) + cfg.writeTimeout <= s.now <==>
          EndsAs(cfg, trace, [Do(id, Expire), Do(id, MarkDegraded)], id, TimedOut))
  {
    CallInvHolds(cfg, trace, id);
    WaitInvHolds(cfg, trace, id);
    ReceiveChoice(cfg, trace, id);
    AbandonChoice(cfg, trace, id);
    ExpireChoice(cfg, trace, id);
  }

  lemma ExpireChoice(cfg: Config, trace: Trace, id: Id)
    requires Run(cfg, trace).Some? && id in Run(cfg, trace).value.calls
    requires Run(cfg, trace).value.calls[id].pc.Waiting?
    ensures var s := Run(cfg, trace).value;
      s.now >= s.calls[id].pc.since + cfg.writeTimeout <==>
      EndsAs(cfg, trace, [Do(id, Expire), Do(id, MarkDegraded)], id, TimedOut)
  {
    var s := Run(cfg, trace).value;
    var longer := trace + [Do(id, Expire), Do(id, MarkDegraded)];
    assert longer[..|longer|-1] == trace + [Do(id, Expire)];
    OneMore(cfg, trace, Do(id, Expire));
    if s.now >= s.calls[id].pc.since + cfg.writeTimeout {
      TwoMore(cfg, trace, Do(id, Expire), Do(id, MarkDegraded));
    }
  }

  /** One more action of a call about its read. */
  lemma ReadMore(cfg: Config, trace: Trace, id: Id, e: Event)
    requires Run(cfg, trace).Some? && id in Run(cfg, trace).value.calls && IsReadEvent(e)
    ensures Run(cfg, trace + [Do(id, e)]) == ReadStep(cfg, Run(cfg, trace).value, id, e)
  {
    OneMore(cfg, trace, Do(id, e));
  }

  /** After this action the call has got to the program counter, and nothing else has changed. */
  ghost predicate GetsTo(cfg: Config, trace: Trace, id: Id, e: Event, pc: Pc)
    requires Run(cfg, trace).Some? && id in Run(cfg, trace).value.calls
  {
    Run(cfg, trace + [Do(id, e)]) == Some(At(Run(cfg, trace).value, id, pc))
  }

  /** At any point of any run a reader that waits for its snapshot can get it or fail, and one that
      has it can go on with it, even if its context is done; exactly when that is done, it can be
      abandoned, before or after the snapshot. */
  lemma ReaderChoices(cfg: Config, trace: Trace, id: Id)
    requires Run(cfg, trace).Some? && id in Run(cfg, trace).value.calls
    requires Run(cfg, trace).value.calls[id].pc.Reading? || Run(cfg, trace).value.calls[id].pc.Read?
    ensures var s := Run(cfg, trace).value;
      id in s.cancelled || (!s.calls[id].hasDeadline && s.calls[id].pc.since + cfg.readTimeout <= s.now) <==>
      EndsAs(cfg, trace, [Do(id, AbandonRead)], id, ReadAbandoned)
    ensures var s := Run(cfg, trace).value;
      s.calls[id].pc.Reading? <==> EndsAs(cfg, trace, [Do(id, FailRead)], id, ReadFailed)
    ensures var s, c := Run(cfg, trace).value, Run(cfg, trace).value.calls[id];
      c.pc.Reading? ==> GetsTo(cfg, trace, id, Snapshot, Read(Visible(s.db, c.key, s.now), c.pc.since))
    ensures var s, c := Run(cfg, trace).value, Run(cfg, trace).value.calls[id];
      c.pc.Read? ==>
        && (c.op.PatchOp? ==> GetsTo(cfg, trace, id, FinishPatchRead, Ready(Payload(cfg, c.op, c.pc.found, s.now))))
        && (c.op.FetchOp? ==> GetsTo(cfg, trace, id, FinishFetch, Done(Fetched(c.pc.found))))
  {
    ReadMore(cfg, trace, id, AbandonRead);
    ReadMore(cfg, trace, id, FailRead);
    ReadMore(cfg, trace, id, Snapshot);
    ReadMore(cfg, trace, id, FinishPatchRead);
    ReadMore(cfg, trace, id, FinishFetch);
  }

  /** At any point of any run the clock can go on, a context can be cancelled, and the flag can be
      reset. */
  lemma SurroundingsChoices(cfg: Config, trace: Trace, id: Id, d: nat)
    requires Run(cfg, trace).Some?
    ensures var s := Run(cfg, trace).value;
      && Run(cfg, trace + [Tick(d)]) == Some(s.(now := s.now + d))
      && Run(cfg, trace + [Reset]) == Some(s.(degraded := false))
      && Run(cfg, trace + [Cancel(id)]) == Some(s.(cancelled := s.cancelled + {id}))
  {
    OneMore(cfg, trace, Tick(d));
    OneMore(cfg, trace, Reset);
    OneMore(cfg, trace, Cancel(id));
  }

  /** At any point of any run a new call can be made, whatever the flag and the context. */
  lemma NewCall(cfg: Config, trace: Trace, id: Id, key: Key, op: Op, hasDeadline: bool)
    requires Run(cfg, trace).Some?
    ensures var s := Run(cfg, trace).value;
      Run(cfg, trace + [Invoke(id, key, op, hasDeadline)]) ==
      if id in s.calls then None else Some(s.(calls := s.calls[id := Call(key, op, hasDeadline, Called)]))
  {
    OneMore(cfg, trace, Invoke(id, key, op, hasDeadline));
  }

  /** A new write on its own is rejected while the storage is degraded, unless its read fails or is
      cancelled; once the flag is reset, it can succeed again. */
  lemma ResetReopens(cfg: Config, trace: Trace, id: Id, key: Key, op: Op, hasDeadline: bool)
    returns (steps: seq<Action>)
    requires Run(cfg, trace).Some? && id !in Run(cfg, trace).value.calls && !op.FetchOp?
    requires Run(cfg, trace).value.degraded && id !in Run(cfg, trace).value.cancelled
    ensures forall more, outcome, after ::
      SoloCall(cfg, Run(cfg, trace).value, more, id, key, op, hasDeadline, outcome, after) ==>
        outcome == Rejected || outcome == ReadFailed || outcome == ReadNotStarted || outcome == ReadAbandoned
    ensures Run(cfg, trace + [Reset]).Some? && EndsAs(cfg, trace + [Reset], steps, id, Written)
    ensures forall a | a in steps :: SoloAction(a, id)
  {
    CallInvHolds(cfg, trace, id);
    var s := Run(cfg, trace).value;
    forall more, outcome, after | SoloCall(cfg, s, more, id, key, op, hasDeadline, outcome, after)
      ensures outcome == Rejected || outcome == ReadFailed || outcome == ReadNotStarted || outcome == ReadAbandoned
    {
      var t := SoloCallMayEnd(cfg, s, more, id, key, op, hasDeadline, outcome, after);
    }
    OneMore(cfg, trace, Reset);
    var open := s.(degraded := false);
    var t := Times(s.now, s.now, s.now);
    var after := Situation(CommitAlone(cfg, s.db, key, op, t), false, s.now, false);
    steps := MayEndIsSoloCall(cfg, open, id, key, op, hasDeadline, t, Written, after);
    RunThenWalk(cfg, trace + [Reset], open, steps);
  }

  lemma PendingSteps(cfg: Config, s: State, id: Id, stamp: int)
    requires id in s.calls && id in s.txns && s.txns[id].Pending?
    ensures TxnStep(cfg, s, id, Commit(stamp)) ==
            if s.txns[id].since <= stamp <= s.now
            then Some(s.(db := Commit1(s.db, s.txns[id].key, s.txns[id].write, stamp + cfg.ttl),
                         txns := s.txns[id := Committed]))
            else None
    ensures TxnStep(cfg, s, id, Abort) == Some(s.(txns := s.txns[id := Aborted]))
  {
  }

  /** A transaction that is under way can commit its payload, in an entry made at any moment since
      its start, or fail, whatever its caller is doing or how it has returned. */
  lemma TransactionChoices(cfg: Config, trace: Trace, id: Id, stamp: int)
    requires Run(cfg, trace).Some? && id in Run(cfg, trace).value.txns && Run(cfg, trace).value.txns[id].Pending?
    ensures id in Run(cfg, trace).value.calls
    ensures var s := Run(cfg, trace).value;
      var payload := PayloadOf(cfg, s.calls[id].op, InputsOf(cfg, trace, id));
      Run(cfg, trace + [Do(id, Commit(stamp))]) ==
      if TimeOf(cfg, trace, id, Began) <= stamp <= s.now
      then Some(s.(db := Commit1(s.db, s.calls[id].key, payload, stamp + cfg.ttl), txns := s.txns[id := Committed]))
      else None
    ensures var s := Run(cfg, trace).value;
      Run(cfg, trace + [Do(id, Abort)]) == Some(s.(txns := s.txns[id := Aborted]))
  {
    CallInvHolds(cfg, trace, id);
    WaitInvHolds(cfg, trace, id);
    PayloadInvHolds(cfg, trace, id);
    PendingSteps(cfg, Run(cfg, trace).value, id, stamp);
    TxnMore(cfg, trace, id, Commit(stamp));
    TxnMore(cfg, trace, id, Abort);
  }

  /** A context is cancelled exactly when its cancellation has happened, and stays so. */
  lemma {:induction false} CancelledIff(cfg: Config, trace: Trace, id: Id)
    requires Run(cfg, trace).Some?
    ensures id in Run(cfg, trace).value.cancelled <==> Cancel(id) in trace
    decreases |trace|
  {
    if trace != [] {
      LastStep(cfg, trace);
      var before, a := trace[..|trace|-1], trace[|trace|-1];
      CancelledIff(cfg, before, id);
      assert trace == before + [a];
      StepFrame(cfg, Run(cfg, before).value, a, Run(cfg, trace).value);
    }
  }

  /** What an action leaves as it was: everything that is not its own. */
  lemma StepFrame(cfg: Config, s: State, a: Action, s': State)
    requires Next(cfg, s, a) == Some(s')
    ensures s'.now == s.now + if a.Tick? then a.d else 0
    ensures s'.cancelled == s.cancelled + if a.Cancel? then {a.id} else {}
    ensures a.Tick? || a.Reset? || a.Cancel? ==> s'.calls == s.calls && s'.txns == s.txns
    ensures !(a.Do? && a.event.Commit?) ==> s'.db == s.db
    ensures forall id | !About(a, id) :: SameCall(s, s', id)
  {
    if a.Do? && IsReadEvent(a.event) {
      ReadStepOnlyPc(cfg, s, a.id, a.event, s');
    } else if a.Do? && IsGateEvent(a.event) {
      GateStepOnlyPc(cfg, s, a.id, a.event, s');
    } else if a.Do? {
      TxnStepKeeps(cfg, s, a.id, a.event, s');
    }
    forall id | !About(a, id) ensures SameCall(s, s', id) {
      OthersUntouched(cfg, s, a, s', id);
    }
  }

  /** The call and its transaction are the same in both states. */
  predicate SameCall(s: State, t: State, id: Id) {
    && (id in s.calls <==> id in t.calls) && (id in s.calls ==> s.calls[id] == t.calls[id])
    && (id in s.txns <==> id in t.txns) && (id in s.txns ==> s.txns[id] == t.txns[id])
  }

  /** The two states are alike for what the call does next: its program counter, transaction and
      context, the clock, and only where it tests the flag or takes its snapshot also the flag or
      what its key shows. */
  predicate SameView(s: State, t: State, id: Id, e: Event) {
    && SameCall(s, t, id) && id in s.calls
    && s.now == t.now && (id in s.cancelled <==> id in t.cancelled)
    && (e.PassFlag? || e.RejectDegraded? ==> s.degraded == t.degraded)
    && (e.Snapshot? ==> Visible(s.db, s.calls[id].key, s.now) == Visible(t.db, s.calls[id].key, s.now))
  }

  lemma ReadIsLocal(cfg: Config, s: State, t: State, id: Id, e: Event)
    requires SameView(s, t, id, e)
    ensures ReadStep(cfg, s, id, e).Some? <==> ReadStep(cfg, t, id, e).Some?
    ensures ReadStep(cfg, s, id, e).Some? ==>
      SameCall(ReadStep(cfg, s, id, e).value, ReadStep(cfg, t, id, e).value, id)
  {
  }

  lemma GateIsLocal(cfg: Config, s: State, t: State, id: Id, e: Event)
    requires SameView(s, t, id, e)
    ensures GateStep(cfg, s, id, e).Some? <==> GateStep(cfg, t, id, e).Some?
    ensures GateStep(cfg, s, id, e).Some? ==>
      SameCall(GateStep(cfg, s, id, e).value, GateStep(cfg, t, id, e).value, id)
  {
  }

  lemma TxnIsLocal(cfg: Config, s: State, t: State, id: Id, e: Event)
    requires SameView(s, t, id, e)
    ensures TxnStep(cfg, s, id, e).Some? <==> TxnStep(cfg, t, id, e).Some?
    ensures TxnStep(cfg, s, id, e).Some? ==>
      SameCall(TxnStep(cfg, s, id, e).value, TxnStep(cfg, t, id, e).value, id)
  {
  }

  /** What a call can do, and where that takes it, depends on nothing but its own view. */
  lemma StepIsLocal(cfg: Config, s: State, t: State, id: Id, e: Event)
    requires SameView(s, t, id, e)
    ensures Next(cfg, s, Do(id, e)).Some? <==> Next(cfg, t, Do(id, e)).Some?
    ensures Next(cfg, s, Do(id, e)).Some? ==>
      SameCall(Next(cfg, s, Do(id, e)).value, Next(cfg, t, Do(id, e)).value, id)
  {
    if IsReadEvent(e) {
      ReadIsLocal(cfg, s, t, id, e);
    } else if IsGateEvent(e) {
      GateIsLocal(cfg, s, t, id, e);
    } else {
      TxnIsLocal(cfg, s, t, id, e);
    }
  }

  /** The call has given up on a transaction that is still under way. */
  predicate GaveUp(s: State, id: Id, key: Key, op: Op, hasDeadline: bool, outcome: Outcome, w: Write, since: int) {
    && id in s.calls && s.calls[id] == Call(key, op, hasDeadline, Done(outcome))
    && id in s.txns && s.txns[id] == Pending(key, w, since)
  }

  /** A write waits with its transaction under way until some moment. */
  lemma WaitOn(cfg: Config, s0: State, id: Id, key: Key, op: Op, hasDeadline: bool, t: Times, cancelled: bool, now: int)
    returns (steps: seq<Action>, s: State)
    requires id !in s0.calls && !op.FetchOp? && id !in s0.cancelled && !s0.degraded
    requires s0.now <= t.read <= t.stamp <= now
    ensures SoloWalk(cfg, s0, steps, id, s)
    ensures SituationOf(s, id) == Situation(s0.db, false, now, cancelled)
    ensures id in s.calls && s.calls[id] == Call(key, op, hasDeadline, Waiting(t.stamp))
    ensures id in s.txns
    ensures s.txns[id] == Pending(key, Payload(cfg, op, Visible(s0.db, key, t.read), t.stamp), t.stamp)
  {
    steps, s := StartIt(cfg, s0, id, key, op, hasDeadline, t, cancelled);
    steps, s := WaitUntil(cfg, s0, steps, id, s, now);
  }

  lemma TimeOutWaiting(cfg: Config, s0: State, steps: seq<Action>, id: Id, s: State)
    returns (more: seq<Action>, s': State)
    requires SoloWalk(cfg, s0, steps, id, s) && id in s.calls && s.calls[id].pc.Waiting?
    requires s.calls[id].pc.since + cfg.writeTimeout <= s.now
    ensures SoloWalk(cfg, s0, more, id, s') && s' == At(s, id, Done(TimedOut)).(degraded := true)
    ensures more != [] && Marks(more[|more|-1], id, Returned)
  {
    more, s' := GoTxn(cfg, s0, steps, id, s, Expire);
    more, s' := GoTxn(cfg, s0, more, id, s', MarkDegraded);
  }

  lemma AbandonWaiting(cfg: Config, s0: State, steps: seq<Action>, id: Id, s: State)
    returns (more: seq<Action>, s': State)
    requires SoloWalk(cfg, s0, steps, id, s) && id in s.calls && s.calls[id].pc.Waiting? && id in s.cancelled
    ensures SoloWalk(cfg, s0, more, id, s') && s' == At(s, id, Done(Abandoned))
    ensures more != [] && Marks(more[|more|-1], id, Returned)
  {
    more, s' := GoTxn(cfg, s0, steps, id, s, Abandon);
  }

  /** A write can give up, in every way its contract allows, while its transaction goes on. */
  lemma GiveUp(cfg: Config, s0: State, id: Id, key: Key, op: Op, hasDeadline: bool, t: Times, outcome: Outcome,
               after: Situation) returns (steps: seq<Action>, s: State)
    requires id !in s0.calls && MayEnd(cfg, key, op, hasDeadline, SituationOf(s0, id), t, outcome, after)
    requires (outcome.TimedOut? || outcome.Abandoned?) && after.db == s0.db
    ensures SoloWalk(cfg, s0, steps, id, s) && steps != [] && Marks(steps[|steps|-1], id, Returned)
    ensures SituationOf(s, id) == after
    ensures var w := Payload(cfg, op, Visible(s0.db, key, t.read), t.stamp);
      GaveUp(s, id, key, op, hasDeadline, outcome, w, t.stamp)
  {
    steps, s := WaitOn(cfg, s0, id, key, op, hasDeadline, t, after.cancelled, after.now);
    if outcome.TimedOut? {
      steps, s := TimeOutWaiting(cfg, s0, steps, id, s);
    } else {
      steps, s := AbandonWaiting(cfg, s0, steps, id, s);
    }
  }

  lemma CommitLate(cfg: Config, s: State, id: Id, key: Key, op: Op, hasDeadline: bool, outcome: Outcome, w: Write,
                   since: int, delay: nat, stamp: int) returns (s': State)
    requires GaveUp(s, id, key, op, hasDeadline, outcome, w, since) && since <= stamp <= s.now + delay
    ensures Next(cfg, s, Tick(delay)).Some?
    ensures Next(cfg, Next(cfg, s, Tick(delay)).value, Do(id, Commit(stamp))) == Some(s')
    ensures s'.calls == s.calls && s'.db == Commit1(s.db, key, w, stamp + cfg.ttl)
  {
    var later := s.(now := s.now + delay);
    PendingSteps(cfg, later, id, stamp);
    s' := TxnStep(cfg, later, id, Commit(stamp)).value;
  }

  /** From any point of any run, a write can return because of a timeout or a cancellation, with
      the database as it was, and at any later moment one more action stores its payload. */
  lemma CommitAfterReturn(cfg: Config, trace: Trace, id: Id, key: Key, op: Op, hasDeadline: bool, t: Times,
                          outcome: Outcome, after: Situation, delay: nat, stamp: int)
    returns (returned: Trace, late: Trace)
    requires Run(cfg, trace).Some? && id !in Run(cfg, trace).value.calls
    requires MayEnd(cfg, key, op, hasDeadline, SituationOf(Run(cfg, trace).value, id), t, outcome, after)
    requires (outcome.TimedOut? || outcome.Abandoned?) && after.db == Run(cfg, trace).value.db
    requires t.stamp <= stamp <= after.now + delay
    ensures trace <= returned && Run(cfg, returned).Some? && SituationOf(Run(cfg, returned).value, id) == after
    ensures id in Run(cfg, returned).value.calls
    ensures Run(cfg, returned).value.calls[id] == Call(key, op, hasDeadline, Done(outcome))
    ensures late == returned + [Tick(delay), Do(id, Commit(stamp))] && Run(cfg, late).Some?
    ensures Run(cfg, late).value.calls == Run(cfg, returned).value.calls
    ensures Run(cfg, late).value.db ==
            Commit1(after.db, key, Payload(cfg, op, Visible(after.db, key, t.read), t.stamp), stamp + cfg.ttl)
    ensures 0 <= LandmarksOf(late, id).returned < LandmarksOf(late, id).committed
  {
    var s0 := Run(cfg, trace).value;
    var w := Payload(cfg, op, Visible(s0.db, key, t.read), t.stamp);
    var steps, s := GiveUp(cfg, s0, id, key, op, hasDeadline, t, outcome, after);
    RunThenWalk(cfg, trace, s0, steps);
    returned := trace + steps;
    late := returned + [Tick(delay), Do(id, Commit(stamp))];
    var s' := CommitLate(cfg, s, id, key, op, hasDeadline, outcome, w, t.stamp, delay, stamp);
    TwoMore(cfg, returned, Tick(delay), Do(id, Commit(stamp)));
    CommitComesLast(cfg, late, id);
  }

  lemma CommitComesLast(cfg: Config, late: Trace, id: Id)
    requires late != [] && Run(cfg, late).Some? && Marks(late[|late|-1], id, CommitDone)
    requires id in Run(cfg, late).value.calls && Run(cfg, late).value.calls[id].pc.Done?
    ensures 0 <= LandmarksOf(late, id).returned < LandmarksOf(late, id).committed
  {
    CallInvHolds(cfg, late, id);
    PlaceInTrace(late, id, Returned);
    OccursAtPlace(late, id, CommitDone, |late| - 1);
    OccursAtPlace(late, id, Returned, |late| - 1);
  }

  /** For every configuration there is a run in which an upload has timed out, or was cancelled
      while it waited, with nothing stored, and then the document it gave up on is stored. */
  lemma LateUpload(cfg: Config, key: Key, params: map<string, string>, timesOut: bool)
    returns (returned: Trace, late: Trace)
    ensures Run(cfg, returned).Some? && 0 in Run(cfg, returned).value.calls
    ensures Run(cfg, returned).value.calls[0].pc == Done(if timesOut then TimedOut else Abandoned)
    ensures key !in Run(cfg, returned).value.db
    ensures returned <= late && Run(cfg, late).Some? && key in Run(cfg, late).value.db
    ensures Run(cfg, late).value.db[key].doc == UploadedDocument(params, cfg.format(0))
    ensures Run(cfg, late).value.calls == Run(cfg, returned).value.calls
  {
    assert Run(cfg, []) == Some(INITIAL);
    var after := Situation(map[], timesOut, cfg.writeTimeout, !timesOut);
    returned, late := CommitAfterReturn(cfg, [], 0, key, UploadOp(params), true, Times(0, 0, 0),
                                        if timesOut then TimedOut else Abandoned, after, 0, 0);
  }
}
