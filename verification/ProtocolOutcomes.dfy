/** What a call's outcome says about its transaction, in every run. */
module ProtocolOutcomes {
  import opened Documents
  import opened Protocol
  import opened ProtocolCalls

  ghost function Occurrences(trace: Trace, id: Id, m: Mark): set<nat> {
    set i: nat | i < |trace| && Marks(trace[i], id, m)
  }

  lemma OccurrencesArePlace(trace: Trace, id: Id, m: Mark)
    requires !LandmarksOf(trace, id).repeated
    ensures var i := Place(LandmarksOf(trace, id), m);
      if i < 0 then Occurrences(trace, id, m) == {} else i < |trace| && Occurrences(trace, id, m) == {i}
  {
    PlaceInTrace(trace, id, m);
    forall i: nat | i < |trace| ensures Marks(trace[i], id, m) <==> i == Place(LandmarksOf(trace, id), m) {
      OccursAtPlace(trace, id, m, i);
    }
  }

  /** The call committed exactly once, after its transaction was started and before it returned. */
  ghost predicate CommittedBeforeReturn(trace: Trace, id: Id) {
    exists i: nat, j: nat, k: nat :: i < j < k
      && Occurrences(trace, id, Began) == {i}
      && Occurrences(trace, id, CommitDone) == {j}
      && Occurrences(trace, id, Returned) == {k}
  }

  ghost predicate NeverStarted(trace: Trace, id: Id) {
    Occurrences(trace, id, Began) == {} && Occurrences(trace, id, CommitDone) == {}
  }

  /** Every landmark of every call occurs at most once; in particular no call commits twice. */
  lemma AtMostOnce(cfg: Config, trace: Trace, id: Id, m: Mark)
    requires Run(cfg, trace).Some?
    ensures |Occurrences(trace, id, m)| <= 1
  {
    CallInvHolds(cfg, trace, id);
    OccurrencesArePlace(trace, id, m);
  }

  /** The outcome of a returned call classifies what became of its transaction. */
  lemma OutcomeClassification(cfg: Config, trace: Trace, id: Id, outcome: Outcome)
    requires Run(cfg, trace).Some? && id in Run(cfg, trace).value.calls
    requires Run(cfg, trace).value.calls[id].pc == Done(outcome)
    ensures outcome == Written ==> CommittedBeforeReturn(trace, id)
    ensures outcome == Rejected || outcome == NotStarted ==> NeverStarted(trace, id)
    ensures outcome == ReadFailed || outcome == ReadNotStarted || outcome == ReadAbandoned || outcome.Fetched? ==>
      NeverStarted(trace, id)
    ensures outcome == WriteFailed ==> |Occurrences(trace, id, Began)| == 1 && Occurrences(trace, id, CommitDone) == {}
    ensures outcome == TimedOut || outcome == Abandoned ==>
      |Occurrences(trace, id, Began)| == 1 && |Occurrences(trace, id, CommitDone)| <= 1
  {
    CallInvHolds(cfg, trace, id);
    var l := LandmarksOf(trace, id);
    OccurrencesArePlace(trace, id, Began);
    OccurrencesArePlace(trace, id, CommitDone);
    OccurrencesArePlace(trace, id, Returned);
    if outcome == Written {
      var i: nat, j: nat, k: nat := l.began, l.committed, l.returned;
      assert i < j < k && Occurrences(trace, id, Began) == {i}
        && Occurrences(trace, id, CommitDone) == {j} && Occurrences(trace, id, Returned) == {k};
    }
  }

  /** How long a call has waited since its transaction was started. */
  predicate WaitInv(cfg: Config, s: State, id: Id, started: int) {
    && started <= s.now
    && (id in s.calls && s.calls[id].pc.Waiting? ==> s.calls[id].pc.since == started)
    && (id in s.calls && (s.calls[id].pc.TimingOut? || s.calls[id].pc == Done(TimedOut)) ==>
          started + cfg.writeTimeout <= s.now)
    && (id in s.txns && s.txns[id].Pending? ==> s.txns[id].since == started)
  }

  lemma StepKeepsWaitInv(cfg: Config, l: Landmarks, s: State, a: Action, s': State, id: Id, started: int)
    requires CallInv(l, s, id) && Next(cfg, s, a) == Some(s') && (l.began >= 0 ==> WaitInv(cfg, s, id, started))
    requires Marks(a, id, Began) ==> started == s.now
    requires l.began >= 0 || Marks(a, id, Began)
    ensures WaitInv(cfg, s', id, started)
  {
    if !About(a, id) {
      OthersUntouched(cfg, s, a, s', id);
    } else if a.Do? && !IsReadEvent(a.event) && !IsGateEvent(a.event) {
      WaitInvTxn(cfg, l, s, id, a.event, s', started);
    }
  }

  lemma WaitInvTxn(cfg: Config, l: Landmarks, s: State, id: Id, e: Event, s': State, started: int)
    requires id in s.calls && CallInv(l, s, id) && TxnStep(cfg, s, id, e) == Some(s')
    requires l.began >= 0 ==> WaitInv(cfg, s, id, started)
    requires if e.Start? then started == s.now else l.began >= 0
    ensures WaitInv(cfg, s', id, started)
  {
  }

  lemma {:induction false} WaitInvHolds(cfg: Config, trace: Trace, id: Id)
    requires Run(cfg, trace).Some? && LandmarksOf(trace, id).began >= 0
    ensures WaitInv(cfg, Run(cfg, trace).value, id, TimeOf(cfg, trace, id, Began))
    decreases |trace|
  {
    LastStep(cfg, trace);
    var before, a := trace[..|trace|-1], trace[|trace|-1];
    CallInvHolds(cfg, before, id);
    TimeOfExtended(cfg, trace, id, Began);
    if LandmarksOf(before, id).began >= 0 {
      WaitInvHolds(cfg, before, id);
      CallInvHolds(cfg, trace, id);
    }
    StepKeepsWaitInv(cfg, LandmarksOf(before, id), Run(cfg, before).value, a, Run(cfg, trace).value, id,
                     TimeOf(cfg, trace, id, Began));
  }

  /** A call that timed out had waited for the write timeout. */
  lemma TimeoutWasWaited(cfg: Config, trace: Trace, id: Id)
    requires Run(cfg, trace).Some? && id in Run(cfg, trace).value.calls
    requires Run(cfg, trace).value.calls[id].pc == Done(TimedOut)
    ensures exists i: nat :: (Occurrences(trace, id, Began) == {i} && i < |trace|
                              && ClockAt(cfg, trace, i) + cfg.writeTimeout <= Run(cfg, trace).value.now)
  {
    CallInvHolds(cfg, trace, id);
    OccurrencesArePlace(trace, id, Began);
    WaitInvHolds(cfg, trace, id);
    var i: nat := LandmarksOf(trace, id).began;
    assert Occurrences(trace, id, Began) == {i};
  }
}
