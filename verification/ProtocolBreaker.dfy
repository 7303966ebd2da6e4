/** The circuit breaker: once the storage is degraded, only calls already past the flag test
    can still start a transaction. */
module ProtocolBreaker {
  import opened Documents
  import opened Protocol
  import opened ProtocolCalls

  /** The calls between the flag test and the start of their transaction. */
  function InTheGap(s: State): set<Id> {
    set id | id in s.calls && BetweenFlagAndStart(s.calls[id].pc)
  }

  predicate IsStart(a: Action) {
    a.Do? && a.event.Start?
  }

  function Starts(actions: seq<Action>): nat {
    if actions == [] then 0
    else Starts(actions[..|actions|-1]) + if IsStart(actions[|actions|-1]) then 1 else 0
  }

  ghost predicate NoReset(actions: seq<Action>) {
    Reset !in actions
  }

  /** While degraded, a start takes its call out of the gap and nothing else enters it. */
  lemma DegradedStep(cfg: Config, s: State, a: Action, s': State)
    requires Next(cfg, s, a) == Some(s') && s.degraded && a != Reset
    ensures s'.degraded
    ensures InTheGap(s') <= InTheGap(s)
    ensures IsStart(a) ==> a.id in InTheGap(s) && a.id !in InTheGap(s')
  {
    if a.Do? && IsReadEvent(a.event) {
      ReadStepOnlyPc(cfg, s, a.id, a.event, s');
      assert InTheGap(s') <= InTheGap(s);
    } else if a.Do? && IsGateEvent(a.event) {
      GateStepOnlyPc(cfg, s, a.id, a.event, s');
    } else if a.Do? {
      TxnStepKeeps(cfg, s, a.id, a.event, s');
    }
  }

  lemma SmallerSet<T>(small: set<T>, big: set<T>, x: T)
    requires small <= big && x in big && x !in small
    ensures |small| + 1 <= |big|
  {
    SubsetSize(small, big - {x});
  }

  lemma SubsetSize<T>(small: set<T>, big: set<T>)
    requires small <= big
    ensures |small| <= |big|
  {
    assert big == small + (big - small);
  }

  /** From any degraded point of a run on, as long as nobody resets the flag: every started
      transaction belongs to a call that was in the gap at that point, and the starts and the
      calls still in the gap together are no more than the calls in the gap then. */
  lemma {:induction false} BreakerBound(cfg: Config, trace: Trace, n: nat)
    requires Run(cfg, trace).Some? && n <= |trace| && Run(cfg, trace[..n]).Some?
    requires Run(cfg, trace[..n]).value.degraded && NoReset(trace[n..])
    ensures Run(cfg, trace).value.degraded
    ensures InTheGap(Run(cfg, trace).value) <= InTheGap(Run(cfg, trace[..n]).value)
    ensures Starts(trace[n..]) + |InTheGap(Run(cfg, trace).value)| <= |InTheGap(Run(cfg, trace[..n]).value)|
    ensures forall i | n <= i < |trace| && IsStart(trace[i]) :: trace[i].id in InTheGap(Run(cfg, trace[..n]).value)
    decreases |trace|
  {
    if n == |trace| {
      assert trace[..n] == trace && trace[n..] == [];
    } else {
      LastStep(cfg, trace);
      var before, a := trace[..|trace|-1], trace[|trace|-1];
      assert before[..n] == trace[..n];
      assert trace[n..][..|trace[n..]|-1] == before[n..] && trace[n..][|trace[n..]|-1] == a;
      assert forall x :: x in before[n..] ==> x in trace[n..];
      BreakerBound(cfg, before, n);
      var s, s' := Run(cfg, before).value, Run(cfg, trace).value;
      assert a in trace[n..];
      DegradedStep(cfg, s, a, s');
      if IsStart(a) {
        SmallerSet(InTheGap(s'), InTheGap(s), a.id);
      } else {
        SubsetSize(InTheGap(s'), InTheGap(s));
      }
      forall i | n <= i < |trace| && IsStart(trace[i]) ensures trace[i].id in InTheGap(Run(cfg, trace[..n]).value) {
        if i < |before| {
          assert before[i] == trace[i];
        }
      }
    }
  }

  /** After a timeout has marked the storage degraded, and until it is reset, every transaction
      started belongs to a call that had passed the flag test before that timeout, and there are
      at most as many of them as calls then in the gap. */
  lemma StartsAfterTimeout(cfg: Config, trace: Trace, m: nat, i: nat)
    requires Run(cfg, trace).Some? && m < i < |trace|
    requires trace[m].Do? && trace[m].event.MarkDegraded? && NoReset(trace[m+1..])
    requires IsStart(trace[i])
    ensures Run(cfg, trace[..m+1]).Some?
    ensures 0 <= LandmarksOf(trace, trace[i].id).passed < m
    ensures Starts(trace[m+1..]) <= |InTheGap(Run(cfg, trace[..m+1]).value)|
  {
    var id := trace[i].id;
    PrefixRuns(cfg, trace, m + 1);
    PrefixRuns(cfg, trace, m);
    var marked := trace[..m+1];
    assert marked[..m] == trace[..m];
    LastStep(cfg, marked);
    TxnStepKeeps(cfg, Run(cfg, trace[..m]).value, trace[m].id, trace[m].event, Run(cfg, marked).value);
    BreakerBound(cfg, trace, m + 1);
    CallInvHolds(cfg, marked, id);
    var p := LandmarksOf(marked, id).passed;
    PlaceInTrace(marked, id, FlagPassed);
    OccursAtPlace(marked, id, FlagPassed, p);
    assert marked[p] == trace[p];
    CallInvHolds(cfg, trace, id);
    OccursAtPlace(trace, id, FlagPassed, p);
  }

  /** The flag is set and cleared by nothing else. */
  lemma FlagStep(cfg: Config, s: State, a: Action, s': State)
    requires Next(cfg, s, a) == Some(s')
    ensures s'.degraded == if a == Reset then false else s.degraded || (a.Do? && a.event.MarkDegraded?)
  {
    if a.Do? && IsReadEvent(a.event) {
      ReadStepOnlyPc(cfg, s, a.id, a.event, s');
    } else if a.Do? && IsGateEvent(a.event) {
      GateStepOnlyPc(cfg, s, a.id, a.event, s');
    }
  }

  /** A timeout marked the storage degraded at the m-th action, and no reset followed. */
  ghost predicate MarkedAt(trace: Trace, m: nat) {
    m < |trace| && trace[m].Do? && trace[m].event.MarkDegraded? && NoReset(trace[m+1..])
  }

  /** The storage is degraded exactly after a timeout that no reset has followed. */
  lemma {:induction false} DegradedIff(cfg: Config, trace: Trace)
    requires Run(cfg, trace).Some?
    ensures Run(cfg, trace).value.degraded <==> exists m: nat :: MarkedAt(trace, m)
    decreases |trace|
  {
    if trace != [] {
      LastStep(cfg, trace);
      var last := |trace| - 1;
      var before, a := trace[..last], trace[last];
      DegradedIff(cfg, before);
      FlagStep(cfg, Run(cfg, before).value, a, Run(cfg, trace).value);
      forall m: nat | m < last ensures MarkedAt(trace, m) <==> MarkedAt(before, m) && a != Reset {
        assert trace[m+1..] == before[m+1..] + [a];
      }
      if a.Do? && a.event.MarkDegraded? {
        assert MarkedAt(trace, last);
      } else if Run(cfg, trace).value.degraded {
        var m: nat :| MarkedAt(before, m);
        assert MarkedAt(trace, m);
      }
    }
  }
}
