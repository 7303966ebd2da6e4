/** Linearizability: commits and snapshots, in the order they happen, form a legal history of
    an atomic expiring map, and each call takes effect between its invocation and its return. */
module ProtocolHistory {
  import opened Documents
  import opened Protocol
  import opened ProtocolCalls
  import opened ProtocolPayload
  import opened ProtocolOutcomes

  /** Operations of the atomic map: a store brings an entry made at some moment, from which its
      lifetime counts; a load returns a document or nothing. */
  datatype MapAction = Store(write: Write, made: int) | Load(found: Option<Fields>)

  /** An operation taking effect at the at-th action of a run, at a clock reading. */
  datatype Effect = Effect(at: nat, time: int, id: Id, key: Key, action: MapAction)

  /** An atomic expiring map and its clock. */
  datatype ExpiringMap = ExpiringMap(db: Database, time: int)

  /** What the atomic map does at one operation, if it accepts it: its clock does not go back, an
      entry made by then expires a lifetime after it was made, and a load returns exactly what is
      stored and has not expired. */
  function Accept(ttl: nat, m: ExpiringMap, e: Effect): Option<ExpiringMap> {
    if e.time < m.time then None
    else
      match e.action
      case Store(w, made) =>
        if made <= e.time then Some(ExpiringMap(Commit1(m.db, e.key, w, made + ttl), e.time)) else None
      case Load(found) => if found == Visible(m.db, e.key, e.time) then Some(m.(time := e.time)) else None
  }

  /** The map after a history, if the history is legal. */
  function Replay(ttl: nat, history: seq<Effect>): Option<ExpiringMap> {
    if history == [] then Some(ExpiringMap(map[], 0))
    else
      match Replay(ttl, history[..|history|-1])
      case None => None
      case Some(m) => Accept(ttl, m, history[|history|-1])
  }

  /** The effect of the i-th action of a run, taken from what the call itself writes or returns. */
  function EffectOf(cfg: Config, s: State, i: nat, a: Action): Option<Effect> {
    if a.Do? && a.event.Commit? && a.id in s.txns && s.txns[a.id].Pending? then
      Some(Effect(i, s.now, a.id, s.txns[a.id].key, Store(s.txns[a.id].write, a.event.stamp)))
    else if a.Do? && a.event.Snapshot? && a.id in s.calls then
      match Next(cfg, s, a)
      case Some(s') =>
        if a.id in s'.calls && s'.calls[a.id].pc.Read?
        then Some(Effect(i, s.now, a.id, s.calls[a.id].key, Load(s'.calls[a.id].pc.found)))
        else None
      case None => None
    else None
  }

  function AsSeq<T>(o: Option<T>): seq<T> {
    if o.Some? then [o.value] else []
  }

  function History(cfg: Config, trace: Trace): seq<Effect>
    requires Run(cfg, trace).Some?
  {
    if trace == [] then []
    else
      var before := trace[..|trace|-1];
      History(cfg, before) + AsSeq(EffectOf(cfg, Run(cfg, before).value, |trace| - 1, trace[|trace|-1]))
  }

  lemma ReplayOneMore(ttl: nat, history: seq<Effect>, e: Effect)
    requires Replay(ttl, history).Some?
    ensures Replay(ttl, history + [e]) == Accept(ttl, Replay(ttl, history).value, e)
  {
    assert (history + [e])[..|history|] == history;
  }

  /** The database changes exactly by the effect of the action, which the map accepts. */
  lemma StepHasEffect(cfg: Config, s: State, i: nat, a: Action, s': State, time: int)
    requires Next(cfg, s, a) == Some(s') && time <= s.now
    ensures match EffectOf(cfg, s, i, a)
            case Some(e) => Accept(cfg.ttl, ExpiringMap(s.db, time), e) == Some(ExpiringMap(s'.db, s.now))
            case None => s'.db == s.db
  {
    if a.Do? && IsReadEvent(a.event) {
      ReadStepOnlyPc(cfg, s, a.id, a.event, s');
    } else if a.Do? && IsGateEvent(a.event) {
      GateStepOnlyPc(cfg, s, a.id, a.event, s');
    } else if a.Do? {
      TxnStepKeeps(cfg, s, a.id, a.event, s');
    }
  }

  /** The history of every run is legal and ends in the database of the run. */
  lemma {:induction false} HistoryIsLegal(cfg: Config, trace: Trace)
    requires Run(cfg, trace).Some?
    ensures var m := Replay(cfg.ttl, History(cfg, trace));
      m.Some? && m.value.db == Run(cfg, trace).value.db && m.value.time <= Run(cfg, trace).value.now
    decreases |trace|
  {
    if trace != [] {
      LastStep(cfg, trace);
      var before, a := trace[..|trace|-1], trace[|trace|-1];
      var s := Run(cfg, before).value;
      HistoryIsLegal(cfg, before);
      StepClock(cfg, s, a, Run(cfg, trace).value);
      StepHasEffect(cfg, s, |trace| - 1, a, Run(cfg, trace).value, Replay(cfg.ttl, History(cfg, before)).value.time);
      var e := EffectOf(cfg, s, |trace| - 1, a);
      if e.Some? {
        ReplayOneMore(cfg.ttl, History(cfg, before), e.value);
      } else {
        assert History(cfg, trace) == History(cfg, before);
      }
    }
  }

  /** The effects of a run are those of its actions, in their order. */
  lemma {:induction false} HistoryMembers(cfg: Config, trace: Trace, e: Effect)
    requires Run(cfg, trace).Some?
    ensures e in History(cfg, trace) <==>
            e.at < |trace| && Run(cfg, trace[..e.at]).Some? &&
            EffectOf(cfg, Run(cfg, trace[..e.at]).value, e.at, trace[e.at]) == Some(e)
    decreases |trace|
  {
    if trace != [] {
      LastStep(cfg, trace);
      var before, a := trace[..|trace|-1], trace[|trace|-1];
      HistoryMembers(cfg, before, e);
      if e.at < |before| {
        assert before[..e.at] == trace[..e.at] && before[e.at] == trace[e.at];
      } else if e.at == |before| {
        assert trace[..e.at] == before;
      }
    }
  }

  lemma {:induction false} HistoryOrdered(cfg: Config, trace: Trace)
    requires Run(cfg, trace).Some?
    ensures forall i, j | 0 <= i < j < |History(cfg, trace)| :: History(cfg, trace)[i].at < History(cfg, trace)[j].at
    ensures forall i | 0 <= i < |History(cfg, trace)| :: History(cfg, trace)[i].at < |trace|
    decreases |trace|
  {
    if trace != [] {
      LastStep(cfg, trace);
      HistoryOrdered(cfg, trace[..|trace|-1]);
    }
  }

  /** The effect happens between the invocation and the return of its call. */
  predicate WithinCall(trace: Trace, e: Effect) {
    LandmarksOf(trace, e.id).invoked < e.at < LandmarksOf(trace, e.id).returned
  }

  /** The state just before a landmark of a call. */
  lemma StateBefore(cfg: Config, trace: Trace, id: Id, m: Mark) returns (s: State)
    requires Run(cfg, trace).Some? && Place(LandmarksOf(trace, id), m) >= 0
    ensures var i := Place(LandmarksOf(trace, id), m);
      && i < |trace| && Marks(trace[i], id, m)
      && Run(cfg, trace[..i]) == Some(s) && Next(cfg, s, trace[i]).Some?
  {
    var i := Place(LandmarksOf(trace, id), m);
    CallInvHolds(cfg, trace, id);
    PlaceInTrace(trace, id, m);
    OccursAtPlace(trace, id, m, i);
    PrefixRuns(cfg, trace, i);
    PrefixRuns(cfg, trace, i + 1);
    assert trace[..i+1][..i] == trace[..i];
    LastStep(cfg, trace[..i+1]);
    s := Run(cfg, trace[..i]).value;
  }

  lemma CommitEffect(cfg: Config, s: State, i: nat, a: Action, id: Id, inputs: Inputs) returns (e: Effect)
    requires Marks(a, id, CommitDone) && Next(cfg, s, a).Some? && PayloadInv(cfg, s, id, inputs)
    ensures EffectOf(cfg, s, i, a) == Some(e) && e.id == id && e.at == i && e.time == s.now
    ensures id in s.calls && e.key == s.calls[id].key
    ensures e.action.Store? && e.action.write == PayloadOf(cfg, s.calls[id].op, inputs)
    ensures id in s.txns && s.txns[id].Pending? && s.txns[id].since <= e.action.made <= s.now
  {
    e := Effect(i, s.now, id, s.txns[id].key, Store(s.txns[id].write, a.event.stamp));
  }

  lemma SnapshotEffect(cfg: Config, s: State, i: nat, a: Action, id: Id) returns (e: Effect)
    requires Marks(a, id, SnapshotTaken) && Next(cfg, s, a).Some?
    ensures EffectOf(cfg, s, i, a) == Some(e) && e.id == id && e.at == i && e.time == s.now
    ensures id in s.calls && e.key == s.calls[id].key
    ensures e.action == Load(Visible(s.db, s.calls[id].key, s.now))
  {
    e := Effect(i, s.now, id, s.calls[id].key, Load(Visible(s.db, s.calls[id].key, s.now)));
  }

  /** What a call's transaction stores: the payload of its operation, made of what the call read
      and stamped in time, in an entry made between the start and the commit. */
  ghost predicate StoresPayload(cfg: Config, trace: Trace, id: Id, e: Effect)
    requires Run(cfg, trace).Some?
  {
    && e.action.Store? && id in Run(cfg, trace).value.calls
    && e.action.write == PayloadOf(cfg, Run(cfg, trace).value.calls[id].op, InputsOf(cfg, trace, id))
    && TimeOf(cfg, trace, id, Invoked) <= InputsOf(cfg, trace, id).stamp <= TimeOf(cfg, trace, id, Began)
    && TimeOf(cfg, trace, id, Began) <= e.action.made <= e.time
  }

  /** The store of a call that committed. */
  lemma EffectAtCommit(cfg: Config, trace: Trace, id: Id) returns (e: Effect)
    requires Run(cfg, trace).Some? && LandmarksOf(trace, id).committed >= 0
    ensures e in History(cfg, trace) && e.id == id && e.at == LandmarksOf(trace, id).committed
    ensures id in Run(cfg, trace).value.calls && e.key == Run(cfg, trace).value.calls[id].key
    ensures StoresPayload(cfg, trace, id, e)
  {
    var i := LandmarksOf(trace, id).committed;
    var s := StateBefore(cfg, trace, id, CommitDone);
    var before := trace[..i];
    CallInvHolds(cfg, trace, id);
    PayloadInvHolds(cfg, before, id);
    e := CommitEffect(cfg, s, i, trace[i], id, InputsOf(cfg, before, id));
    CallsKept(cfg, trace, i, id);
    InputsKept(cfg, trace, id, i);
    StampedInTime(cfg, trace, id);
    StartTimeKept(cfg, trace, id, i);
    HistoryMembers(cfg, trace, e);
  }

  /** A pending transaction was started when the landmark says. */
  lemma StartTimeKept(cfg: Config, trace: Trace, id: Id, n: nat)
    requires Run(cfg, trace).Some? && n <= |trace| && LandmarksOf(trace, id).began < n
    requires Run(cfg, trace[..n]).Some? && id in Run(cfg, trace[..n]).value.txns
    requires Run(cfg, trace[..n]).value.txns[id].Pending?
    ensures Run(cfg, trace[..n]).value.txns[id].since == TimeOf(cfg, trace, id, Began)
  {
    var before := trace[..n];
    CallInvHolds(cfg, before, id);
    CallInvHolds(cfg, trace, id);
    var i := LandmarksOf(before, id).began;
    PlaceInTrace(before, id, Began);
    OccursAtPlace(before, id, Began, i);
    assert before[i] == trace[i];
    OccursAtPlace(trace, id, Began, i);
    WaitInvHolds(cfg, before, id);
    ClockInPrefix(cfg, trace, n, i);
  }

  /** The load of a call whose snapshot was taken returned what the call saw. */
  lemma EffectAtSnapshot(cfg: Config, trace: Trace, id: Id) returns (e: Effect)
    requires Run(cfg, trace).Some? && LandmarksOf(trace, id).snapshot >= 0
    ensures e in History(cfg, trace) && e.id == id && e.at == LandmarksOf(trace, id).snapshot
    ensures id in Run(cfg, trace).value.calls && e.key == Run(cfg, trace).value.calls[id].key
    ensures e.action == Load(Seen(cfg, trace, id))
  {
    var i := LandmarksOf(trace, id).snapshot;
    var s := StateBefore(cfg, trace, id, SnapshotTaken);
    e := SnapshotEffect(cfg, s, i, trace[i], id);
    SeenAtSnapshot(cfg, trace, id);
    CallsKept(cfg, trace, i, id);
    HistoryMembers(cfg, trace, e);
  }

  /** Every write that returned nil is in the history exactly once, with the payload of its
      operation, between its call and its return. */
  lemma WrittenTakesEffect(cfg: Config, trace: Trace, id: Id) returns (e: Effect)
    requires Run(cfg, trace).Some? && id in Run(cfg, trace).value.calls
    requires Run(cfg, trace).value.calls[id].pc == Done(Written)
    ensures e in History(cfg, trace) && e.id == id && e.key == Run(cfg, trace).value.calls[id].key
    ensures StoresPayload(cfg, trace, id, e)
    ensures WithinCall(trace, e)
  {
    CallInvHolds(cfg, trace, id);
    e := EffectAtCommit(cfg, trace, id);
  }

  /** Every read that returned without error is in the history, with the result it returned. */
  lemma FetchedTakesEffect(cfg: Config, trace: Trace, id: Id) returns (e: Effect)
    requires Run(cfg, trace).Some? && id in Run(cfg, trace).value.calls
    requires Run(cfg, trace).value.calls[id].pc.Done? && Run(cfg, trace).value.calls[id].pc.outcome.Fetched?
    ensures e in History(cfg, trace) && e.id == id && e.key == Run(cfg, trace).value.calls[id].key
    ensures e.action == Load(Run(cfg, trace).value.calls[id].pc.outcome.found)
    ensures WithinCall(trace, e)
  {
    CallInvHolds(cfg, trace, id);
    PayloadInvHolds(cfg, trace, id);
    e := EffectAtSnapshot(cfg, trace, id);
  }

  /** The read a patch builds on is in the history before the patch's own store. */
  lemma PatchReadTakesEffect(cfg: Config, trace: Trace, id: Id) returns (r: Effect, w: Effect)
    requires Run(cfg, trace).Some? && id in Run(cfg, trace).value.calls && Run(cfg, trace).value.calls[id].op.PatchOp?
    requires LandmarksOf(trace, id).committed >= 0
    ensures r in History(cfg, trace) && w in History(cfg, trace) && r.id == w.id == id && r.at < w.at
    ensures r.key == w.key == Run(cfg, trace).value.calls[id].key
    ensures r.action == Load(Seen(cfg, trace, id)) && StoresPayload(cfg, trace, id, w)
  {
    CallInvHolds(cfg, trace, id);
    r := EffectAtSnapshot(cfg, trace, id);
    w := EffectAtCommit(cfg, trace, id);
  }

  lemma StoreOrigin(cfg: Config, trace: Trace, e: Effect)
    requires Run(cfg, trace).Some? && e in History(cfg, trace) && e.action.Store?
    ensures e.at == LandmarksOf(trace, e.id).committed && e.at < |trace| && Run(cfg, trace[..e.at]).Some?
    ensures EffectOf(cfg, Run(cfg, trace[..e.at]).value, e.at, trace[e.at]) == Some(e)
  {
    HistoryMembers(cfg, trace, e);
    CallInvHolds(cfg, trace, e.id);
    assert Marks(trace[e.at], e.id, CommitDone);
    OccursAtPlace(trace, e.id, CommitDone, e.at);
  }

  /** No call stores twice; one that was refused or failed never stores; one that gave up stores
      at most once, after its transaction was started. */
  lemma StoresOf(cfg: Config, trace: Trace, e1: Effect, e2: Effect)
    requires Run(cfg, trace).Some? && e1 in History(cfg, trace) && e2 in History(cfg, trace)
    requires e1.action.Store? && e2.action.Store? && e1.id == e2.id
    ensures e1 == e2
    ensures e1.at == LandmarksOf(trace, e1.id).committed && LandmarksOf(trace, e1.id).began < e1.at
    ensures e1.id in Run(cfg, trace).value.calls
    ensures var pc := Run(cfg, trace).value.calls[e1.id].pc;
      pc.Done? ==> pc.outcome == Written || pc.outcome == TimedOut || pc.outcome == Abandoned
  {
    StoreOrigin(cfg, trace, e1);
    StoreOrigin(cfg, trace, e2);
    CallInvHolds(cfg, trace, e1.id);
  }

  /** A call that returned before another was invoked takes effect before it. */
  lemma RealTimeOrder(cfg: Config, trace: Trace, e1: Effect, e2: Effect)
    requires Run(cfg, trace).Some? && e1 in History(cfg, trace) && e2 in History(cfg, trace)
    requires WithinCall(trace, e1)
    requires LandmarksOf(trace, e1.id).returned < LandmarksOf(trace, e2.id).invoked
    ensures e1.at < e2.at
  {
    HistoryMembers(cfg, trace, e2);
    CallInvHolds(cfg, trace, e2.id);
    OccursAtPlace(trace, e2.id, CommitDone, e2.at);
    OccursAtPlace(trace, e2.id, SnapshotTaken, e2.at);
  }

  ghost predicate HasEffect(cfg: Config, trace: Trace, id: Id, e: Effect)
    requires Run(cfg, trace).Some?
  {
    e in History(cfg, trace) && e.id == id && WithinCall(trace, e)
      && id in Run(cfg, trace).value.calls && e.key == Run(cfg, trace).value.calls[id].key
  }

  /** A call that returned without error is in the history, with its key, between its call and
      its return: a write with the payload of its operation, a read with the result it returned. */
  ghost predicate Accounted(cfg: Config, trace: Trace, id: Id)
    requires Run(cfg, trace).Some?
  {
    var s := Run(cfg, trace).value;
    id in s.calls && s.calls[id].pc.Done? ==>
      && (s.calls[id].pc.outcome.Written? ==>
            exists e :: HasEffect(cfg, trace, id, e) && StoresPayload(cfg, trace, id, e))
      && (s.calls[id].pc.outcome.Fetched? ==>
            exists e :: HasEffect(cfg, trace, id, e) && e.action == Load(s.calls[id].pc.outcome.found))
  }

  /** The effect has the clock reading of its action; a store is the only one of its call, even
      if the call gave up, and stores its payload in an entry made after its transaction started. */
  ghost predicate InTime(cfg: Config, trace: Trace, e: Effect)
    requires Run(cfg, trace).Some?
  {
    && e.at < |trace| && e.time == ClockAt(cfg, trace, e.at)
    && (e.action.Store? ==>
          && StoresPayload(cfg, trace, e.id, e)
          && LandmarksOf(trace, e.id).began < e.at == LandmarksOf(trace, e.id).committed)
  }

  lemma EffectInTime(cfg: Config, trace: Trace, e: Effect)
    requires Run(cfg, trace).Some? && e in History(cfg, trace)
    ensures InTime(cfg, trace, e)
  {
    HistoryMembers(cfg, trace, e);
    if e.action.Store? {
      StoreOrigin(cfg, trace, e);
      CallInvHolds(cfg, trace, e.id);
      var other := EffectAtCommit(cfg, trace, e.id);
      HistoryMembers(cfg, trace, other);
    }
  }

  /** Linearizability of every run: a history ordered by when its effects happen, legal for an
      atomic map whose entries live for the configured lifetime, ends in the database of the run,
      accounts for every call that returned without error, has at most one store for every call,
      respects the order of calls that do not overlap, and tells the time of the run's clock. */
  lemma Linearizable(cfg: Config, trace: Trace)
    requires Run(cfg, trace).Some?
    ensures Replay(cfg.ttl, History(cfg, trace)).Some?
    ensures Replay(cfg.ttl, History(cfg, trace)).value.db == Run(cfg, trace).value.db
    ensures forall i, j | 0 <= i < j < |History(cfg, trace)| :: History(cfg, trace)[i].at < History(cfg, trace)[j].at
    ensures forall id :: Accounted(cfg, trace, id)
    ensures forall e | e in History(cfg, trace) :: InTime(cfg, trace, e)
    ensures forall e1, e2 | e1 in History(cfg, trace) && e2 in History(cfg, trace) ::
      e1.action.Store? && e2.action.Store? && e1.id == e2.id ==> e1 == e2
    ensures forall e1, e2 | e1 in History(cfg, trace) && e2 in History(cfg, trace) && WithinCall(trace, e1) ::
      LandmarksOf(trace, e1.id).returned < LandmarksOf(trace, e2.id).invoked ==> e1.at < e2.at
  {
    HistoryIsLegal(cfg, trace);
    HistoryOrdered(cfg, trace);
    forall id ensures Accounted(cfg, trace, id) {
      CallAccounted(cfg, trace, id);
    }
    forall e | e in History(cfg, trace) ensures InTime(cfg, trace, e) {
      EffectInTime(cfg, trace, e);
    }
    forall e1, e2 | e1 in History(cfg, trace) && e2 in History(cfg, trace)
      && e1.action.Store? && e2.action.Store? && e1.id == e2.id
      ensures e1 == e2
    {
      StoresOf(cfg, trace, e1, e2);
    }
    forall e1, e2 | e1 in History(cfg, trace) && e2 in History(cfg, trace) && WithinCall(trace, e1)
      && LandmarksOf(trace, e1.id).returned < LandmarksOf(trace, e2.id).invoked
      ensures e1.at < e2.at
    {
      RealTimeOrder(cfg, trace, e1, e2);
    }
  }

  lemma CallAccounted(cfg: Config, trace: Trace, id: Id)
    requires Run(cfg, trace).Some?
    ensures Accounted(cfg, trace, id)
  {
    var s := Run(cfg, trace).value;
    if id in s.calls && s.calls[id].pc.Done? {
      if s.calls[id].pc.outcome.Written? {
        var e := WrittenTakesEffect(cfg, trace, id);
        assert HasEffect(cfg, trace, id, e);
      } else if s.calls[id].pc.outcome.Fetched? {
        var e := FetchedTakesEffect(cfg, trace, id);
        assert HasEffect(cfg, trace, id, e);
      }
    }
  }
}
