/** The storage protocol under concurrent service calls, as a transition system.

    A call moves through its program counter; a write call hands its serialised payload to a
    background transaction, and then waits for whichever comes first: the transaction, the
    cancellation of its context, or the write timeout. A transaction may commit after its
    caller has given up. Every choice of interleaving and of ready select branch is an action,
    so a run is any sequence of actions each of which is enabled. */
module Protocol {
  import opened Documents
  import opened ServiceSpec

  type Id = nat
  type Key = string

  /** Times are in clock units; format renders a clock reading as the timestamp text. */
  datatype Config = Config(ttl: nat, writeTimeout: nat, readTimeout: nat, format: int -> string)

  datatype Op =
    | UploadOp(params: map<string, string>)
    | PatchOp(path: string, params: map<string, string>)
    | DeleteOp
    | FetchOp

  /** A serialised payload: an immutable document to put, or the removal of the key. */
  datatype Write = Put(doc: Fields) | Erase

  datatype Outcome =
    | Written | WriteFailed | Rejected | NotStarted | Abandoned | TimedOut
    | Fetched(found: Option<Fields>) | ReadFailed | ReadNotStarted | ReadAbandoned

  datatype Pc =
    | Called
    | Reading(since: int)
    | Read(found: Option<Fields>, since: int)
    | Ready(write: Write)
    | Tested(write: Write)
    | Checked(write: Write)
    | Waiting(since: int)
    | TimingOut
    | Done(outcome: Outcome)

  datatype Call = Call(key: Key, op: Op, hasDeadline: bool, pc: Pc)

  datatype Txn = Pending(key: Key, write: Write, since: int) | Committed | Aborted

  datatype Entry = Entry(doc: Fields, expiry: int)

  type Database = map<Key, Entry>

  datatype State = State(
    now: int, degraded: bool, db: Database,
    calls: map<Id, Call>, cancelled: set<Id>, txns: map<Id, Txn>)

  datatype Event =
    | BeginRead | RefuseRead | Snapshot | FailRead | AbandonRead | FinishFetch | FinishPatchRead
    | Prepare | PassFlag | RejectDegraded | PassContext | RefuseCancelled
    | Start | Commit(stamp: int) | Abort | Receive | ReceiveError | Abandon | Expire | MarkDegraded

  datatype Action =
    | Tick(d: nat)
    | Reset
    | Invoke(id: Id, key: Key, op: Op, hasDeadline: bool)
    | Cancel(id: Id)
    | Do(id: Id, event: Event)

  const INITIAL := State(0, false, map[], map[], {}, map[])

  /** What a read of the key sees at a time. */
  function Visible(db: Database, key: Key, now: int): Option<Fields> {
    if key in db && now < db[key].expiry then Some(db[key].doc) else None
  }

  function OrEmpty(found: Option<Fields>): Fields {
    if found.Some? then found.value else map[]
  }

  function Commit1(db: Database, key: Key, write: Write, expiry: int): Database {
    match write
    case Put(doc) => db[key := Entry(doc, expiry)]
    case Erase => db - {key}
  }

  predicate SameEntry(a: Database, b: Database, key: Key) {
    (key in a <==> key in b) && (key in a ==> a[key] == b[key])
  }

  /** What an operation hands to its transaction, given what it read and when it is stamped. */
  function Payload(cfg: Config, op: Op, found: Option<Fields>, stamp: int): Write {
    match op
    case UploadOp(params) => Put(UploadedDocument(params, cfg.format(stamp)))
    case PatchOp(path, params) => Put(PatchedDocument(OrEmpty(found), Patch(path, params, cfg.format(stamp))))
    case _ => Erase
  }

  /** When a call reads, when it stamps its payload, and when the entry it stores is made. */
  datatype Times = Times(read: int, stamp: int, stored: int)

  /** What a call makes of the database when nobody else acts. */
  function CommitAlone(cfg: Config, db: Database, key: Key, op: Op, t: Times): Database {
    Commit1(db, key, Payload(cfg, op, Visible(db, key, t.read), t.stamp), t.stored + cfg.ttl)
  }

  function At(s: State, id: Id, pc: Pc): State
    requires id in s.calls
  {
    s.(calls := s.calls[id := s.calls[id].(pc := pc)])
  }

  function When(guard: bool, s: State): Option<State> {
    if guard then Some(s) else None
  }

  /** The context of a read is done: cancelled, or past the fallback timeout. */
  predicate ReadContextDone(cfg: Config, s: State, id: Id, since: int)
    requires id in s.calls
  {
    id in s.cancelled || (!s.calls[id].hasDeadline && s.now >= since + cfg.readTimeout)
  }

  /** viewWithContext and the service code around it. */
  function ReadStep(cfg: Config, s: State, id: Id, e: Event): Option<State>
    requires id in s.calls
  {
    var c := s.calls[id];
    var readsFirst := c.op.PatchOp? || c.op.FetchOp?;
    match e
    case BeginRead => When(c.pc.Called? && readsFirst && id !in s.cancelled, At(s, id, Reading(s.now)))
    case RefuseRead => When(c.pc.Called? && readsFirst && id in s.cancelled, At(s, id, Done(ReadNotStarted)))
    case Snapshot =>
      if c.pc.Reading? then Some(At(s, id, Read(Visible(s.db, c.key, s.now), c.pc.since))) else None
    case FailRead => When(c.pc.Reading?, At(s, id, Done(ReadFailed)))
    case AbandonRead =>
      When((c.pc.Reading? || c.pc.Read?) && ReadContextDone(cfg, s, id, c.pc.since), At(s, id, Done(ReadAbandoned)))
    case FinishFetch =>
      if c.pc.Read? && c.op.FetchOp? then Some(At(s, id, Done(Fetched(c.pc.found)))) else None
    case FinishPatchRead =>
      if c.pc.Read? && c.op.PatchOp? then Some(At(s, id, Ready(Payload(cfg, c.op, c.pc.found, s.now)))) else None
    case _ => None
  }

  /** The payload, and the tests updateWithContext makes before it starts a transaction. */
  function GateStep(cfg: Config, s: State, id: Id, e: Event): Option<State>
    requires id in s.calls
  {
    var c := s.calls[id];
    match e
    case Prepare =>
      When(c.pc.Called? && (c.op.UploadOp? || c.op.DeleteOp?), At(s, id, Ready(Payload(cfg, c.op, None, s.now))))
    case PassFlag => if c.pc.Ready? && !s.degraded then Some(At(s, id, Tested(c.pc.write))) else None
    case RejectDegraded => When(c.pc.Ready? && s.degraded, At(s, id, Done(Rejected)))
    case PassContext => if c.pc.Tested? && id !in s.cancelled then Some(At(s, id, Checked(c.pc.write))) else None
    case RefuseCancelled => When(c.pc.Tested? && id in s.cancelled, At(s, id, Done(NotStarted)))
    case _ => None
  }

  /** The background transaction, and the select of its caller. */
  function TxnStep(cfg: Config, s: State, id: Id, e: Event): Option<State>
    requires id in s.calls
  {
    var c := s.calls[id];
    match e
    case Start =>
      if c.pc.Checked? then
        Some(At(s, id, Waiting(s.now)).(txns := s.txns[id := Pending(c.key, c.pc.write, s.now)]))
      else None
    case Commit(stamp) =>
      if id in s.txns && s.txns[id].Pending? && s.txns[id].since <= stamp <= s.now then
        Some(s.(db := Commit1(s.db, s.txns[id].key, s.txns[id].write, stamp + cfg.ttl),
                txns := s.txns[id := Committed]))
      else None
    case Abort => When(id in s.txns && s.txns[id].Pending?, s.(txns := s.txns[id := Aborted]))
    case Receive => When(c.pc.Waiting? && id in s.txns && s.txns[id].Committed?, At(s, id, Done(Written)))
    case ReceiveError => When(c.pc.Waiting? && id in s.txns && s.txns[id].Aborted?, At(s, id, Done(WriteFailed)))
    case Abandon => When(c.pc.Waiting? && id in s.cancelled, At(s, id, Done(Abandoned)))
    case Expire => When(c.pc.Waiting? && s.now >= c.pc.since + cfg.writeTimeout, At(s, id, TimingOut))
    case MarkDegraded => When(c.pc.TimingOut?, At(s, id, Done(TimedOut)).(degraded := true))
    case _ => None
  }

  predicate IsReadEvent(e: Event) {
    || e.BeginRead? || e.RefuseRead? || e.Snapshot? || e.FailRead? || e.AbandonRead?
    || e.FinishFetch? || e.FinishPatchRead?
  }

  predicate IsGateEvent(e: Event) {
    e.Prepare? || e.PassFlag? || e.RejectDegraded? || e.PassContext? || e.RefuseCancelled?
  }

  /** The state after an action, if the action is enabled. */
  function Next(cfg: Config, s: State, a: Action): Option<State> {
    match a
    case Tick(d) => Some(s.(now := s.now + d))
    case Reset => Some(s.(degraded := false))
    case Invoke(id, key, op, hasDeadline) =>
      When(id !in s.calls, s.(calls := s.calls[id := Call(key, op, hasDeadline, Called)]))
    case Cancel(id) => Some(s.(cancelled := s.cancelled + {id}))
    case Do(id, e) =>
      if id !in s.calls then None
      else if IsReadEvent(e) then ReadStep(cfg, s, id, e)
      else if IsGateEvent(e) then GateStep(cfg, s, id, e)
      else TxnStep(cfg, s, id, e)
  }

  type Trace = seq<Action>

  /** The state a sequence of actions leads to from the start, if every one is enabled. */
  function Run(cfg: Config, trace: Trace): Option<State> {
    if trace == [] then Some(INITIAL)
    else
      match Run(cfg, trace[..|trace|-1])
      case None => None
      case Some(s) => Next(cfg, s, trace[|trace|-1])
  }

  /** One action prolonging a run. */
  ghost predicate Extends(cfg: Config, before: Trace, s: State, a: Action, after: Trace, s': State) {
    && after == before + [a]
    && Run(cfg, before) == Some(s)
    && Next(cfg, s, a) == Some(s')
  }

  lemma LastStep(cfg: Config, trace: Trace)
    requires trace != [] && Run(cfg, trace).Some?
    ensures var before := trace[..|trace|-1];
      Run(cfg, before).Some? &&
      Extends(cfg, before, Run(cfg, before).value, trace[|trace|-1], trace, Run(cfg, trace).value)
  {
  }

  lemma RunExtended(cfg: Config, before: Trace, a: Action)
    requires Run(cfg, before).Some?
    ensures Run(cfg, before + [a]) == Next(cfg, Run(cfg, before).value, a)
  {
    assert (before + [a])[..|before|] == before;
  }

  /** Every prefix of a run is a run. */
  lemma {:induction false} PrefixRuns(cfg: Config, trace: Trace, n: nat)
    requires Run(cfg, trace).Some? && n <= |trace|
    ensures Run(cfg, trace[..n]).Some?
  {
    if n < |trace| {
      var before := trace[..|trace|-1];
      PrefixRuns(cfg, before, n);
      assert before[..n] == trace[..n];
    } else {
      assert trace[..n] == trace;
    }
  }

  /** s' differs from s at most in the program counter of one call. */
  ghost predicate OnlyPc(s: State, id: Id, s': State)
    requires id in s.calls
  {
    id in s'.calls && s' == At(s, id, s'.calls[id].pc)
  }

  lemma ReadStepOnlyPc(cfg: Config, s: State, id: Id, e: Event, s': State)
    requires id in s.calls && ReadStep(cfg, s, id, e) == Some(s')
    ensures OnlyPc(s, id, s')
  {
  }

  lemma GateStepOnlyPc(cfg: Config, s: State, id: Id, e: Event, s': State)
    requires id in s.calls && GateStep(cfg, s, id, e) == Some(s')
    ensures OnlyPc(s, id, s')
  {
  }

  lemma TxnStepKeeps(cfg: Config, s: State, id: Id, e: Event, s': State)
    requires id in s.calls && TxnStep(cfg, s, id, e) == Some(s')
    ensures id in s'.calls && s'.calls == s.calls[id := s.calls[id].(pc := s'.calls[id].pc)]
    ensures s'.now == s.now && s'.cancelled == s.cancelled
    ensures !e.Commit? ==> s'.db == s.db
    ensures s.degraded ==> s'.degraded
    ensures forall other | other != id ::
      (other in s'.txns <==> other in s.txns) && (other in s.txns ==> s'.txns[other] == s.txns[other])
  {
  }

  lemma StepClock(cfg: Config, s: State, a: Action, s': State)
    requires Next(cfg, s, a) == Some(s')
    ensures s.now <= s'.now
  {
    if a.Do? && IsReadEvent(a.event) {
      ReadStepOnlyPc(cfg, s, a.id, a.event, s');
    } else if a.Do? && IsGateEvent(a.event) {
      GateStepOnlyPc(cfg, s, a.id, a.event, s');
    } else if a.Do? {
      TxnStepKeeps(cfg, s, a.id, a.event, s');
    }
  }

  /** The clock before the i-th action of a run. */
  ghost function ClockAt(cfg: Config, trace: Trace, i: nat): int
    requires Run(cfg, trace).Some? && i <= |trace|
  {
    PrefixRuns(cfg, trace, i);
    Run(cfg, trace[..i]).value.now
  }

  lemma {:induction false} ClockMonotone(cfg: Config, trace: Trace, i: nat, j: nat)
    requires Run(cfg, trace).Some? && i <= j <= |trace|
    ensures ClockAt(cfg, trace, i) <= ClockAt(cfg, trace, j)
    decreases j
  {
    if i < j {
      ClockMonotone(cfg, trace, i, j - 1);
      PrefixRuns(cfg, trace, j);
      assert trace[..j][..j-1] == trace[..j-1];
      LastStep(cfg, trace[..j]);
      StepClock(cfg, Run(cfg, trace[..j-1]).value, trace[j-1], Run(cfg, trace[..j]).value);
    }
  }

  lemma ClockInPrefix(cfg: Config, trace: Trace, n: nat, i: nat)
    requires Run(cfg, trace).Some? && i <= n <= |trace|
    ensures Run(cfg, trace[..n]).Some? && ClockAt(cfg, trace[..n], i) == ClockAt(cfg, trace, i)
  {
    PrefixRuns(cfg, trace, n);
    assert trace[..n][..i] == trace[..i];
  }
}
