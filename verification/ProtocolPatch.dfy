/** Patch reads and then writes in two transactions: when that amounts to an atomic patch. */
module ProtocolPatch {
  import opened Documents
  import opened ServiceSpec
  import opened ServiceLaws
  import opened Protocol
  import opened ProtocolCalls
  import opened ProtocolPayload

  /** The action commits the pending transaction of a call. */
  predicate Commits(s: State, a: Action) {
    a.Do? && a.event.Commit? && a.id in s.calls && a.id in s.txns && s.txns[a.id].Pending?
  }

  /** One action after a run when every committed patch is one atomic step: the payload is made
      of what the database holds at the commit, with the same stamp. */
  function AtomicStep(cfg: Config, db: Database, before: Trace, s: State, a: Action): Database {
    if Commits(s, a) then
      var c, stamp := s.calls[a.id], InputsOf(cfg, before, a.id).stamp;
      Commit1(db, c.key, Payload(cfg, c.op, Visible(db, c.key, s.now), stamp), a.event.stamp + cfg.ttl)
    else db
  }

  /** The database if every committed patch were one atomic step: the fold, in commit order, of
      uploads, deletions and pure merges into the document visible at the commit. */
  function AtomicDatabase(cfg: Config, trace: Trace): Database
    requires Run(cfg, trace).Some?
  {
    if trace == [] then map[]
    else
      var before := trace[..|trace|-1];
      AtomicStep(cfg, AtomicDatabase(cfg, before), before, Run(cfg, before).value, trace[|trace|-1])
  }

  /** What the committing patch read agrees, wherever it leaves things as they are, with what is
      visible when it commits. */
  ghost predicate ReadStillGood(cfg: Config, before: Trace, a: Action)
    requires Run(cfg, before).Some?
  {
    var s := Run(cfg, before).value;
    Commits(s, a) && s.calls[a.id].op.PatchOp? ==>
      var c := s.calls[a.id];
      SameWhereUntouched(c.op.path, c.op.params, OrEmpty(Seen(cfg, before, a.id)), OrEmpty(Visible(s.db, c.key, s.now)))
  }

  lemma SameEntryIff(db: Database, key: Key, a: Fields, b: Fields, expiry: int)
    ensures Commit1(db, key, Put(a), expiry) == Commit1(db, key, Put(b), expiry) <==> a == b
  {
    if a != b {
      assert Commit1(db, key, Put(a), expiry)[key] != Commit1(db, key, Put(b), expiry)[key];
    }
  }

  /** Committing what an operation makes of one document or of another is the same exactly when,
      if it is a patch, they agree where it leaves things as they are. */
  lemma SamePayloadIff(cfg: Config, db: Database, key: Key, op: Op, x: Option<Fields>, y: Option<Fields>, stamp: int,
                       expiry: int)
    ensures Commit1(db, key, Payload(cfg, op, x, stamp), expiry) == Commit1(db, key, Payload(cfg, op, y, stamp), expiry)
            <==> (op.PatchOp? ==> SameWhereUntouched(op.path, op.params, OrEmpty(x), OrEmpty(y)))
  {
    if op.PatchOp? {
      var patch := Patch(op.path, op.params, cfg.format(stamp));
      SamePatchedIff(OrEmpty(x), OrEmpty(y), patch);
      SameEntryIff(db, key, PatchedDocument(OrEmpty(x), patch), PatchedDocument(OrEmpty(y), patch), expiry);
    }
  }

  lemma AtomicDatabaseExtended(cfg: Config, before: Trace, a: Action)
    requires Run(cfg, before).Some? && Next(cfg, Run(cfg, before).value, a).Some?
    ensures Run(cfg, before + [a]) == Next(cfg, Run(cfg, before).value, a)
    ensures AtomicDatabase(cfg, before + [a]) ==
            AtomicStep(cfg, AtomicDatabase(cfg, before), before, Run(cfg, before).value, a)
  {
    RunExtended(cfg, before, a);
    var after := before + [a];
    assert after[..|after|-1] == before && after[|after|-1] == a;
  }

  lemma CommitStep(cfg: Config, s: State, a: Action, s': State)
    requires Next(cfg, s, a) == Some(s') && Commits(s, a)
    ensures s'.db == Commit1(s.db, s.txns[a.id].key, s.txns[a.id].write, a.event.stamp + cfg.ttl)
  {
  }

  lemma CommitStepIff(cfg: Config, s: State, a: Action, s': State, i: Inputs)
    requires Next(cfg, s, a) == Some(s') && Commits(s, a) && PayloadInv(cfg, s, a.id, i)
    ensures var c, now := s.calls[a.id], Visible(s.db, s.calls[a.id].key, s.now);
      s'.db == Commit1(s.db, c.key, Payload(cfg, c.op, now, i.stamp), a.event.stamp + cfg.ttl) <==>
      (c.op.PatchOp? ==> SameWhereUntouched(c.op.path, c.op.params, OrEmpty(i.seen), OrEmpty(now)))
  {
    CommitStep(cfg, s, a, s');
    var c := s.calls[a.id];
    SamePayloadIff(cfg, s.db, c.key, c.op, i.seen, Visible(s.db, c.key, s.now), i.stamp, a.event.stamp + cfg.ttl);
  }

  /** One commit equals its atomic counterpart exactly when its read is still good. */
  lemma CommitIsAtomicIff(cfg: Config, before: Trace, a: Action)
    requires Run(cfg, before).Some? && Next(cfg, Run(cfg, before).value, a).Some?
    requires Run(cfg, before).value.db == AtomicDatabase(cfg, before)
    ensures Run(cfg, before + [a]).Some?
    ensures Run(cfg, before + [a]).value.db == AtomicDatabase(cfg, before + [a]) <==> ReadStillGood(cfg, before, a)
  {
    var s := Run(cfg, before).value;
    var s' := Next(cfg, s, a).value;
    AtomicDatabaseExtended(cfg, before, a);
    if Commits(s, a) {
      PayloadInvHolds(cfg, before, a.id);
      CommitStepIff(cfg, s, a, s', InputsOf(cfg, before, a.id));
    } else {
      NoCommitKeepsDb(cfg, s, a, s');
    }
  }

  lemma NoCommitKeepsDb(cfg: Config, s: State, a: Action, s': State)
    requires Next(cfg, s, a) == Some(s') && !Commits(s, a)
    ensures s'.db == s.db
  {
    if a.Do? && IsReadEvent(a.event) {
      ReadStepOnlyPc(cfg, s, a.id, a.event, s');
    } else if a.Do? && IsGateEvent(a.event) {
      GateStepOnlyPc(cfg, s, a.id, a.event, s');
    } else if a.Do? {
      TxnStepKeeps(cfg, s, a.id, a.event, s');
    }
  }

  ghost predicate AtomicThroughout(cfg: Config, trace: Trace)
    requires Run(cfg, trace).Some?
  {
    forall n: nat | n <= |trace| :: AtomicAfter(cfg, trace, n)
  }

  ghost predicate AtomicAfter(cfg: Config, trace: Trace, n: nat)
    requires n <= |trace|
  {
    Run(cfg, trace[..n]).Some? && Run(cfg, trace[..n]).value.db == AtomicDatabase(cfg, trace[..n])
  }

  ghost predicate GoodAt(cfg: Config, trace: Trace, i: nat)
    requires i < |trace|
  {
    Run(cfg, trace[..i]).Some? && ReadStillGood(cfg, trace[..i], trace[i])
  }

  /** The database follows the atomic fold throughout a run exactly when the read of every
      committed patch is still good at its commit. */
  lemma {:induction false} AtomicIff(cfg: Config, trace: Trace)
    requires Run(cfg, trace).Some?
    ensures AtomicThroughout(cfg, trace) <==> forall i: nat | i < |trace| :: GoodAt(cfg, trace, i)
    decreases |trace|
  {
    assert trace[..|trace|] == trace;
    if trace == [] {
      assert AtomicAfter(cfg, trace, 0);
    } else {
      LastStep(cfg, trace);
      var last := |trace| - 1;
      var before, a := trace[..last], trace[last];
      assert before + [a] == trace && before[..last] == before;
      AtomicIff(cfg, before);
      forall n: nat | n <= last ensures AtomicAfter(cfg, trace, n) <==> AtomicAfter(cfg, before, n) {
        assert before[..n] == trace[..n];
      }
      forall i: nat | i < last ensures GoodAt(cfg, trace, i) <==> GoodAt(cfg, before, i) {
        assert before[..i] == trace[..i] && before[i] == trace[i];
      }
      if AtomicThroughout(cfg, before) {
        assert AtomicAfter(cfg, before, last);
        CommitIsAtomicIff(cfg, before, a);
        assert AtomicAfter(cfg, trace, |trace|) <==> GoodAt(cfg, trace, last);
      }
    }
  }

  /** No write to the key commits from the i-th action on. */
  ghost predicate NoCommitTo(cfg: Config, trace: Trace, i: nat, key: Key)
    requires i <= |trace|
  {
    forall j: nat | i <= j < |trace| :: !CommitsTo(cfg, trace, j, key)
  }

  ghost predicate CommitsTo(cfg: Config, trace: Trace, j: nat, key: Key)
    requires j < |trace|
  {
    Run(cfg, trace[..j]).Some? && Commits(Run(cfg, trace[..j]).value, trace[j])
      && Run(cfg, trace[..j]).value.calls[trace[j].id].key == key
  }

  lemma StepKeepsEntry(cfg: Config, s: State, a: Action, s': State, key: Key, inputs: Inputs)
    requires Next(cfg, s, a) == Some(s')
    requires Commits(s, a) ==> s.calls[a.id].key != key && PayloadInv(cfg, s, a.id, inputs)
    ensures SameEntry(s.db, s'.db, key) && s.now <= s'.now
  {
    StepClock(cfg, s, a, s');
    if Commits(s, a) {
      CommitStep(cfg, s, a, s');
    } else {
      NoCommitKeepsDb(cfg, s, a, s');
    }
  }

  /** Without commits to it, the entry of a key stays as it is, while the clock does not go back. */
  lemma {:induction false} EntryKept(cfg: Config, trace: Trace, i: nat, key: Key)
    requires Run(cfg, trace).Some? && i <= |trace| && Run(cfg, trace[..i]).Some? && NoCommitTo(cfg, trace, i, key)
    ensures SameEntry(Run(cfg, trace[..i]).value.db, Run(cfg, trace).value.db, key)
    ensures Run(cfg, trace[..i]).value.now <= Run(cfg, trace).value.now
    decreases |trace|
  {
    if i == |trace| {
      assert trace[..i] == trace;
    } else {
      LastStep(cfg, trace);
      var last := |trace| - 1;
      var before, a := trace[..last], trace[last];
      assert before[..i] == trace[..i];
      forall j: nat | i <= j < last ensures !CommitsTo(cfg, before, j, key) {
        assert !CommitsTo(cfg, trace, j, key);
        assert before[..j] == trace[..j] && before[j] == trace[j];
      }
      EntryKept(cfg, before, i, key);
      assert !CommitsTo(cfg, trace, last, key);
      var inputs := Inputs(None, 0);
      if a.Do? {
        inputs := InputsOf(cfg, before, a.id);
        PayloadInvHolds(cfg, before, a.id);
      }
      StepKeepsEntry(cfg, Run(cfg, before).value, a, Run(cfg, trace).value, key, inputs);
    }
  }

  /** Between the snapshot of a patch and its commit, which would be the next action, no write to
      its key commits, and the entry it read, if any, does not expire. */
  ghost predicate Undisturbed(cfg: Config, before: Trace, a: Action)
    requires Run(cfg, before).Some?
  {
    var s := Run(cfg, before).value;
    Commits(s, a) && s.calls[a.id].op.PatchOp? ==>
      var key, i := s.calls[a.id].key, LandmarksOf(before, a.id).snapshot;
      && 0 <= i < |before| && NoCommitTo(cfg, before, i, key)
      && (Seen(cfg, before, a.id).Some? ==> key in s.db && s.now < s.db[key].expiry)
  }

  /** An undisturbed patch commits what it would have as one atomic step. */
  lemma UndisturbedReadIsGood(cfg: Config, before: Trace, a: Action)
    requires Run(cfg, before).Some? && Undisturbed(cfg, before, a)
    ensures ReadStillGood(cfg, before, a)
  {
    var s := Run(cfg, before).value;
    if Commits(s, a) && s.calls[a.id].op.PatchOp? {
      var key, i := s.calls[a.id].key, LandmarksOf(before, a.id).snapshot;
      SeenAtSnapshot(cfg, before, a.id);
      CallsKept(cfg, before, i, a.id);
      EntryKept(cfg, before, i, key);
      assert Seen(cfg, before, a.id) == Visible(s.db, key, s.now);
    }
  }

  /** If every committed patch of a run is undisturbed, the database is the fold of uploads,
      deletions and pure merges in commit order. */
  lemma UndisturbedRunIsAtomic(cfg: Config, trace: Trace)
    requires Run(cfg, trace).Some?
    requires forall i: nat | i < |trace| :: Run(cfg, trace[..i]).Some? && Undisturbed(cfg, trace[..i], trace[i])
    ensures Run(cfg, trace).value.db == AtomicDatabase(cfg, trace)
  {
    forall i: nat | i < |trace| ensures GoodAt(cfg, trace, i) {
      UndisturbedReadIsGood(cfg, trace[..i], trace[i]);
    }
    AtomicIff(cfg, trace);
    assert AtomicAfter(cfg, trace, |trace|);
    assert trace[..|trace|] == trace;
  }
}
