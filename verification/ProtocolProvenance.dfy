/** Where the leaves of stored documents come from, under every interleaving. */
module ProtocolProvenance {
  import opened Documents
  import opened MergeLaws
  import opened Paths
  import opened ServiceSpec
  import opened ServiceLaws
  import opened Protocol
  import opened ProtocolCalls
  import opened ProtocolPayload
  import opened ProtocolPatch

  /** The operation writes this text at exactly this position. */
  ghost predicate Supplies(op: Op, q: Segments, text: string) {
    match op
    case UploadOp(params) => |q| == 1 && q[0] in params && params[q[0]] == text
    case PatchOp(path, params) => exists k :: k in params && q == MergePosition(path) + [k] && params[k] == text
    case _ => false
  }

  /** A timestamp text the clock has shown. */
  ghost predicate IsClockText(cfg: Config, text: string, now: int) {
    exists t :: 0 <= t <= now && cfg.format(t) == text
  }

  ghost predicate HasCommitted(s: State, id: Id) {
    id in s.txns && s.txns[id].Committed?
  }

  /** A call for the key supplied the text there, and it has committed or is the author itself. */
  ghost predicate SuppliedBy(s: State, key: Key, q: Segments, text: string, author: Option<Id>, id: Id) {
    && id in s.calls && s.calls[id].key == key && Supplies(s.calls[id].op, q, text)
    && (HasCommitted(s, id) || author == Some(id))
  }

  ghost predicate HasSource(cfg: Config, s: State, key: Key, q: Segments, text: string, author: Option<Id>) {
    if q == [TIMESTAMP] then IsClockText(cfg, text, s.now)
    else exists id :: SuppliedBy(s, key, q, text, author, id)
  }

  /** Every leaf of the document has a source. */
  ghost predicate Sourced(cfg: Config, s: State, key: Key, doc: Fields, author: Option<Id>) {
    forall q, text | KindAt(Node(doc), q) == Text(text) :: HasSource(cfg, s, key, q, text, author)
  }

  ghost predicate StoredSourced(cfg: Config, s: State) {
    forall key | key in s.db :: Sourced(cfg, s, key, s.db[key].doc, None)
  }

  ghost predicate WriteSourced(cfg: Config, s: State, key: Key, w: Write, author: Id) {
    w.Put? ==> Sourced(cfg, s, key, w.doc, Some(author))
  }

  ghost predicate CallSourced(cfg: Config, s: State, id: Id) {
    && (id in s.calls && s.calls[id].pc.Read? ==>
          Sourced(cfg, s, s.calls[id].key, OrEmpty(s.calls[id].pc.found), None))
    && (id in s.calls && CarriesPayload(s.calls[id].pc) ==>
          WriteSourced(cfg, s, s.calls[id].key, s.calls[id].pc.write, id))
    && (id in s.txns && s.txns[id].Pending? ==> WriteSourced(cfg, s, s.txns[id].key, s.txns[id].write, id))
  }

  /** Calls keep their operation, commits stay and the clock does not go back. */
  ghost predicate Later(s: State, s': State) {
    && s.now <= s'.now
    && (forall id | id in s.calls ::
          id in s'.calls && s'.calls[id].key == s.calls[id].key && s'.calls[id].op == s.calls[id].op)
    && (forall id | HasCommitted(s, id) :: HasCommitted(s', id))
  }

  lemma SourcedLater(cfg: Config, s: State, s': State, key: Key, doc: Fields, author: Option<Id>, author': Option<Id>)
    requires Later(s, s') && Sourced(cfg, s, key, doc, author)
    requires author' == author || (author.Some? && HasCommitted(s', author.value)) || author == None
    ensures Sourced(cfg, s', key, doc, author')
  {
    forall q, text | KindAt(Node(doc), q) == Text(text) ensures HasSource(cfg, s', key, q, text, author') {
      assert HasSource(cfg, s, key, q, text, author);
      if q == [TIMESTAMP] {
        var t :| 0 <= t <= s.now && cfg.format(t) == text;
        assert t <= s'.now;
      } else {
        var id :| SuppliedBy(s, key, q, text, author, id);
        assert SuppliedBy(s', key, q, text, author', id);
      }
    }
  }

  ghost predicate TxnsStarted(s: State) {
    forall id | id in s.txns :: id in s.calls && HasTxn(s.calls[id].pc)
  }

  lemma StepLater(cfg: Config, s: State, a: Action, s': State)
    requires Next(cfg, s, a) == Some(s') && TxnsStarted(s)
    ensures Later(s, s')
  {
    StepClock(cfg, s, a, s');
    forall id | id in s.calls
      ensures id in s'.calls && s'.calls[id].key == s.calls[id].key && s'.calls[id].op == s.calls[id].op
    {
      StepKeepsCalls(cfg, s, a, s', id);
    }
    forall id | HasCommitted(s, id) ensures HasCommitted(s', id) {
      StepKeepsCommitted(cfg, s, a, s', id);
    }
  }

  lemma StepKeepsCommitted(cfg: Config, s: State, a: Action, s': State, id: Id)
    requires Next(cfg, s, a) == Some(s') && HasCommitted(s, id) && TxnsStarted(s)
    ensures HasCommitted(s', id)
  {
  }

  lemma UploadSourced(cfg: Config, s: State, id: Id, stamp: int)
    requires id in s.calls && s.calls[id].op.UploadOp? && 0 <= stamp <= s.now
    ensures Sourced(cfg, s, s.calls[id].key, UploadedDocument(s.calls[id].op.params, cfg.format(stamp)), Some(id))
  {
    var key, params := s.calls[id].key, s.calls[id].op.params;
    var doc := UploadedDocument(params, cfg.format(stamp));
    forall q, text | KindAt(Node(doc), q) == Text(text) ensures HasSource(cfg, s, key, q, text, Some(id)) {
      UploadedKind(params, cfg.format(stamp), q);
      if q != [TIMESTAMP] {
        assert SuppliedBy(s, key, q, text, Some(id), id);
      }
    }
  }

  lemma PatchSourced(cfg: Config, s: State, id: Id, found: Fields, stamp: int)
    requires id in s.calls && s.calls[id].op.PatchOp? && 0 <= stamp <= s.now
    requires Sourced(cfg, s, s.calls[id].key, found, None)
    ensures var op := s.calls[id].op;
      Sourced(cfg, s, s.calls[id].key, PatchedDocument(found, Patch(op.path, op.params, cfg.format(stamp))), Some(id))
  {
    var key, op := s.calls[id].key, s.calls[id].op;
    var patch := Patch(op.path, op.params, cfg.format(stamp));
    forall q, text | KindAt(Node(PatchedDocument(found, patch)), q) == Text(text)
      ensures HasSource(cfg, s, key, q, text, Some(id))
    {
      PatchedKind(found, patch, q);
      if q == [TIMESTAMP] {
        assert cfg.format(stamp) == text;
      } else {
        KindAfterMerge(found, MergePosition(op.path), Texts(op.params), q);
        LeavesAfterTextMerge(found, MergePosition(op.path), op.params, q, text);
        if KindAt(Node(found), q) == Text(text) {
          assert HasSource(cfg, s, key, q, text, None);
          var other :| SuppliedBy(s, key, q, text, None, other);
          assert SuppliedBy(s, key, q, text, Some(id), other);
        } else {
          assert SuppliedBy(s, key, q, text, Some(id), id);
        }
      }
    }
  }

  ghost predicate AllSourced(cfg: Config, s: State) {
    StoredSourced(cfg, s) && forall id :: CallSourced(cfg, s, id)
  }

  lemma OtherCallStaysSourced(cfg: Config, s: State, a: Action, s': State, id: Id)
    requires Next(cfg, s, a) == Some(s') && TxnsStarted(s) && !About(a, id) && CallSourced(cfg, s, id)
    ensures CallSourced(cfg, s', id)
  {
    OthersUntouched(cfg, s, a, s', id);
    StepLater(cfg, s, a, s');
    if id in s.calls && s.calls[id].pc.Read? {
      SourcedLater(cfg, s, s', s.calls[id].key, OrEmpty(s.calls[id].pc.found), None, None);
    }
    if id in s.calls && CarriesPayload(s.calls[id].pc) && s.calls[id].pc.write.Put? {
      SourcedLater(cfg, s, s', s.calls[id].key, s.calls[id].pc.write.doc, Some(id), Some(id));
    }
    if id in s.txns && s.txns[id].Pending? && s.txns[id].write.Put? {
      SourcedLater(cfg, s, s', s.txns[id].key, s.txns[id].write.doc, Some(id), Some(id));
    }
  }

  lemma EmptySourced(cfg: Config, s: State, key: Key, author: Option<Id>)
    ensures Sourced(cfg, s, key, map[], author)
  {
    forall q ensures !KindAt(Node(map[]), q).Text? {
    }
  }

  lemma ReadCallStaysSourced(cfg: Config, s: State, id: Id, e: Event, s': State)
    requires id in s.calls && id !in s.txns && IsReadEvent(e) && ReadStep(cfg, s, id, e) == Some(s')
    requires StoredSourced(cfg, s) && CallSourced(cfg, s, id) && Later(s, s') && 0 <= s.now
    ensures CallSourced(cfg, s', id)
  {
    ReadStepOnlyPc(cfg, s, id, e, s');
    var c := s.calls[id];
    if e.Snapshot? {
      EmptySourced(cfg, s, c.key, None);
      SourcedLater(cfg, s, s', c.key, OrEmpty(Visible(s.db, c.key, s.now)), None, None);
    } else if e.FinishPatchRead? {
      PatchSourced(cfg, s, id, OrEmpty(c.pc.found), s.now);
      SourcedLater(cfg, s, s', c.key, s'.calls[id].pc.write.doc, Some(id), Some(id));
    }
  }

  lemma GateCallStaysSourced(cfg: Config, s: State, id: Id, e: Event, s': State)
    requires id in s.calls && id !in s.txns && IsGateEvent(e) && GateStep(cfg, s, id, e) == Some(s')
    requires CallSourced(cfg, s, id) && Later(s, s') && 0 <= s.now
    ensures CallSourced(cfg, s', id)
  {
    GateStepOnlyPc(cfg, s, id, e, s');
    var c := s.calls[id];
    if e.Prepare? && c.op.UploadOp? {
      UploadSourced(cfg, s, id, s.now);
      SourcedLater(cfg, s, s', c.key, s'.calls[id].pc.write.doc, Some(id), Some(id));
    } else if (e.PassFlag? || e.PassContext?) && c.pc.write.Put? {
      SourcedLater(cfg, s, s', c.key, c.pc.write.doc, Some(id), Some(id));
    }
  }

  lemma TxnCallStaysSourced(cfg: Config, s: State, id: Id, e: Event, s': State)
    requires id in s.calls && TxnStep(cfg, s, id, e) == Some(s') && !IsReadEvent(e) && !IsGateEvent(e)
    requires CallSourced(cfg, s, id) && Later(s, s') && (id in s.txns <==> HasTxn(s.calls[id].pc))
    ensures CallSourced(cfg, s', id)
  {
    TxnStepKeeps(cfg, s, id, e, s');
    var c := s.calls[id];
    if e.Start? && c.pc.write.Put? {
      SourcedLater(cfg, s, s', c.key, c.pc.write.doc, Some(id), Some(id));
    }
    if id in s.txns && s.txns[id].Pending? && s.txns[id].write.Put? {
      SourcedLater(cfg, s, s', s.txns[id].key, s.txns[id].write.doc, Some(id), Some(id));
    }
  }

  lemma StoredStaysSourced(cfg: Config, s: State, a: Action, s': State)
    requires Next(cfg, s, a) == Some(s') && Later(s, s') && AllSourced(cfg, s)
    ensures StoredSourced(cfg, s')
  {
    if Commits(s, a) {
      CommitStep(cfg, s, a, s');
      assert CallSourced(cfg, s, a.id);
      assert HasCommitted(s', a.id);
    } else {
      NoCommitKeepsDb(cfg, s, a, s');
    }
    forall key | key in s'.db ensures Sourced(cfg, s', key, s'.db[key].doc, None) {
      if Commits(s, a) && key == s.txns[a.id].key {
        SourcedByCommitted(cfg, s, s', key, s'.db[key].doc, a.id);
      } else {
        SourcedLater(cfg, s, s', key, s.db[key].doc, None, None);
      }
    }
  }

  lemma SourcedByCommitted(cfg: Config, s: State, s': State, key: Key, doc: Fields, author: Id)
    requires Later(s, s') && Sourced(cfg, s, key, doc, Some(author)) && HasCommitted(s', author)
    ensures Sourced(cfg, s', key, doc, None)
  {
    SourcedLater(cfg, s, s', key, doc, Some(author), None);
  }

  lemma CallsConsistent(cfg: Config, trace: Trace)
    requires Run(cfg, trace).Some?
    ensures TxnsStarted(Run(cfg, trace).value)
    ensures forall id | id in Run(cfg, trace).value.calls ::
      (id in Run(cfg, trace).value.txns <==> HasTxn(Run(cfg, trace).value.calls[id].pc))
  {
    forall id
      ensures id in Run(cfg, trace).value.txns ==> id in Run(cfg, trace).value.calls
      ensures id in Run(cfg, trace).value.calls ==>
        (id in Run(cfg, trace).value.txns <==> HasTxn(Run(cfg, trace).value.calls[id].pc))
    {
      CallInvHolds(cfg, trace, id);
    }
  }

  lemma StepKeepsSourced(cfg: Config, s: State, a: Action, s': State)
    requires Next(cfg, s, a) == Some(s') && AllSourced(cfg, s) && 0 <= s.now && TxnsStarted(s)
    requires forall id | id in s.calls :: (id in s.txns <==> HasTxn(s.calls[id].pc))
    ensures AllSourced(cfg, s')
  {
    StepLater(cfg, s, a, s');
    StoredStaysSourced(cfg, s, a, s');
    forall id ensures CallSourced(cfg, s', id) {
      assert CallSourced(cfg, s, id);
      if !About(a, id) {
        OtherCallStaysSourced(cfg, s, a, s', id);
      } else if a.Do? && IsReadEvent(a.event) {
        ReadCallStaysSourced(cfg, s, id, a.event, s');
      } else if a.Do? && IsGateEvent(a.event) {
        GateCallStaysSourced(cfg, s, id, a.event, s');
      } else if a.Do? {
        TxnCallStaysSourced(cfg, s, id, a.event, s');
      }
    }
  }

  /** In every run, whatever was lost, late or abandoned: every leaf of every stored document is
      the service's timestamp at the root key, or was supplied for that download key at exactly
      that position by a call whose transaction has committed. */
  lemma {:induction false} Provenance(cfg: Config, trace: Trace)
    requires Run(cfg, trace).Some?
    ensures AllSourced(cfg, Run(cfg, trace).value) && 0 <= Run(cfg, trace).value.now
    decreases |trace|
  {
    if trace != [] {
      LastStep(cfg, trace);
      var before, a := trace[..|trace|-1], trace[|trace|-1];
      Provenance(cfg, before);
      CallsConsistent(cfg, before);
      StepKeepsSourced(cfg, Run(cfg, before).value, a, Run(cfg, trace).value);
      StepClock(cfg, Run(cfg, before).value, a, Run(cfg, trace).value);
    }
  }

  /** The same for one leaf of one stored document. */
  lemma StoredLeafHasSource(cfg: Config, trace: Trace, key: Key, q: Segments, text: string)
    requires Run(cfg, trace).Some? && key in Run(cfg, trace).value.db
    requires KindAt(Node(Run(cfg, trace).value.db[key].doc), q) == Text(text)
    ensures if q == [TIMESTAMP] then IsClockText(cfg, text, Run(cfg, trace).value.now)
            else exists id :: SuppliedBy(Run(cfg, trace).value, key, q, text, None, id)
  {
    Provenance(cfg, trace);
    assert HasSource(cfg, Run(cfg, trace).value, key, q, text, None);
  }
}
