/** The service and the storage as objects: one call at a time, documents as trees of map objects,
    a clock that goes on and a context that may be cancelled at any moment, as the fate of the call
    has it. */
module Service {
  import opened Documents
  import opened MergeLaws
  import opened Paths
  import opened Heap
  import opened HeapMerge
  import opened HeapTraverse
  import opened Json
  import opened ServiceSpec
  import opened Domain
  import opened Protocol
  import opened ProtocolSolo
  import opened Expiry
  import opened Traverse

  datatype Error = InvalidUploadKey | KeyNotFound | Failed(outcome: Outcome)
  datatype Result<+T> = Ok(value: T) | Err(error: Error)

  /** The context of a call; its surroundings may cancel it, for good. */
  class Context {
    const hasDeadline: bool
    var cancelled: bool

    constructor (hasDeadline: bool)
      ensures this.hasDeadline == hasDeadline && !cancelled
    {
      this.hasDeadline := hasDeadline;
      cancelled := false;
    }
  }

  /** How the write of a payload may end. */
  predicate MayUpdate(cfg: Config, key: Key, write: Write, before: Situation, made: int, r: Outcome, after: Situation) {
    var written := Commit1(before.db, key, write, made + cfg.ttl);
    && before.now <= made <= after.now
    && (before.cancelled ==> after.cancelled)
    && after.degraded == (before.degraded || r == TimedOut)
    && match r
       case Written => !before.degraded && !before.cancelled && after.db == written
       case WriteFailed => !before.degraded && !before.cancelled && after.db == before.db
       case Rejected => before.degraded && after.db == before.db
       case NotStarted => !before.degraded && after.cancelled && after.db == before.db
       case Abandoned =>
         !before.degraded && !before.cancelled && after.cancelled && (after.db == before.db || after.db == written)
       case TimedOut =>
         && !before.degraded && !before.cancelled && before.now + cfg.writeTimeout <= after.now
         && (after.db == before.db || after.db == written)
       case _ => false
  }

  /** How a read that returned an error may end. */
  predicate MayFailToRead(cfg: Config, hasDeadline: bool, before: Situation, r: Outcome, after: Situation) {
    && after.db == before.db && after.degraded == before.degraded && before.now <= after.now
    && (before.cancelled ==> after.cancelled)
    && match r
       case ReadNotStarted => after.cancelled
       case ReadFailed => !before.cancelled
       case ReadAbandoned =>
         !before.cancelled && (after.cancelled || (!hasDeadline && before.now + cfg.readTimeout <= after.now))
       case _ => false
  }

  /** How a read without error may end, having looked at the database at some time. */
  predicate MayRead(before: Situation, read: int, after: Situation) {
    && after.db == before.db && after.degraded == before.degraded && before.now <= read <= after.now
    && !before.cancelled
  }

  predicate IsReadFailure(outcome: Outcome) {
    outcome.ReadFailed? || outcome.ReadNotStarted? || outcome.ReadAbandoned?
  }

  /** What the surroundings of a call have in store for it. Where the database, the context, the
      timer or the scheduler decide, the methods do as the fate says, if that is possible: so every
      end that is possible at all comes about for some fate. */
  datatype Fate = Fate(outcome: Outcome, times: Times, after: Situation)

  function Later(x: int, y: int): int {
    if x < y then y else x
  }

  /** x, if it lies between the bounds. */
  function Between(lo: int, x: int, hi: int): int {
    if lo <= x <= hi then x else hi
  }

  /** The storage of a single caller. */
  class StorageInstance {
    const cfg: Config
    var db: Database
    var degraded: bool
    var now: int

    constructor (cfg: Config)
      ensures this.cfg == cfg && db == map[] && !degraded
    {
      this.cfg := cfg;
      db, degraded := map[], false;
    }

    function At(ctx: Context): Situation
      reads this, ctx
    {
      Situation(db, degraded, now, ctx.cancelled)
    }

    /** Time passes, and the context may be cancelled. */
    method Elapse(ctx: Context, until: int, cancels: bool)
      modifies this`now, ctx
      ensures now == Later(old(now), until) && ctx.cancelled == (old(ctx.cancelled) || cancels)
    {
      now := Later(now, until);
      if cancels {
        ctx.cancelled := true;
      }
    }

    method UpdateWithContext(ctx: Context, key: Key, write: Write, fate: Fate) returns (r: Outcome, ghost made: int)
      modifies this, ctx
      ensures MayUpdate(cfg, key, write, old(At(ctx)), made, r, At(ctx))
      ensures MayUpdate(cfg, key, write, old(At(ctx)), fate.times.stored, fate.outcome, fate.after) ==>
        r == fate.outcome && made == fate.times.stored && At(ctx) == fate.after
    {
      if degraded {
        Elapse(ctx, fate.after.now, fate.after.cancelled);
        return Rejected, Between(old(now), fate.times.stored, now);
      }
      Elapse(ctx, now, fate.outcome.NotStarted? && fate.after.cancelled);
      if ctx.cancelled {
        Elapse(ctx, fate.after.now, true);
        return NotStarted, Between(old(now), fate.times.stored, now);
      }
      var started := now;
      Elapse(ctx, fate.times.stored, false);
      made := now;
      var written := Commit1(db, key, write, now + cfg.ttl);
      var commits := fate.outcome.Written? || (!fate.outcome.WriteFailed? && fate.after.db == written);
      if commits {
        db := written;
      }
      Elapse(ctx, fate.after.now, fate.after.cancelled);
      if fate.outcome.Abandoned? && ctx.cancelled {
        r := Abandoned;
      } else if fate.outcome.TimedOut? && now >= started + cfg.writeTimeout {
        degraded := true;
        r := TimedOut;
      } else {
        r := if commits then Written else WriteFailed;
      }
    }

    method ResetDegraded()
      modifies this
      ensures !degraded && db == old(db) && now == old(now)
    {
      degraded := false;
    }

    method Store(ctx: Context, key: Key, data: GoMap, ghost shape: Shape, fate: Fate)
      returns (r: Outcome, ghost made: int)
      requires IsTree(shape) && InHeap(shape) && shape[[]].obj == data
      modifies this, ctx
      ensures MayUpdate(cfg, key, Put(DocumentOf(shape).fields), old(At(ctx)), made, r, At(ctx))
      ensures MayUpdate(cfg, key, Put(DocumentOf(shape).fields), old(At(ctx)), fate.times.stored, fate.outcome,
                        fate.after) ==>
        r == fate.outcome && made == fate.times.stored && At(ctx) == fate.after
    {
      var payload := MarshalAt(data, shape, []);
      r, made := UpdateWithContext(ctx, key, Put(payload), fate);
    }

    /** viewWithContext: either the snapshot of a key, or why there is none. */
    method ViewWithContext(ctx: Context, key: Key, fate: Fate) returns (r: Result<Option<Fields>>, ghost read: int)
      modifies this`now, ctx
      ensures r.Ok? ==> MayRead(old(At(ctx)), read, At(ctx)) && r.value == Visible(db, key, read)
      ensures r.Err? ==> r.error.Failed? && MayFailToRead(cfg, ctx.hasDeadline, old(At(ctx)), r.error.outcome, At(ctx))
      ensures MayFailToRead(cfg, ctx.hasDeadline, old(At(ctx)), fate.outcome, fate.after) ==>
        r == Err(Failed(fate.outcome)) && At(ctx) == fate.after
      ensures !IsReadFailure(fate.outcome) && MayRead(old(At(ctx)), fate.times.read, fate.after) ==>
        r.Ok? && read == fate.times.read && At(ctx) == fate.after
    {
      read := now;
      Elapse(ctx, now, fate.outcome.ReadNotStarted? && fate.after.cancelled);
      if ctx.cancelled {
        Elapse(ctx, fate.after.now, true);
        return Err(Failed(ReadNotStarted)), now;
      }
      var started := now;
      Elapse(ctx, if IsReadFailure(fate.outcome) then now else fate.times.read, false);
      read := now;
      var found := Visible(db, key, now);
      Elapse(ctx, fate.after.now, fate.after.cancelled);
      if fate.outcome.ReadFailed? {
        r := Err(Failed(ReadFailed));
      } else if fate.outcome.ReadAbandoned?
        && (ctx.cancelled || (!ctx.hasDeadline && now >= started + cfg.readTimeout)) {
        r := Err(Failed(ReadAbandoned));
      } else {
        r := Ok(found);
      }
    }

    /** A missing or expired key reads as an empty map. */
    method Retrieve(ctx: Context, key: Key, fate: Fate) returns (r: Result<GoMap>, ghost shape: Shape, ghost read: int)
      modifies this`now, ctx
      ensures r.Ok? ==> IsTree(shape) && InHeap(shape) && fresh(Objects(shape)) && shape[[]].obj == r.value
      ensures r.Ok? ==> DocumentOf(shape) == Node(OrEmpty(Visible(db, key, read)))
      ensures r.Ok? ==> MayRead(old(At(ctx)), read, At(ctx))
      ensures r.Err? ==> r.error.Failed? && MayFailToRead(cfg, ctx.hasDeadline, old(At(ctx)), r.error.outcome, At(ctx))
      ensures MayFailToRead(cfg, ctx.hasDeadline, old(At(ctx)), fate.outcome, fate.after) ==>
        r == Err(Failed(fate.outcome)) && At(ctx) == fate.after
      ensures !IsReadFailure(fate.outcome) && MayRead(old(At(ctx)), fate.times.read, fate.after) ==>
        r.Ok? && read == fate.times.read && At(ctx) == fate.after
    {
      shape := map[];
      var view;
      view, read := ViewWithContext(ctx, key, fate);
      if view.Err? {
        return Err(view.error), shape, read;
      }
      var existingData;
      existingData, shape := Unmarshal(OrEmpty(view.value));
      r := Ok(existingData);
    }

    /** The stored document as it is; a missing or expired key is an error here. */
    method GetJSON(ctx: Context, key: Key, fate: Fate) returns (r: Result<Fields>, ghost read: int)
      modifies this`now, ctx
      ensures r.Ok? || r == Err(KeyNotFound) ==> MayRead(old(At(ctx)), read, At(ctx))
      ensures r.Ok? ==> Visible(db, key, read) == Some(r.value)
      ensures r == Err(KeyNotFound) ==> Visible(db, key, read) == None
      ensures r.Err? && r != Err(KeyNotFound) ==>
        r.error.Failed? && MayFailToRead(cfg, ctx.hasDeadline, old(At(ctx)), r.error.outcome, At(ctx))
      ensures MayFailToRead(cfg, ctx.hasDeadline, old(At(ctx)), fate.outcome, fate.after) ==>
        r == Err(Failed(fate.outcome)) && At(ctx) == fate.after
      ensures !IsReadFailure(fate.outcome) && MayRead(old(At(ctx)), fate.times.read, fate.after) ==>
        (r.Ok? || r == Err(KeyNotFound)) && read == fate.times.read && At(ctx) == fate.after
    {
      var view;
      view, read := ViewWithContext(ctx, key, fate);
      if view.Err? {
        return Err(view.error), read;
      }
      r := if view.value.Some? then Ok(view.value.value) else Err(KeyNotFound);
    }

    method Delete(ctx: Context, key: Key, fate: Fate) returns (r: Outcome, ghost made: int)
      modifies this, ctx
      ensures MayUpdate(cfg, key, Erase, old(At(ctx)), made, r, At(ctx))
      ensures MayUpdate(cfg, key, Erase, old(At(ctx)), fate.times.stored, fate.outcome, fate.after) ==>
        r == fate.outcome && made == fate.times.stored && At(ctx) == fate.after
    {
      r, made := UpdateWithContext(ctx, key, Erase, fate);
    }
  }

  ghost function FlatShape(m: GoMap, params: map<string, string>): Shape {
    map[[] := Cell(m, map k | k in params :: Str(params[k]))]
  }

  lemma FlatDocument(m: GoMap, params: map<string, string>)
    ensures IsTree(FlatShape(m, params)) && DocumentOf(FlatShape(m, params)) == Node(Texts(params))
  {
    var shape := FlatShape(m, params);
    assert IsTree(shape);
    forall k | k in params ensures SlotDocument(shape, [], k) == Leaf(params[k]) {
    }
    assert DocumentOf(shape).fields == Texts(params);
  }

  /** for k, v := range params { m[k] = v } into a new map. */
  method NewParameterMap(params: map<string, string>) returns (m: GoMap, ghost shape: Shape)
    ensures fresh(m) && shape == FlatShape(m, params) && Objects(shape) == {m}
    ensures IsTree(shape) && InHeap(shape) && DocumentOf(shape) == Node(Texts(params))
  {
    m := new GoMap();
    var remaining := params.Keys;
    while remaining != {}
      invariant remaining <= params.Keys && fresh(m)
      invariant m.entries == map k | k in params && k !in remaining :: Str(params[k])
    {
      var k :| k in remaining;
      m.entries := m.entries[k := Str(params[k])];
      remaining := remaining - {k};
    }
    shape := FlatShape(m, params);
    FlatDocument(m, params);
  }

  /** data["timestamp"] = text, on the root of a tree of maps. */
  method SetTimestamp(data: GoMap, text: string, ghost shape: Shape) returns (ghost stamped: Shape)
    requires IsTree(shape) && InHeap(shape) && shape[[]].obj == data
    modifies data
    ensures IsTree(stamped) && InHeap(stamped) && stamped[[]].obj == data
    ensures DocumentOf(stamped) == Node(DocumentOf(shape).fields[TIMESTAMP := Leaf(text)])
    ensures Objects(stamped) <= Objects(shape)
  {
    stamped := PutText(shape, [], TIMESTAMP, text);
    StampedDocument(shape, text);
    data.entries := data.entries[TIMESTAMP := Str(text)];
  }

  lemma StampedDocument(shape: Shape, text: string)
    requires IsTree(shape)
    ensures IsTree(PutText(shape, [], TIMESTAMP, text))
    ensures DocumentOf(PutText(shape, [], TIMESTAMP, text)) == Node(DocumentOf(shape).fields[TIMESTAMP := Leaf(text)])
  {
    var put := PutText(shape, [], TIMESTAMP, text);
    var want := Node(DocumentOf(shape).fields[TIMESTAMP := Leaf(text)]);
    PutTextIsTree(shape, [], TIMESTAMP, text);
    DocumentKinds(shape);
    DocumentKinds(put);
    forall q ensures KindAt(DocumentOf(put), q) == KindAt(want, q) {
      PutTextKind(shape, [], TIMESTAMP, text, q);
      if q != [] {
        assert q == [q[0]] + q[1..];
        GetUnder(want, q[0], q[1..]);
        GetUnder(DocumentOf(shape), q[0], q[1..]);
        assert [] + [TIMESTAMP] <= q <==> q[0] == TIMESTAMP;
        assert q == [TIMESTAMP] <==> q[0] == TIMESTAMP && q[1..] == [];
      }
    }
    Extensionality(DocumentOf(put), want);
  }

  /** The parameters and the timestamp of an upload, as a new map. */
  method NewUpload(params: map<string, string>, text: string) returns (data: GoMap, ghost shape: Shape)
    ensures fresh(Objects(shape)) && IsTree(shape) && InHeap(shape) && shape[[]].obj == data
    ensures DocumentOf(shape) == Node(UploadedDocument(params, text))
  {
    data, shape := NewParameterMap(params);
    shape := SetTimestamp(data, text, shape);
  }

  /** The merge and the timestamp of a patch, in place on a retrieved tree of maps. */
  method PatchInPlace(existingData: GoMap, path: string, params: map<string, string>, text: string, ghost shape: Shape)
    returns (ghost patched: Shape)
    requires IsTree(shape) && InHeap(shape) && shape[[]].obj == existingData
    modifies Objects(shape)
    ensures IsTree(patched) && InHeap(patched) && patched[[]].obj == existingData
    ensures DocumentOf(patched) ==
            Node(PatchedDocument(DocumentOf(shape).fields, ServiceSpec.Patch(path, params, text)))
    ensures fresh(Objects(patched) - Objects(shape))
  {
    var newData;
    ghost var extra;
    newData, extra := NewParameterMap(params);
    assert OnRoute(shape, MergePosition(path)) <= Objects(shape);
    patched := MergeDataAtPath(existingData, path, newData, shape, extra);
    patched := SetTimestamp(existingData, text, patched);
  }

  /** The download key and the data a write returns. */
  datatype Stored = Stored(downloadKey: Key, data: GoMap)

  function OutcomeOf<T>(r: Result<T>): Outcome
    requires r.Ok? || r.error.Failed?
  {
    if r.Ok? then Written else r.error.outcome
  }

  function WriteResult<T>(outcome: Outcome, value: T): Result<T> {
    if outcome == Written then Ok(value) else Err(Failed(outcome))
  }

  /** A call with a valid upload key ends as a call on its own may, and as its fate says if that is
      one of these ways; one that returned without error has served its request. */
  predicate WriteEnds<T>(env: Setting, uploadKey: string, op: Op, hasDeadline: bool, fate: Fate, before: Situation,
                         t: Times, r: Result<T>, after: Situation) {
    match KeyOf(env, uploadKey)
    case None => r == Err(InvalidUploadKey) && after == before
    case Some(key) =>
      && (r.Ok? || r.error.Failed?)
      && (r.Ok? <==> OutcomeOf(r) == Written)
      && MayEnd(env.cfg, key, op, hasDeadline, before, t, OutcomeOf(r), after)
      && (MayEnd(env.cfg, key, op, hasDeadline, before, fate.times, fate.outcome, fate.after) ==>
            OutcomeOf(r) == fate.outcome && t == fate.times && after == fate.after)
      && (r.Ok? ==> after.db == Serve(env, before.db, Request(t, uploadKey, op)))
  }

  /** What the objects returned by a successful write stand for is what it stored. */
  ghost predicate ReturnsStored(env: Setting, uploadKey: string, db: Database, r: Result<Stored>, shape: Shape)
    reads Objects(shape)
  {
    r.Ok? ==>
      && KeyOf(env, uploadKey) == Some(r.value.downloadKey)
      && IsTree(shape) && InHeap(shape) && shape[[]].obj == r.value.data
      && r.value.downloadKey in db && DocumentOf(shape) == Node(db[r.value.downloadKey].doc)
  }

  /** The payload of a call that waits for nothing but its update. */
  lemma UpdateEnds(cfg: Config, key: Key, op: Op, hasDeadline: bool, before: Situation, read: int, prepared: Situation,
                   made: int, outcome: Outcome, after: Situation)
    requires before.now <= read <= prepared.now && (before.cancelled ==> prepared.cancelled)
    requires prepared.db == before.db && prepared.degraded == before.degraded
    requires op.PatchOp? ==> !before.cancelled
    requires !op.FetchOp?
    requires var payload := Payload(cfg, op, Visible(before.db, key, read), prepared.now);
      MayUpdate(cfg, key, payload, prepared, made, outcome, after)
    ensures MayEnd(cfg, key, op, hasDeadline, before, Times(read, prepared.now, made), outcome, after)
  {
  }

  /** An end that is possible for the call is possible for its update. */
  lemma FateOfUpdate(cfg: Config, key: Key, op: Op, hasDeadline: bool, before: Situation, t: Times, outcome: Outcome,
                     after: Situation)
    requires MayEnd(cfg, key, op, hasDeadline, before, t, outcome, after) && !op.FetchOp? && !IsReadFailure(outcome)
    ensures var payload := Payload(cfg, op, Visible(before.db, key, t.read), t.stamp);
      MayUpdate(cfg, key, payload, before.(now := t.stamp), t.stored, outcome, after)
  {
  }

  /** A write that got as far as its update, and took its fate's way to there, has ended well. */
  lemma UpdateServes<T>(env: Setting, uploadKey: string, key: Key, op: Op, hasDeadline: bool, fate: Fate,
                        before: Situation, t: Times, prepared: Situation, outcome: Outcome, after: Situation, value: T)
    requires KeyOf(env, uploadKey) == Some(key) && !op.FetchOp? && (op.PatchOp? ==> !before.cancelled)
    requires before.now <= t.read <= t.stamp && prepared == before.(now := t.stamp, cancelled := prepared.cancelled)
    requires before.cancelled ==> prepared.cancelled
    requires var payload := Payload(env.cfg, op, Visible(before.db, key, t.read), t.stamp);
      && MayUpdate(env.cfg, key, payload, prepared, t.stored, outcome, after)
      && (MayUpdate(env.cfg, key, payload, prepared, fate.times.stored, fate.outcome, fate.after) ==>
            outcome == fate.outcome && t.stored == fate.times.stored && after == fate.after)
    requires MayEnd(env.cfg, key, op, hasDeadline, before, fate.times, fate.outcome, fate.after) ==>
      !IsReadFailure(fate.outcome) && t.read == fate.times.read && prepared == before.(now := fate.times.stamp)
    ensures WriteEnds(env, uploadKey, op, hasDeadline, fate, before, t, WriteResult(outcome, value), after)
  {
    UpdateEnds(env.cfg, key, op, hasDeadline, before, t.read, prepared, t.stored, outcome, after);
    if MayEnd(env.cfg, key, op, hasDeadline, before, fate.times, fate.outcome, fate.after) {
      FateOfUpdate(env.cfg, key, op, hasDeadline, before, fate.times, fate.outcome, fate.after);
    }
  }

  /** A patch whose fate is to fail in its read does so. */
  lemma PatchReadFate(cfg: Config, key: Key, op: Op, hasDeadline: bool, before: Situation, fate: Fate)
    requires MayEnd(cfg, key, op, hasDeadline, before, fate.times, fate.outcome, fate.after)
    ensures IsReadFailure(fate.outcome) ==> MayFailToRead(cfg, hasDeadline, before, fate.outcome, fate.after)
    ensures op.PatchOp? && !IsReadFailure(fate.outcome) ==> !before.cancelled
  {
  }

  /** A patch that failed in its read has ended so. */
  lemma ReadFailureEnds(env: Setting, uploadKey: string, key: Key, op: Op, hasDeadline: bool, fate: Fate,
                        before: Situation, t: Times, r: Result<Stored>, after: Situation)
    requires KeyOf(env, uploadKey) == Some(key) && op.PatchOp? && r.Err? && r.error.Failed?
    requires before.now <= t.read <= t.stamp <= t.stored <= after.now
    requires MayFailToRead(env.cfg, hasDeadline, before, r.error.outcome, after)
    requires MayEnd(env.cfg, key, op, hasDeadline, before, fate.times, fate.outcome, fate.after) ==>
      r.error.outcome == fate.outcome && t == fate.times && after == fate.after
    ensures WriteEnds(env, uploadKey, op, hasDeadline, fate, before, t, r, after)
  {
  }

  /** A read of a download key, prefixed or not, ends as one on its own may, and as its fate says if
      that is one of these ways. */
  predicate ReadEnds(cfg: Config, downloadKey: string, hasDeadline: bool, fate: Fate, before: Situation, t: Times,
                     outcome: Outcome, after: Situation) {
    var key := StripDownloadPrefix(downloadKey);
    && MayEnd(cfg, key, FetchOp, hasDeadline, before, t, outcome, after)
    && (MayEnd(cfg, key, FetchOp, hasDeadline, before, fate.times, fate.outcome, fate.after) ==>
          outcome == fate.outcome && t == fate.times && after == fate.after)
  }

  /** A key with the prefix "d_" reads what the bare key reads. */
  lemma PrefixedRead(cfg: Config, bare: string, hasDeadline: bool, fate: Fate, before: Situation, t: Times,
                     outcome: Outcome, after: Situation)
    requires !("d_" <= bare)
    ensures ReadEnds(cfg, "d_" + bare, hasDeadline, fate, before, t, outcome, after) <==>
            ReadEnds(cfg, bare, hasDeadline, fate, before, t, outcome, after)
    ensures ReadEnds(cfg, "d_" + bare, hasDeadline, fate, before, t, outcome, after) && outcome.Fetched? ==>
      outcome.found == Visible(before.db, bare, t.read)
  {
    StrippedKeys(bare);
  }

  /** When a call read, if its fate leaves that open. */
  function ReadTimes(t: Times, lo: int, read: int, hi: int): Times {
    if lo <= read == t.read <= t.stamp <= t.stored <= hi then t else Times(read, read, read)
  }

  class DataService {
    const hash: string -> string
    const storage: StorageInstance

    constructor (hash: string -> string, storage: StorageInstance)
      ensures this.hash == hash && this.storage == storage
    {
      this.hash, this.storage := hash, storage;
    }

    function Env(): Setting {
      Setting(storage.cfg, hash)
    }

    /** Validates an upload key and derives its download key, which then never fails. */
    method ResolveKey(uploadKey: string) returns (r: Option<Key>)
      ensures r == KeyOf(Env(), uploadKey)
      ensures r.Some? <==> ValidUploadKey(uploadKey)
    {
      ValidIff(uploadKey);
      r := if ValidUploadKey(uploadKey) then DeriveDownloadKey(hash, uploadKey) else None;
    }

    method Upload(ctx: Context, uploadKey: string, params: map<string, string>, fate: Fate)
      returns (r: Result<Stored>, ghost shape: Shape, ghost t: Times)
      modifies storage, ctx
      ensures WriteEnds(Env(), uploadKey, UploadOp(params), ctx.hasDeadline, fate, old(storage.At(ctx)), t, r,
                        storage.At(ctx))
      ensures ReturnsStored(Env(), uploadKey, storage.db, r, shape)
      ensures r.Ok? ==> fresh(Objects(shape))
    {
      shape, t := map[], fate.times;
      ghost var before := storage.At(ctx);
      var resolved := ResolveKey(uploadKey);
      if resolved.None? {
        return Err(InvalidUploadKey), shape, t;
      }
      var downloadKey := resolved.value;
      storage.Elapse(ctx, fate.times.stamp, false);
      var data;
      data, shape := NewUpload(params, storage.cfg.format(storage.now));
      ghost var prepared := storage.At(ctx);
      var outcome;
      ghost var made;
      outcome, made := storage.Store(ctx, downloadKey, data, shape, fate);
      t := Times(Between(before.now, fate.times.read, prepared.now), prepared.now, made);
      UpdateServes(Env(), uploadKey, downloadKey, UploadOp(params), ctx.hasDeadline, fate, before, t, prepared, outcome,
                   storage.At(ctx), Stored(downloadKey, data));
      r := WriteResult(outcome, Stored(downloadKey, data));
    }

    /** What a patch stores: the retrieved document, merged and stamped in place. */
    method RetrieveAndPatch(ctx: Context, downloadKey: Key, path: string, params: map<string, string>, fate: Fate)
      returns (r: Result<GoMap>, ghost shape: Shape, ghost read: int)
      modifies storage`now, ctx
      ensures r.Ok? ==> MayRead(old(storage.At(ctx)), read, storage.At(ctx))
      ensures r.Ok? ==> IsTree(shape) && InHeap(shape) && fresh(Objects(shape)) && shape[[]].obj == r.value
      ensures r.Ok? ==>
        Put(DocumentOf(shape).fields) ==
        Payload(storage.cfg, PatchOp(path, params), Visible(storage.db, downloadKey, read), storage.now)
      ensures r.Err? ==>
        && r.error.Failed?
        && MayFailToRead(storage.cfg, ctx.hasDeadline, old(storage.At(ctx)), r.error.outcome, storage.At(ctx))
      ensures MayFailToRead(storage.cfg, ctx.hasDeadline, old(storage.At(ctx)), fate.outcome, fate.after) ==>
        r == Err(Failed(fate.outcome)) && storage.At(ctx) == fate.after
      ensures !IsReadFailure(fate.outcome) && !old(ctx.cancelled)
              && old(storage.now) <= fate.times.read <= fate.times.stamp ==>
        r.Ok? && read == fate.times.read && storage.At(ctx) == old(storage.At(ctx)).(now := fate.times.stamp)
    {
      var readFate := fate;
      if !IsReadFailure(fate.outcome) {
        readFate := fate.(after := storage.At(ctx).(now := fate.times.read));
      }
      r, shape, read := storage.Retrieve(ctx, downloadKey, readFate);
      if r.Ok? {
        storage.Elapse(ctx, fate.times.stamp, false);
        shape := PatchInPlace(r.value, path, params, storage.cfg.format(storage.now), shape);
      }
    }

    method Patch(ctx: Context, uploadKey: string, path: string, params: map<string, string>, fate: Fate)
      returns (r: Result<Stored>, ghost shape: Shape, ghost t: Times)
      modifies storage, ctx
      ensures WriteEnds(Env(), uploadKey, PatchOp(path, params), ctx.hasDeadline, fate, old(storage.At(ctx)), t, r,
                        storage.At(ctx))
      ensures ReturnsStored(Env(), uploadKey, storage.db, r, shape)
      ensures r.Ok? ==> fresh(Objects(shape))
    {
      shape, t := map[], fate.times;
      ghost var before := storage.At(ctx);
      var resolved := ResolveKey(uploadKey);
      if resolved.None? {
        return Err(InvalidUploadKey), shape, t;
      }
      var downloadKey := resolved.value;
      var patched;
      ghost var read;
      patched, shape, read := RetrieveAndPatch(ctx, downloadKey, path, params, fate);
      if MayEnd(storage.cfg, downloadKey, PatchOp(path, params), ctx.hasDeadline, before, fate.times, fate.outcome,
                fate.after) {
        PatchReadFate(storage.cfg, downloadKey, PatchOp(path, params), ctx.hasDeadline, before, fate);
      }
      if patched.Err? {
        t := ReadTimes(fate.times, before.now, Between(before.now, fate.times.read, storage.now), storage.now);
        r := Err(patched.error);
        ReadFailureEnds(Env(), uploadKey, downloadKey, PatchOp(path, params), ctx.hasDeadline, fate, before, t, r,
                        storage.At(ctx));
        return;
      }
      var existingData := patched.value;
      ghost var prepared := storage.At(ctx);
      var outcome;
      ghost var made;
      outcome, made := storage.Store(ctx, downloadKey, existingData, shape, fate);
      t := Times(read, prepared.now, made);
      UpdateServes(Env(), uploadKey, downloadKey, PatchOp(path, params), ctx.hasDeadline, fate, before, t, prepared,
                   outcome, storage.At(ctx), Stored(downloadKey, existingData));
      r := WriteResult(outcome, Stored(downloadKey, existingData));
    }

    method Delete(ctx: Context, uploadKey: string, fate: Fate) returns (r: Result<Key>, ghost t: Times)
      modifies storage, ctx
      ensures WriteEnds(Env(), uploadKey, DeleteOp, ctx.hasDeadline, fate, old(storage.At(ctx)), t, r, storage.At(ctx))
      ensures r.Ok? ==> KeyOf(Env(), uploadKey) == Some(r.value) && r.value !in storage.db
    {
      t := fate.times;
      ghost var before := storage.At(ctx);
      var resolved := ResolveKey(uploadKey);
      if resolved.None? {
        return Err(InvalidUploadKey), t;
      }
      var downloadKey := resolved.value;
      storage.Elapse(ctx, fate.times.stamp, false);
      ghost var prepared := storage.At(ctx);
      var outcome;
      ghost var made;
      outcome, made := storage.Delete(ctx, downloadKey, fate);
      t := Times(Between(before.now, fate.times.read, prepared.now), prepared.now, made);
      UpdateServes(Env(), uploadKey, downloadKey, DeleteOp, ctx.hasDeadline, fate, before, t, prepared, outcome,
                   storage.At(ctx), downloadKey);
      r := WriteResult(outcome, downloadKey);
    }

    /** The outcome of the read is the document visible under the stripped key, or none. */
    method DownloadJSON(ctx: Context, downloadKey: string, fate: Fate) returns (r: Result<Fields>, ghost t: Times)
      modifies storage`now, ctx
      ensures r.Ok? || r.error.KeyNotFound? || (r.error.Failed? && IsReadFailure(r.error.outcome))
      ensures var outcome := if r.Ok? then Fetched(Some(r.value)) else if r.error.Failed? then r.error.outcome
                             else Fetched(None);
        ReadEnds(storage.cfg, downloadKey, ctx.hasDeadline, fate, old(storage.At(ctx)), t, outcome, storage.At(ctx))
    {
      ghost var before := storage.At(ctx);
      ghost var read;
      r, read := storage.GetJSON(ctx, StripDownloadPrefix(downloadKey), fate);
      if r.Err? && r.error.Failed? {
        read := Between(before.now, fate.times.read, storage.now);
      }
      t := ReadTimes(fate.times, before.now, read, storage.now);
    }

    /** A key that is missing or expired reads as an empty document, in which nothing is found. */
    method DownloadField(ctx: Context, downloadKey: string, fieldPath: string, fate: Fate)
      returns (r: Result<Lookup<Slot>>, ghost found: Option<Fields>, ghost shape: Shape, ghost t: Times)
      modifies storage`now, ctx
      ensures r.Ok? || (r.error.Failed? && IsReadFailure(r.error.outcome))
      ensures ReadEnds(storage.cfg, downloadKey, ctx.hasDeadline, fate, old(storage.At(ctx)), t,
                       if r.Ok? then Fetched(found) else r.error.outcome, storage.At(ctx))
      ensures r.Ok? ==> IsTree(shape) && InHeap(shape) && fresh(Objects(shape))
      ensures r.Ok? ==>
        match LookupOf(OrEmpty(found), fieldPath)
        case Found(v) => r.value.Found? && StandsFor(shape, Split(fieldPath), r.value.value, v)
        case NotFound => r.value == NotFound
        case InvalidPath => r.value == InvalidPath
    {
      ghost var before := storage.At(ctx);
      var data;
      ghost var read;
      data, shape, read := storage.Retrieve(ctx, StripDownloadPrefix(downloadKey), fate);
      found := Visible(storage.db, StripDownloadPrefix(downloadKey), read);
      if data.Err? {
        t := ReadTimes(fate.times, before.now, Between(before.now, fate.times.read, storage.now), storage.now);
        return Err(data.error), found, shape, t;
      }
      t := ReadTimes(fate.times, before.now, read, storage.now);
      var value := TraverseField(data.value, fieldPath, shape);
      r := Ok(value);
    }
  }
}
