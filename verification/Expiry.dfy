/** Sequential runs of successful service calls: what is visible for a key at a time. */
module Expiry {
  import opened Documents
  import opened ServiceSpec
  import opened Domain
  import opened Protocol

  /** A successful service call and when its steps happened. */
  datatype Request = Request(times: Times, uploadKey: string, op: Op)

  /** The clock, the key derivation and the lifetime of an entry. */
  datatype Setting = Setting(cfg: Config, hash: string -> string)

  /** The download key of a valid upload key. */
  function KeyOf(env: Setting, uploadKey: string): Option<Key> {
    if ValidUploadKey(uploadKey) then DeriveDownloadKey(env.hash, uploadKey) else None
  }

  /** One call on the database: a request with an invalid key, or a read, changes nothing. */
  function Serve(env: Setting, db: Database, r: Request): Database {
    match KeyOf(env, r.uploadKey)
    case None => db
    case Some(key) => if r.op.FetchOp? then db else CommitAlone(env.cfg, db, key, r.op, r.times)
  }

  function ServeAll(env: Setting, rs: seq<Request>): Database {
    if rs == [] then map[] else Serve(env, ServeAll(env, rs[..|rs|-1]), rs[|rs|-1])
  }

  /** The requests that write to a key. */
  function ForKey(env: Setting, rs: seq<Request>, key: Key): seq<Request> {
    if rs == [] then []
    else
      var earlier, r := ForKey(env, rs[..|rs|-1], key), rs[|rs|-1];
      if KeyOf(env, r.uploadKey) == Some(key) && !r.op.FetchOp? then earlier + [r] else earlier
  }

  lemma ServeAllSnoc(env: Setting, rs: seq<Request>, r: Request)
    ensures ServeAll(env, rs + [r]) == Serve(env, ServeAll(env, rs), r)
  {
    assert (rs + [r])[..|rs|] == rs;
  }

  lemma ServeLocal(env: Setting, a: Database, b: Database, r: Request, key: Key)
    requires SameEntry(a, b, key)
    ensures KeyOf(env, r.uploadKey) == Some(key) ==> SameEntry(Serve(env, a, r), Serve(env, b, r), key)
    ensures KeyOf(env, r.uploadKey) != Some(key) || r.op.FetchOp? ==> SameEntry(Serve(env, a, r), b, key)
  {
  }

  /** Requests with another derived key, and reads, are irrelevant to what a key holds. */
  lemma {:induction false} Isolation(env: Setting, rs: seq<Request>, key: Key)
    ensures SameEntry(ServeAll(env, rs), ServeAll(env, ForKey(env, rs, key)), key)
    decreases |rs|
  {
    if rs != [] {
      var before, r := rs[..|rs|-1], rs[|rs|-1];
      Isolation(env, before, key);
      ServeLocal(env, ServeAll(env, before), ServeAll(env, ForKey(env, before, key)), r, key);
      if KeyOf(env, r.uploadKey) == Some(key) && !r.op.FetchOp? {
        ServeAllSnoc(env, ForKey(env, before, key), r);
      } else {
        assert ForKey(env, rs, key) == ForKey(env, before, key);
      }
    }
  }

  /** The write requests made with one bare upload key, prefixed or not. */
  function ForUploadKey(rs: seq<Request>, bare: string): seq<Request> {
    if rs == [] then []
    else
      var earlier, r := ForUploadKey(rs[..|rs|-1], bare), rs[|rs|-1];
      if ValidUploadKey(r.uploadKey) && StripUploadPrefix(r.uploadKey) == bare && !r.op.FetchOp?
      then earlier + [r] else earlier
  }

  lemma {:induction false} ForKeyIsForUploadKey(env: Setting, rs: seq<Request>, uploadKey: string)
    requires Injective(env.hash) && ValidUploadKey(uploadKey)
    ensures KeyOf(env, uploadKey).Some?
    ensures ForKey(env, rs, KeyOf(env, uploadKey).value) == ForUploadKey(rs, StripUploadPrefix(uploadKey))
    decreases |rs|
  {
    DerivedKeys(env.hash, uploadKey, uploadKey);
    if rs != [] {
      ForKeyIsForUploadKey(env, rs[..|rs|-1], uploadKey);
      var r := rs[|rs|-1];
      if ValidUploadKey(r.uploadKey) {
        DerivedKeys(env.hash, r.uploadKey, uploadKey);
      }
    }
  }

  /** If the hash has no collisions, requests with another bare upload key are irrelevant to what
      the download key of an upload key holds. */
  lemma UploadKeyIsolation(env: Setting, rs: seq<Request>, uploadKey: string)
    requires Injective(env.hash) && ValidUploadKey(uploadKey)
    ensures KeyOf(env, uploadKey) == Some(env.hash(StripUploadPrefix(uploadKey)))
    ensures var key := env.hash(StripUploadPrefix(uploadKey));
      SameEntry(ServeAll(env, rs), ServeAll(env, ForUploadKey(rs, StripUploadPrefix(uploadKey))), key)
  {
    DerivedKeys(env.hash, uploadKey, uploadKey);
    ForKeyIsForUploadKey(env, rs, uploadKey);
    Isolation(env, rs, KeyOf(env, uploadKey).value);
  }

  predicate OnlyWrites(f: seq<Request>) {
    forall i | 0 <= i < |f| :: !f[i].op.FetchOp?
  }

  predicate TimesInOrder(t: Times) {
    t.read <= t.stamp <= t.stored
  }

  predicate InOrder(f: seq<Request>) {
    && (forall i | 0 <= i < |f| :: TimesInOrder(f[i].times))
    && forall i | 0 < i < |f| :: f[i-1].times.stored <= f[i].times.read
  }

  predicate AllTo(env: Setting, f: seq<Request>, key: Key) {
    forall i | 0 <= i < |f| :: KeyOf(env, f[i].uploadKey) == Some(key)
  }

  predicate WritesTo(env: Setting, f: seq<Request>, key: Key) {
    OnlyWrites(f) && InOrder(f) && AllTo(env, f, key)
  }

  /** The i-th write comes when nothing of the earlier ones is alive. */
  predicate Fresh(env: Setting, f: seq<Request>, i: nat)
    requires i < |f|
  {
    i == 0 || f[i-1].op.DeleteOp? || f[i].times.read >= f[i-1].times.stored + env.cfg.ttl
  }

  /** The i-th write patches what the one before it left. */
  predicate Continues(env: Setting, f: seq<Request>, i: nat)
    requires 0 < i < |f|
  {
    f[i].op.PatchOp? && f[i].times.read < f[i-1].times.stored + env.cfg.ttl
  }

  /** The window of the document begins at n: its writes from n on are one upload, or one patch
      that finds nothing alive, and then patches less than the lifetime apart. It is empty when
      there are no writes or the last one is a deletion. */
  ghost predicate IsWindow(env: Setting, f: seq<Request>, n: nat) {
    && n <= |f|
    && (n == |f| <==> f == [] || f[|f|-1].op.DeleteOp?)
    && (n < |f| ==> f[n].op.UploadOp? || (f[n].op.PatchOp? && Fresh(env, f, n)))
    && forall i | n < i < |f| :: Continues(env, f, i)
  }

  /** The document after one more patch request. */
  function PatchedBy(env: Setting, t: Fields, r: Request): Fields {
    if r.op.PatchOp? then PatchedDocument(t, Patch(r.op.path, r.op.params, env.cfg.format(r.times.stamp))) else t
  }

  /** The fold of the pure merges over a window. */
  function WindowDocument(env: Setting, f: seq<Request>, n: nat): Fields
    requires n < |f|
  {
    var last := |f| - 1;
    if n < last then PatchedBy(env, WindowDocument(env, f[..last], n), f[last])
    else if f[n].op.UploadOp? then UploadedDocument(f[n].op.params, env.cfg.format(f[n].times.stamp))
    else PatchedBy(env, map[], f[n])
  }

  lemma WindowSnoc(env: Setting, before: seq<Request>, r: Request, n: nat)
    requires n < |before| && r.op.PatchOp?
    ensures IsWindow(env, before + [r], n) <==>
            IsWindow(env, before, n) && r.times.read < before[|before|-1].times.stored + env.cfg.ttl
  {
    var f := before + [r];
    forall i | 0 < i < |before| ensures Continues(env, f, i) <==> Continues(env, before, i) {
    }
    assert Fresh(env, f, n) <==> Fresh(env, before, n);
    assert Continues(env, f, |before|) <==> r.times.read < before[|before|-1].times.stored + env.cfg.ttl;
    if IsWindow(env, f, n) && |before| - 1 > n {
      assert Continues(env, f, |before| - 1);
    }
  }

  /** Every sequence of writes has exactly one window. */
  lemma {:induction false} WindowExists(env: Setting, f: seq<Request>) returns (n: nat)
    requires OnlyWrites(f)
    ensures IsWindow(env, f, n)
    decreases |f|
  {
    if f == [] || f[|f|-1].op.DeleteOp? {
      n := |f|;
    } else {
      var last := |f| - 1;
      if f[last].op.UploadOp? || Fresh(env, f, last) {
        n := last;
      } else {
        n := WindowExists(env, f[..last]);
        assert f == f[..last] + [f[last]];
        WindowSnoc(env, f[..last], f[last], n);
      }
    }
  }

  lemma NoSecondWindow(env: Setting, f: seq<Request>, n: nat, m: nat)
    requires IsWindow(env, f, n) && n < m < |f|
    ensures !IsWindow(env, f, m)
  {
    assert Continues(env, f, m);
    assert m - 1 > n ==> Continues(env, f, m - 1);
  }

  lemma WindowUnique(env: Setting, f: seq<Request>, n: nat, m: nat)
    requires IsWindow(env, f, n) && IsWindow(env, f, m)
    ensures n == m
  {
    if n < m < |f| {
      NoSecondWindow(env, f, n, m);
    } else if m < n < |f| {
      NoSecondWindow(env, f, m, n);
    }
  }

  /** The document a write leaves, given what it finds; None for a deletion. */
  function Left(env: Setting, found: Option<Fields>, r: Request): Option<Fields> {
    match r.op
    case UploadOp(params) => Some(UploadedDocument(params, env.cfg.format(r.times.stamp)))
    case PatchOp(_, _) => Some(PatchedBy(env, OrEmpty(found), r))
    case _ => None
  }

  lemma VisibleAfter(env: Setting, db: Database, r: Request, key: Key, t: int)
    requires KeyOf(env, r.uploadKey) == Some(key) && !r.op.FetchOp?
    ensures Visible(Serve(env, db, r), key, t) ==
            if t < r.times.stored + env.cfg.ttl then Left(env, Visible(db, key, r.times.read), r) else None
  {
  }

  lemma WindowLeft(env: Setting, before: seq<Request>, r: Request, n: nat, m: nat, found: Option<Fields>)
    requires IsWindow(env, before + [r], n) && IsWindow(env, before, m) && !r.op.FetchOp?
    requires found == if m < |before| && r.times.read < before[|before|-1].times.stored + env.cfg.ttl
                      then Some(WindowDocument(env, before, m)) else None
    ensures Left(env, found, r) == if n <= |before| then Some(WindowDocument(env, before + [r], n)) else None
  {
    var f := before + [r];
    assert f[..|before|] == before;
    assert n < |before| ==> Continues(env, f, |before|);
    if n < |before| {
      WindowSnoc(env, before, r, n);
      WindowUnique(env, before, n, m);
    } else if r.op.PatchOp? && before != [] {
      assert Fresh(env, f, n);
    }
  }

  lemma WritesBefore(env: Setting, f: seq<Request>, key: Key)
    requires WritesTo(env, f, key) && f != []
    ensures var before, r := f[..|f|-1], f[|f|-1];
      && WritesTo(env, before, key) && (before != [] ==> before[|before|-1].times.stored <= r.times.read)
      && TimesInOrder(r.times) && KeyOf(env, r.uploadKey) == Some(key) && !r.op.FetchOp?
  {
  }

  /** What is visible at a time after the last write: the fold over the window, as long as the
      last write, which renewed the whole document, has not expired. */
  lemma {:induction false} VisibleIsWindow(env: Setting, f: seq<Request>, key: Key, n: nat, t: int)
    requires WritesTo(env, f, key) && IsWindow(env, f, n) && (f != [] ==> f[|f|-1].times.stored <= t)
    ensures Visible(ServeAll(env, f), key, t) ==
            if n < |f| && t < f[|f|-1].times.stored + env.cfg.ttl then Some(WindowDocument(env, f, n)) else None
    decreases |f|
  {
    if f != [] {
      WritesBefore(env, f, key);
      var before, r := f[..|f|-1], f[|f|-1];
      assert f == before + [r];
      var m := WindowExists(env, before);
      VisibleIsWindow(env, before, key, m, r.times.read);
      VisibleAfter(env, ServeAll(env, before), r, key, t);
      assert n == |f| <==> r.op.DeleteOp?;
      WindowLeft(env, before, r, n, m, Visible(ServeAll(env, before), key, r.times.read));
    }
  }

  /** One call after the other, under a clock that does not go back. */
  ghost predicate Sequential(rs: seq<Request>) {
    && (forall i | 0 <= i < |rs| :: TimesInOrder(rs[i].times))
    && forall i, j | 0 <= i < j < |rs| :: rs[i].times.stored <= rs[j].times.read
  }

  lemma {:induction false} ForKeyWrites(env: Setting, rs: seq<Request>, key: Key)
    requires Sequential(rs)
    ensures WritesTo(env, ForKey(env, rs, key), key)
    ensures forall i | 0 <= i < |ForKey(env, rs, key)| ::
      rs != [] && ForKey(env, rs, key)[i].times.stored <= rs[|rs|-1].times.stored
    decreases |rs|
  {
    if rs != [] {
      ForKeyWrites(env, rs[..|rs|-1], key);
    }
  }

  /** Over any sequential run with a clock that does not go back: a key shows the fold of its own
      writes since its last upload, deletion or gap of at least the lifetime, until the lifetime
      after its last write has passed. */
  lemma VisibleDocument(env: Setting, rs: seq<Request>, key: Key, t: int) returns (n: nat)
    requires Sequential(rs) && (rs != [] ==> rs[|rs|-1].times.stored <= t)
    ensures IsWindow(env, ForKey(env, rs, key), n)
    ensures var f := ForKey(env, rs, key);
      Visible(ServeAll(env, rs), key, t) ==
      if n < |f| && t < f[|f|-1].times.stored + env.cfg.ttl then Some(WindowDocument(env, f, n)) else None
  {
    ForKeyWrites(env, rs, key);
    n := WindowExists(env, ForKey(env, rs, key));
    Isolation(env, rs, key);
    VisibleIsWindow(env, ForKey(env, rs, key), key, n, t);
  }

  /** A request with the prefixed form of a bare key does the same as one with the bare key. */
  lemma PrefixedRequest(env: Setting, db: Database, times: Times, bare: string, op: Op)
    requires !("u_" <= bare)
    ensures Serve(env, db, Request(times, "u_" + bare, op)) == Serve(env, db, Request(times, bare, op))
  {
    PrefixIrrelevant(env.hash, bare);
  }
}
