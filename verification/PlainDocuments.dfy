/** Which requests keep the listing of leaves and the lookup in agreement. */
module PlainDocuments {
  import opened Documents
  import opened MergeLaws
  import opened Paths
  import opened Enumerate
  import opened EnumerateLaws
  import opened ServiceSpec
  import opened ServiceLaws
  import opened Protocol
  import opened ProtocolProvenance
  import opened ProtocolWitness

  predicate SlashFreeKeys(params: map<string, string>) {
    forall k | k in params :: SlashFree(k)
  }

  lemma FirstSegment(path: string)
    requires path != ""
    ensures Split(path)[0] == "" <==> StartsWithSlash(path)
  {
  }

  /** An upload gives a document with plain keys exactly when its keys have no slash. */
  lemma UploadPlainIff(params: map<string, string>, stamp: string)
    ensures PlainKeys(UploadedDocument(params, stamp)) <==> SlashFreeKeys(params)
  {
    var doc := UploadedDocument(params, stamp);
    forall q ensures KindAt(Node(doc), q).Text? <==> |q| == 1 && (q[0] == TIMESTAMP || q[0] in params) {
      UploadedKind(params, stamp, q);
    }
    if PlainKeys(doc) {
      forall k | k in params ensures SlashFree(k) {
        assert KindAt(Node(doc), [k]).Text?;
        assert k in [k];
      }
    }
  }

  /** Every entry of the patch that the timestamp does not overwrite has a slash-free key, at a
      path that does not start with a slash. */
  predicate PlainPatch(p: Patch) {
    forall k | k in p.params && (MergePosition(p.path) + [k])[0] != TIMESTAMP ::
      SlashFree(k) && !StartsWithSlash(p.path)
  }

  lemma WrittenLeafPlain(p: Patch, k: string)
    ensures var q := MergePosition(p.path) + [k];
      AllSlashFree(q) && (|q| > 1 ==> q[0] != "") <==> SlashFree(k) && !StartsWithSlash(p.path)
  {
    var q := MergePosition(p.path) + [k];
    assert k in q;
    if p.path != "" {
      FirstSegment(p.path);
      assert q[0] == Split(p.path)[0];
      SplitIsSlashFree(p.path);
    }
  }

  lemma WrittenLeaf(t: Fields, p: Patch, k: string)
    requires k in p.params && (MergePosition(p.path) + [k])[0] != TIMESTAMP
    ensures KindAt(Node(PatchedDocument(t, p)), MergePosition(p.path) + [k]) == Text(p.params[k])
  {
    var at := MergePosition(p.path);
    PatchedKind(t, p, at + [k]);
    KindAfterMerge(t, at, Texts(p.params), at + [k]);
    LeavesAfterTextMerge(t, at, p.params, at + [k], p.params[k]);
  }

  /** A leaf of a patched document is the timestamp, an old leaf, or an entry of the patch. */
  lemma LeafOfPatched(t: Fields, p: Patch, q: Segments)
    requires KindAt(Node(PatchedDocument(t, p)), q).Text?
    ensures q == [TIMESTAMP] || KindAt(Node(t), q).Text?
            || exists k :: k in p.params && q == MergePosition(p.path) + [k] && q[0] != TIMESTAMP
  {
    if q != [] && q != [TIMESTAMP] {
      PatchedKind(t, p, q);
      KindAfterMerge(t, MergePosition(p.path), Texts(p.params), q);
      LeavesAfterTextMerge(t, MergePosition(p.path), p.params, q, KindAt(Node(PatchedDocument(t, p)), q).text);
    }
  }

  /** A patch keeps a document with plain keys plain exactly when its own entries are. */
  lemma PatchPlainIff(t: Fields, p: Patch)
    requires PlainKeys(t)
    ensures PlainKeys(PatchedDocument(t, p)) <==> PlainPatch(p)
  {
    var doc := PatchedDocument(t, p);
    if PlainKeys(doc) {
      forall k | k in p.params && (MergePosition(p.path) + [k])[0] != TIMESTAMP
        ensures SlashFree(k) && !StartsWithSlash(p.path)
      {
        WrittenLeaf(t, p, k);
        WrittenLeafPlain(p, k);
      }
    }
    if PlainPatch(p) {
      forall q | KindAt(Node(doc), q).Text? ensures AllSlashFree(q) && (|q| > 1 ==> q[0] != "") {
        LeafOfPatched(t, p, q);
        if k :| k in p.params && q == MergePosition(p.path) + [k] && q[0] != TIMESTAMP {
          WrittenLeafPlain(p, k);
        }
      }
    }
  }

  /** The request supplies slash-free keys, at a path that does not start with a slash. */
  predicate PlainRequest(op: Op) {
    match op
    case UploadOp(params) => SlashFreeKeys(params)
    case PatchOp(path, params) => SlashFreeKeys(params) && !StartsWithSlash(path)
    case _ => true
  }

  lemma SuppliedLeafPlain(op: Op, q: Segments, text: string)
    requires PlainRequest(op) && Supplies(op, q, text)
    ensures AllSlashFree(q) && (|q| > 1 ==> q[0] != "")
  {
    if op.PatchOp? {
      var k :| k in op.params && q == MergePosition(op.path) + [k] && op.params[k] == text;
      WrittenLeafPlain(Patch(op.path, op.params, ""), k);
    }
  }

  /** If every call of a run is plain, then the listing of every stored document has no duplicates
      and names exactly the paths at which a lookup finds a text. */
  lemma PlainRunsAgree(cfg: Config, trace: Trace, key: Key, paths: seq<string>, leaves: seq<Segments>)
    requires Run(cfg, trace).Some? && key in Run(cfg, trace).value.db
    requires forall id | id in Run(cfg, trace).value.calls :: PlainRequest(Run(cfg, trace).value.calls[id].op)
    requires Listing(Node(Run(cfg, trace).value.db[key].doc), "", paths, leaves)
    ensures AgreesWithLookup(Run(cfg, trace).value.db[key].doc, paths)
  {
    var s := Run(cfg, trace).value;
    var doc := s.db[key].doc;
    forall q | KindAt(Node(doc), q).Text? ensures AllSlashFree(q) && (|q| > 1 ==> q[0] != "") {
      var text := KindAt(Node(doc), q).text;
      StoredLeafHasSource(cfg, trace, key, q, text);
      if q != [TIMESTAMP] {
        var id :| SuppliedBy(s, key, q, text, None, id);
        SuppliedLeafPlain(s.calls[id].op, q, text);
      }
    }
    AgreesIff(doc, paths, leaves);
  }

  lemma LeadingSlashPaths()
    ensures MergePosition("/b") == ["", "b"] && Split("b/a") == ["b", "a"] && Split("/b/a") == ["", "b", "a"]
    ensures Reported("", ["", "b", "a"]) == "b/a"
  {
    SplitSlashFree("a");
    SplitSlashFree("b");
    SplitConcat("", "b");
    SplitConcat("b", "a");
    SplitConcat("/b", "a");
    assert "" + "/" + "b" == "/b" && "b" + "/" + "a" == "b/a" && "/b" + "/" + "a" == "/b/a";
    assert ["", "b", "a"][1..] == ["b", "a"] && ["b", "a"][1..] == ["a"] && ["a"][1..] == [];
    assert Reported("", ["", "b", "a"]) == Reported("", ["b", "a"]) == Reported("b", ["a"]) == Reported("b/a", []);
  }

  /** A patch at "/b": its leaf is found at "/b/a" and listed as "b/a", where nothing is found. */
  lemma LeadingSlashDisagrees(stamp: string, paths: seq<string>, leaves: seq<Segments>)
    requires Listing(Node(PatchedDocument(map[], Patch("/b", map["a" := "1"], stamp))), "", paths, leaves)
    ensures var doc := PatchedDocument(map[], Patch("/b", map["a" := "1"], stamp));
      "b/a" in paths && !FindsText(doc, "b/a") && FindsText(doc, "/b/a") && !AgreesWithLookup(doc, paths)
  {
    var patch := Patch("/b", map["a" := "1"], stamp);
    var doc := PatchedDocument(map[], patch);
    LeadingSlashPaths();
    assert MergePosition("/b") + ["a"] == ["", "b", "a"];
    WrittenLeaf(map[], patch, "a");
    ListedLeaves(Node(doc), "", paths, leaves);
    assert ListsLeaf(Node(doc), "", "b/a");
    PatchedKind(map[], patch, ["b", "a"]);
    KindAfterMerge(map[], ["", "b"], Texts(patch.params), ["b", "a"]);
  }

  /** A root key "a/b": its leaf is listed as "a/b", where nothing is found. */
  lemma SlashInKeyDisagrees(stamp: string, paths: seq<string>, leaves: seq<Segments>)
    requires Listing(Node(PatchedDocument(map[], Patch("", map["a/b" := "1"], stamp))), "", paths, leaves)
    ensures var doc := PatchedDocument(map[], Patch("", map["a/b" := "1"], stamp));
      "a/b" in paths && !FindsText(doc, "a/b") && !AgreesWithLookup(doc, paths)
  {
    var patch := Patch("", map["a/b" := "1"], stamp);
    var doc := PatchedDocument(map[], patch);
    SplitSlashFree("a");
    SplitSlashFree("b");
    SplitConcat("a", "b");
    assert "a" + "/" + "b" == "a/b" && [] + ["a/b"] == ["a/b"];
    WrittenLeaf(map[], patch, "a/b");
    ListedLeaves(Node(doc), "", paths, leaves);
    assert ["a/b"][1..] == [];
    assert Reported("", ["a/b"]) == Reported("a/b", []);
    assert ListsLeaf(Node(doc), "", "a/b");
    PatchedKind(map[], patch, ["a", "b"]);
    KindAfterMerge(map[], [], Texts(patch.params), ["a", "b"]);
  }

  /** Runs that store such documents. */
  lemma DisagreementIsReachable(cfg: Config) returns (first: Trace, second: Trace)
    ensures Run(cfg, first).Some? && "k" in Run(cfg, first).value.db
    ensures Run(cfg, second).Some? && "k" in Run(cfg, second).value.db
    ensures forall paths, leaves | Listing(Node(Run(cfg, first).value.db["k"].doc), "", paths, leaves) ::
      "b/a" in paths && !AgreesWithLookup(Run(cfg, first).value.db["k"].doc, paths)
    ensures forall paths, leaves | Listing(Node(Run(cfg, second).value.db["k"].doc), "", paths, leaves) ::
      "a/b" in paths && !AgreesWithLookup(Run(cfg, second).value.db["k"].doc, paths)
  {
    var s1, s2;
    first, s1 := PatchStores(cfg, "/b", map["a" := "1"]);
    second, s2 := PatchStores(cfg, "", map["a/b" := "1"]);
    forall paths, leaves | Listing(Node(s1.db["k"].doc), "", paths, leaves)
      ensures "b/a" in paths && !AgreesWithLookup(s1.db["k"].doc, paths)
    {
      LeadingSlashDisagrees(cfg.format(0), paths, leaves);
    }
    forall paths, leaves | Listing(Node(s2.db["k"].doc), "", paths, leaves)
      ensures "a/b" in paths && !AgreesWithLookup(s2.db["k"].doc, paths)
    {
      SlashInKeyDisagrees(cfg.format(0), paths, leaves);
    }
  }
}
