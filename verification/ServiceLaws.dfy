/** The documents of Upload and Patch, position by position, and when two patches of different
    documents give the same result. */
module ServiceLaws {
  import opened Documents
  import opened Merge
  import opened MergeLaws
  import opened Paths
  import opened ServiceSpec

  /** An upload leaves its parameters and the root timestamp, which wins, and nothing else. */
  lemma UploadedKind(params: map<string, string>, stamp: string, q: Segments)
    ensures KindAt(Node(UploadedDocument(params, stamp)), q) ==
            if q == [] then Branch
            else if q == [TIMESTAMP] then Text(stamp)
            else if |q| == 1 && q[0] in params then Text(params[q[0]])
            else Absent
  {
    if q != [] {
      assert q == [q[0]] + q[1..];
      GetUnder(Node(UploadedDocument(params, stamp)), q[0], q[1..]);
    }
  }

  /** The service's own entry is under "timestamp" at the root, over whatever was supplied there. */
  lemma RootTimestamp(t: Fields, p: Patch)
    ensures var uploaded := UploadedDocument(p.params, p.stamp);
      "timestamp" in uploaded && uploaded["timestamp"] == Leaf(p.stamp)
    ensures "timestamp" in PatchedDocument(t, p) && PatchedDocument(t, p)["timestamp"] == Leaf(p.stamp)
  {
  }

  /** A patch leaves position q as it finds it. */
  predicate Untouched(path: string, params: map<string, string>, q: Segments) {
    var at := MergePosition(path);
    q != [] && q[0] != TIMESTAMP && !(q <= at) && !Overwritten(at, Texts(params), q)
  }

  ghost predicate SameWhereUntouched(path: string, params: map<string, string>, a: Fields, b: Fields) {
    forall q | Untouched(path, params, q) :: KindAt(Node(a), q) == KindAt(Node(b), q)
  }

  lemma PatchedKind(t: Fields, p: Patch, q: Segments)
    requires q != []
    ensures KindAt(Node(PatchedDocument(t, p)), q) ==
            if q[0] == TIMESTAMP then (if |q| == 1 then Text(p.stamp) else Absent)
            else MergedKind(t, MergePosition(p.path), Texts(p.params), q)
  {
    var merged := MergeAt(t, MergePosition(p.path), Texts(p.params));
    assert q == [q[0]] + q[1..];
    GetUnder(Node(PatchedDocument(t, p)), q[0], q[1..]);
    GetUnder(Node(merged), q[0], q[1..]);
    KindAfterMerge(t, MergePosition(p.path), Texts(p.params), q);
  }

  /** Patching two documents gives the same result exactly when they agree wherever the patch
      leaves things as they are. */
  lemma SamePatchedIff(a: Fields, b: Fields, p: Patch)
    ensures PatchedDocument(a, p) == PatchedDocument(b, p) <==> SameWhereUntouched(p.path, p.params, a, b)
  {
    var pa, pb := PatchedDocument(a, p), PatchedDocument(b, p);
    if SameWhereUntouched(p.path, p.params, a, b) {
      forall q ensures KindAt(Node(pa), q) == KindAt(Node(pb), q) {
        if q != [] {
          PatchedKind(a, p, q);
          PatchedKind(b, p, q);
        }
      }
      Extensionality(Node(pa), Node(pb));
    }
    if pa == pb {
      forall q | Untouched(p.path, p.params, q) ensures KindAt(Node(a), q) == KindAt(Node(b), q) {
        PatchedKind(a, p, q);
        PatchedKind(b, p, q);
      }
    }
  }
}
