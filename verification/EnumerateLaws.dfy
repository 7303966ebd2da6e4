/** When the listed paths are exactly the ones a lookup accepts. */
module EnumerateLaws {
  import opened Documents
  import opened Paths
  import opened Traverse
  import opened Enumerate

  ghost predicate FindsText(data: Fields, x: string) {
    LookupOf(data, x).Found? && LookupOf(data, x).value.Leaf?
  }

  /** The listing has no duplicates and names exactly the paths at which a text is found. */
  ghost predicate AgreesWithLookup(data: Fields, paths: seq<string>) {
    NoDuplicates(paths) && forall x :: x in paths <==> FindsText(data, x)
  }

  /** No key above or at a leaf contains a slash, and no leaf lies below the root key "". */
  ghost predicate PlainKeys(data: Fields) {
    forall q | KindAt(Node(data), q).Text? :: AllSlashFree(q) && (|q| > 1 ==> q[0] != "")
  }

  lemma {:induction false} ReportedBelow(prefix: string, q: Segments)
    requires prefix != ""
    ensures Reported(prefix, q) == if q == [] then prefix else prefix + "/" + Join(q)
    decreases q
  {
    if q != [] {
      ReportedBelow(Extend(prefix, q[0]), q[1..]);
    }
  }

  lemma ReportedAtRoot(q: Segments)
    requires q != [] && (|q| > 1 ==> q[0] != "")
    ensures Reported("", q) == Join(q)
  {
    if |q| > 1 {
      ReportedBelow(q[0], q[1..]);
    }
  }

  predicate StartsWithSlash(s: string) {
    s != "" && s[0] == '/'
  }

  /** A listed path never starts with a slash. */
  lemma {:induction false} NoLeadingSlash(prefix: string, q: Segments)
    requires AllSlashFree(q) && !StartsWithSlash(prefix)
    ensures !StartsWithSlash(Reported(prefix, q))
    decreases q
  {
    if q != [] {
      assert q[0] in q;
      assert !StartsWithSlash(Extend(prefix, q[0])) by {
        assert q[0] != "" ==> q[0][0] in q[0];
      }
      NoLeadingSlash(Extend(prefix, q[0]), q[1..]);
    }
  }

  lemma SplitIsSlashFree(x: string)
    ensures AllSlashFree(Split(x))
  {
  }

  /** A text is found at exactly the joins of the slash-free leaf positions. */
  lemma FindsTextAtLeaf(data: Fields, q: Segments)
    requires KindAt(Node(data), q).Text? && AllSlashFree(q)
    ensures q != [] && Split(Join(q)) == q && FindsText(data, Join(q))
  {
    SplitJoin(q);
  }

  lemma PlainKeysAgree(data: Fields, paths: seq<string>, leaves: seq<Segments>)
    requires Listing(Node(data), "", paths, leaves) && PlainKeys(data)
    ensures AgreesWithLookup(data, paths)
  {
    forall i | 0 <= i < |leaves| ensures Split(paths[i]) == leaves[i] && FindsText(data, paths[i]) {
      assert leaves[i] in leaves;
      FindsTextAtLeaf(data, leaves[i]);
      ReportedAtRoot(leaves[i]);
    }
    forall x | FindsText(data, x) ensures x in paths {
      assert Split(x) in leaves;
      var i :| 0 <= i < |leaves| && leaves[i] == Split(x);
      JoinSplit(x);
      ReportedAtRoot(leaves[i]);
      assert paths[i] == x;
    }
  }

  ghost function Members<T>(s: seq<T>): set<T> {
    set x | x in s
  }

  lemma {:induction false} MembersCount<T>(s: seq<T>)
    requires NoDuplicates(s)
    ensures |Members(s)| == |s|
  {
    if s != [] {
      var last := s[|s|-1];
      var rest := s[..|s|-1];
      MembersCount(rest);
      assert s == rest + [last];
      assert last !in rest;
      assert Members(s) == Members(rest) + {last};
    }
  }

  lemma SameSize<T>(a: set<T>, b: set<T>)
    requires a <= b && |a| == |b|
    ensures a == b
  {
    assert b == a + (b - a);
  }

  /** If the listing agrees, splitting its paths gives every leaf, so every leaf is slash-free. */
  lemma AgreementSlashFree(data: Fields, paths: seq<string>, leaves: seq<Segments>)
    requires Listing(Node(data), "", paths, leaves) && AgreesWithLookup(data, paths)
    ensures forall q | q in leaves :: AllSlashFree(q)
  {
    var splits := seq(|paths|, i requires 0 <= i < |paths| => Split(paths[i]));
    forall i, j | 0 <= i < j < |splits| ensures splits[i] != splits[j] {
      JoinSplit(paths[i]);
      JoinSplit(paths[j]);
    }
    forall q | q in splits ensures q in leaves && AllSlashFree(q) {
      var i :| 0 <= i < |paths| && splits[i] == q;
      assert paths[i] in paths;
      SplitIsSlashFree(paths[i]);
    }
    MembersCount(splits);
    MembersCount(leaves);
    SameSize(Members(splits), Members(leaves));
    forall q | q in leaves ensures AllSlashFree(q) {
      assert q in Members(splits);
    }
  }

  lemma AgreementPlainKeys(data: Fields, paths: seq<string>, leaves: seq<Segments>)
    requires Listing(Node(data), "", paths, leaves) && AgreesWithLookup(data, paths)
    ensures PlainKeys(data)
  {
    AgreementSlashFree(data, paths, leaves);
    forall q | KindAt(Node(data), q).Text? ensures AllSlashFree(q) && (|q| > 1 ==> q[0] != "") {
      assert q in leaves;
      FindsTextAtLeaf(data, q);
      if |q| > 1 && q[0] == "" {
        assert StartsWithSlash(Join(q));
        var i :| 0 <= i < |paths| && paths[i] == Join(q);
        NoLeadingSlash("", leaves[i]);
      }
    }
  }

  /** Listing and lookup agree exactly on the documents with plain keys. */
  lemma AgreesIff(data: Fields, paths: seq<string>, leaves: seq<Segments>)
    requires Listing(Node(data), "", paths, leaves)
    ensures AgreesWithLookup(data, paths) <==> PlainKeys(data)
  {
    if PlainKeys(data) {
      PlainKeysAgree(data, paths, leaves);
    }
    if AgreesWithLookup(data, paths) {
      AgreementPlainKeys(data, paths, leaves);
    }
  }
}
