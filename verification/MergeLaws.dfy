/** What a merge adds, removes and keeps, and when merges can be reordered. */
module MergeLaws {
  import opened Documents
  import opened Merge

  /** A parameter map as document entries. */
  function Texts(params: map<string, string>): Fields {
    map k | k in params :: Leaf(params[k])
  }

  ghost function MergedKind(t: Fields, p: Segments, n: Fields, q: Segments): Kind {
    if q <= p then Branch
    else if Overwritten(p, n, q) then KindAt(Node(n), q[|p|..])
    else KindAt(Node(t), q)
  }

  lemma KindAfterMerge(t: Fields, p: Segments, n: Fields, q: Segments)
    ensures KindAt(Node(MergeAt(t, p, n)), q) == MergedKind(t, p, n, q)
  {
    GetAfterMerge(t, p, n, q);
  }

  lemma KindsAfterMerge(t: Fields, p: Segments, n: Fields)
    ensures forall q :: KindAt(Node(MergeAt(t, p, n)), q) == MergedKind(t, p, n, q)
  {
    forall q ensures KindAt(Node(MergeAt(t, p, n)), q) == MergedKind(t, p, n, q) {
      KindAfterMerge(t, p, n, q);
    }
  }

  /** The same merge on the flat view: drop the leaves on the route and in the replaced
      entries, then add the leaves of the new entries below p. */
  ghost function FlatMerge(f: imap<Segments, string>, p: Segments, n: Fields): imap<Segments, string> {
    imap q | if Overwritten(p, n, q) then q[|p|..] in Flat(Node(n)) else q in f && !(q <= p)
      :: if Overwritten(p, n, q) then Flat(Node(n))[q[|p|..]] else f[q]
  }

  lemma MergeRefinesFlatMerge(t: Fields, p: Segments, n: Fields)
    ensures Flat(Node(MergeAt(t, p, n))) == FlatMerge(Flat(Node(t)), p, n)
  {
    KindsAfterMerge(t, p, n);
  }

  lemma TextsKind(params: map<string, string>, q: Segments)
    ensures KindAt(Node(Texts(params)), q) ==
            if q == [] then Branch
            else if |q| == 1 && q[0] in params then Text(params[q[0]])
            else Absent
  {
    if q != [] {
      assert [q[0]] + q[1..] == q;
      GetUnder(Node(Texts(params)), q[0], q[1..]);
    }
  }

  /** With text parameters: the old leaves, minus those at p or a prefix of p, minus those at
      or below p+[k] for a parameter k, plus params[k] at p+[k], and nothing else. */
  lemma LeavesAfterTextMerge(t: Fields, p: Segments, params: map<string, string>, q: Segments, text: string)
    ensures KindAt(Node(MergeAt(t, p, Texts(params))), q) == Text(text) <==>
            || (exists k :: k in params && q == p + [k] && params[k] == text)
            || (KindAt(Node(t), q) == Text(text) && !(q <= p) && forall k :: k in params ==> !(p + [k] <= q))
  {
    KindAfterMerge(t, p, Texts(params), q);
    if Overwritten(p, Texts(params), q) {
      TextsKind(params, q[|p|..]);
      assert p + [q[|p|]] <= q;
      assert q[|p|..][0] == q[|p|];
      if |q| == |p| + 1 {
        assert q == p + [q[|p|]];
      }
    }
  }

  /** One merge of text parameters at a position. */
  datatype TextMerge = TextMerge(at: Segments, params: map<string, string>)

  function Apply(t: Fields, m: TextMerge): Fields {
    MergeAt(t, m.at, Texts(m.params))
  }

  /** Neither merge writes a leaf on the other's route, and where both write they agree. */
  predicate Independent(a: TextMerge, b: TextMerge) {
    && (forall k | k in a.params :: !(a.at + [k] <= b.at))
    && (forall k | k in b.params :: !(b.at + [k] <= a.at))
    && (a.at == b.at ==> forall k | k in a.params && k in b.params :: a.params[k] == b.params[k])
  }

  ghost function KindAfterBoth(t: Fields, a: TextMerge, b: TextMerge, q: Segments): Kind {
    if q <= b.at then Branch
    else if Overwritten(b.at, Texts(b.params), q) then KindAt(Node(Texts(b.params)), q[|b.at|..])
    else MergedKind(t, a.at, Texts(a.params), q)
  }

  lemma KindsAfterBoth(t: Fields, a: TextMerge, b: TextMerge)
    ensures forall q :: KindAt(Node(Apply(Apply(t, a), b)), q) == KindAfterBoth(t, a, b, q)
  {
    KindsAfterMerge(t, a.at, Texts(a.params));
    KindsAfterMerge(Apply(t, a), b.at, Texts(b.params));
  }

  /** A leaf written by a on b's route survives in one order only. */
  lemma ClashOnRoute(t: Fields, a: TextMerge, b: TextMerge, k: string)
    requires k in a.params && a.at + [k] <= b.at
    ensures Apply(Apply(t, a), b) != Apply(Apply(t, b), a)
  {
    var q := a.at + [k];
    KindsAfterBoth(t, a, b);
    KindsAfterBoth(t, b, a);
    TextsKind(a.params, q[|a.at|..]);
    assert KindAfterBoth(t, a, b, q) == Branch;
    assert KindAfterBoth(t, b, a, q) == Text(a.params[k]);
  }

  lemma ClashOnLeaf(t: Fields, a: TextMerge, b: TextMerge, k: string)
    requires a.at == b.at && k in a.params && k in b.params && a.params[k] != b.params[k]
    ensures Apply(Apply(t, a), b) != Apply(Apply(t, b), a)
  {
    var q := a.at + [k];
    KindsAfterBoth(t, a, b);
    KindsAfterBoth(t, b, a);
    TextsKind(a.params, q[|a.at|..]);
    TextsKind(b.params, q[|a.at|..]);
    assert KindAfterBoth(t, a, b, q) == Text(b.params[k]);
    assert KindAfterBoth(t, b, a, q) == Text(a.params[k]);
  }

  lemma OrderIrrelevantAt(t: Fields, a: TextMerge, b: TextMerge, q: Segments)
    requires Independent(a, b)
    ensures KindAfterBoth(t, a, b, q) == KindAfterBoth(t, b, a, q)
  {
    var overA := Overwritten(a.at, Texts(a.params), q);
    var overB := Overwritten(b.at, Texts(b.params), q);
    if overA {
      assert a.at + [q[|a.at|]] <= q;
      assert !(a.at + [q[|a.at|]] <= b.at);
    }
    if overB {
      assert b.at + [q[|b.at|]] <= q;
      assert !(b.at + [q[|b.at|]] <= a.at);
    }
    if overA && overB {
      assert a.at == q[..|a.at|] && b.at == q[..|b.at|];
      assert a.at == b.at;
      TextsKind(a.params, q[|a.at|..]);
      TextsKind(b.params, q[|a.at|..]);
    }
  }

  /** Two merges commute, on whichever document, exactly when they are independent. */
  lemma CommuteIff(t: Fields, a: TextMerge, b: TextMerge)
    ensures Apply(Apply(t, a), b) == Apply(Apply(t, b), a) <==> Independent(a, b)
  {
    if Independent(a, b) {
      KindsAfterBoth(t, a, b);
      KindsAfterBoth(t, b, a);
      forall q ensures KindAfterBoth(t, a, b, q) == KindAfterBoth(t, b, a, q) {
        OrderIrrelevantAt(t, a, b, q);
      }
      Extensionality(Node(Apply(Apply(t, a), b)), Node(Apply(Apply(t, b), a)));
    } else if k :| k in a.params && a.at + [k] <= b.at {
      ClashOnRoute(t, a, b, k);
    } else if k :| k in b.params && b.at + [k] <= a.at {
      ClashOnRoute(t, b, a, k);
    } else {
      var k :| k in a.params && k in b.params && a.params[k] != b.params[k];
      ClashOnLeaf(t, a, b, k);
    }
  }
}
