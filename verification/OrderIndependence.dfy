/** When a list of patches may be applied in any order. */
module OrderIndependence {
  import opened Documents
  import opened Merge
  import opened MergeLaws
  import opened Paths
  import opened Reordering
  import opened ServiceSpec

  function ApartFromTimestamp(t: Fields): Fields {
    t - {TIMESTAMP}
  }

  /** What a patch does to the document apart from the root timestamp: whatever it writes at
      or below that key is overwritten by the service. */
  function Effect(p: Patch): TextMerge {
    var at := MergePosition(p.path);
    if at == [] then TextMerge([], p.params - {TIMESTAMP})
    else if at[0] == TIMESTAMP then TextMerge([], map[])
    else TextMerge(at, p.params)
  }

  lemma PatchApartFromTimestamp(t: Fields, p: Patch)
    ensures ApartFromTimestamp(PatchedDocument(t, p)) == Apply(ApartFromTimestamp(t), Effect(p))
  {
    var at := MergePosition(p.path);
    if at != [] && at[0] != TIMESTAMP {
      assert ChildFields(t, at[0]) == ChildFields(ApartFromTimestamp(t), at[0]);
    }
  }

  /** The patches of a list are applied from its front. */
  lemma {:induction false} PatchAllConcat(t: Fields, ps: seq<Patch>, p: Patch)
    ensures PatchAll(t, ps + [p]) == PatchedDocument(PatchAll(t, ps), p)
    decreases |ps|
  {
    if ps == [] {
      assert [p][1..] == [];
      assert PatchAll(PatchedDocument(t, p), []) == PatchedDocument(t, p);
    } else {
      assert (ps + [p])[1..] == ps[1..] + [p];
      PatchAllConcat(PatchedDocument(t, ps[0]), ps[1..], p);
    }
  }

  function Step(t: Fields, p: Patch): Fields {
    Apply(t, Effect(p))
  }

  lemma {:induction false} PatchAllApartFromTimestamp(t: Fields, ps: seq<Patch>)
    ensures ApartFromTimestamp(PatchAll(t, ps)) == Fold(Step, ApartFromTimestamp(t), ps)
    decreases |ps|
  {
    if ps != [] {
      PatchApartFromTimestamp(t, ps[0]);
      PatchAllApartFromTimestamp(PatchedDocument(t, ps[0]), ps[1..]);
    }
  }

  ghost predicate PairwiseIndependent(ps: seq<Patch>) {
    forall a, b | a in ps && b in ps :: Independent(Effect(a), Effect(b))
  }

  lemma StepsCommute(a: Patch, b: Patch)
    requires Independent(Effect(a), Effect(b))
    ensures Commute(Step, a, b)
  {
    forall t ensures Step(Step(t, a), b) == Step(Step(t, b), a) {
      CommuteIff(t, Effect(a), Effect(b));
    }
  }

  lemma IndependentPatchesAnyOrder(t: Fields, ps: seq<Patch>, qs: seq<Patch>)
    requires PairwiseIndependent(ps) && SameUpToOrder(ps, qs)
    ensures Fold(Step, t, ps) == Fold(Step, t, qs)
  {
    forall a, b | a in ps && b in ps ensures Commute(Step, a, b) {
      StepsCommute(a, b);
    }
    PermutedFold(Step, t, ps, qs);
  }

  lemma DependentPairOrderMatters(t: Fields, ps: seq<Patch>, a: Patch, b: Patch)
    returns (qs: seq<Patch>, rs: seq<Patch>)
    requires a in ps && b in ps && !Independent(Effect(a), Effect(b))
    ensures SameUpToOrder(ps, qs) && SameUpToOrder(ps, rs)
    ensures Fold(Step, t, qs) != Fold(Step, t, rs)
  {
    assert a != b;
    var rest := WithoutTwo(ps, a, b);
    qs, rs := rest + [a, b], rest + [b, a];
    FoldWithLastTwo(Step, t, rest, a, b);
    FoldWithLastTwo(Step, t, rest, b, a);
    CommuteIff(Fold(Step, t, rest), Effect(a), Effect(b));
  }

  /** Every order of the patches gives the same document apart from the root timestamp,
      exactly when they are pairwise independent in what they do outside that key. */
  lemma AnyOrderIff(t: Fields, ps: seq<Patch>)
    ensures PairwiseIndependent(ps) <==>
            forall qs | SameUpToOrder(ps, qs) ::
              ApartFromTimestamp(PatchAll(t, qs)) == ApartFromTimestamp(PatchAll(t, ps))
  {
    var t0 := ApartFromTimestamp(t);
    PatchAllApartFromTimestamp(t, ps);
    if PairwiseIndependent(ps) {
      forall qs | SameUpToOrder(ps, qs)
        ensures ApartFromTimestamp(PatchAll(t, qs)) == ApartFromTimestamp(PatchAll(t, ps))
      {
        PatchAllApartFromTimestamp(t, qs);
        IndependentPatchesAnyOrder(t0, ps, qs);
      }
    } else {
      var a, b :| a in ps && b in ps && !Independent(Effect(a), Effect(b));
      var qs, rs := DependentPairOrderMatters(t0, ps, a, b);
      PatchAllApartFromTimestamp(t, qs);
      PatchAllApartFromTimestamp(t, rs);
    }
  }
}
