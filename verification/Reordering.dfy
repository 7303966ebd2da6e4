/** Folding a step function over a list, and when the order of the list does not matter. */
module Reordering {

  function Fold<S, P>(step: (S, P) -> S, s: S, ps: seq<P>): S
    decreases ps
  {
    if ps == [] then s else Fold(step, step(s, ps[0]), ps[1..])
  }

  ghost predicate Commute<S(!new), P>(step: (S, P) -> S, a: P, b: P) {
    forall s :: step(step(s, a), b) == step(step(s, b), a)
  }

  ghost predicate SameUpToOrder<P>(ps: seq<P>, qs: seq<P>) {
    multiset(ps) == multiset(qs)
  }

  /** s with its i-th member removed. */
  function Without<P>(s: seq<P>, i: nat): seq<P>
    requires i < |s|
  {
    s[..i] + s[i+1..]
  }

  lemma WithoutMembers<P>(s: seq<P>, i: nat)
    requires i < |s|
    ensures multiset(s) == multiset(Without(s, i)) + multiset{s[i]}
  {
    assert s == s[..i] + [s[i]] + s[i+1..];
  }

  lemma SameMembers<P>(ps: seq<P>, qs: seq<P>)
    requires SameUpToOrder(ps, qs)
    ensures forall p :: p in ps <==> p in qs
  {
    forall p ensures p in ps <==> p in qs {
      assert p in ps <==> p in multiset(ps);
      assert p in qs <==> p in multiset(qs);
    }
  }

  lemma {:induction false} MoveToFront<S(!new), P>(step: (S, P) -> S, s: S, ps: seq<P>, i: nat)
    requires i < |ps|
    requires forall j | 0 <= j < i :: Commute(step, ps[j], ps[i])
    ensures Fold(step, s, ps) == Fold(step, step(s, ps[i]), Without(ps, i))
    decreases i
  {
    if i == 0 {
      assert Without(ps, 0) == ps[1..];
    } else {
      var tail := ps[1..];
      forall j | 0 <= j < i - 1 ensures Commute(step, tail[j], tail[i-1]) {
        assert tail[j] == ps[j+1];
      }
      MoveToFront(step, step(s, ps[0]), tail, i - 1);
      assert Commute(step, ps[0], ps[i]);
      var rest := Without(ps, i);
      assert rest[0] == ps[0] && rest[1..] == Without(tail, i - 1);
    }
  }

  lemma {:induction false} PermutedFold<S(!new), P>(step: (S, P) -> S, s: S, ps: seq<P>, qs: seq<P>)
    requires SameUpToOrder(ps, qs)
    requires forall a, b | a in ps && b in ps :: Commute(step, a, b)
    ensures Fold(step, s, ps) == Fold(step, s, qs)
    decreases |ps|
  {
    SameMembers(ps, qs);
    if ps == [] {
      assert forall p :: p !in qs;
    } else {
      assert ps[0] in qs;
      var i :| 0 <= i < |qs| && qs[i] == ps[0];
      MoveToFront(step, s, qs, i);
      WithoutMembers(qs, i);
      WithoutMembers(ps, 0);
      assert Without(ps, 0) == ps[1..];
      assert multiset(ps[1..]) == multiset(ps) - multiset{ps[0]};
      assert multiset(Without(qs, i)) == multiset(qs) - multiset{ps[0]};
      PermutedFold(step, step(s, ps[0]), ps[1..], Without(qs, i));
    }
  }

  lemma {:induction false} FoldConcat<S, P>(step: (S, P) -> S, s: S, ps: seq<P>, qs: seq<P>)
    ensures Fold(step, s, ps + qs) == Fold(step, Fold(step, s, ps), qs)
    decreases |ps|
  {
    if ps == [] {
      assert ps + qs == qs;
    } else {
      assert (ps + qs)[1..] == ps[1..] + qs;
      FoldConcat(step, step(s, ps[0]), ps[1..], qs);
    }
  }

  lemma FoldWithLastTwo<S, P>(step: (S, P) -> S, s: S, ps: seq<P>, a: P, b: P)
    ensures Fold(step, s, ps + [a, b]) == step(step(Fold(step, s, ps), a), b)
  {
    FoldConcat(step, s, ps, [a, b]);
    assert [a, b][1..] == [b] && [b][1..] == [];
    assert Fold(step, step(Fold(step, s, ps), a), [b]) == step(step(Fold(step, s, ps), a), b);
  }

  /** The list without two of its members, to which they can be added back in either order. */
  lemma WithoutTwo<P>(ps: seq<P>, a: P, b: P) returns (rest: seq<P>)
    requires a in ps && b in ps && a != b
    ensures SameUpToOrder(ps, rest + [a, b]) && SameUpToOrder(ps, rest + [b, a])
  {
    var i :| 0 <= i < |ps| && ps[i] == a;
    WithoutMembers(ps, i);
    var others := Without(ps, i);
    assert b in multiset(ps) && b in multiset(others);
    var j :| 0 <= j < |others| && others[j] == b;
    WithoutMembers(others, j);
    rest := Without(others, j);
    assert rest + [a, b] == rest + [a] + [b] && rest + [b, a] == rest + [b] + [a];
  }
}
