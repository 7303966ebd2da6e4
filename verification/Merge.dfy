/** MergeDataAtPath as a pure function of documents, and its meaning position by position. */
module Merge {
  import opened Documents

  /** The map found under a key, or a new empty one when the key is unbound or bound to text. */
  function ChildFields(t: Fields, k: string): Fields {
    if k in t && t[k].Node? then t[k].fields else map[]
  }

  /** Merging n into t below the position p. */
  function MergeAt(t: Fields, p: Segments, n: Fields): Fields
    decreases p
  {
    if p == [] then t + n
    else t[p[0] := Node(MergeAt(ChildFields(t, p[0]), p[1..], n))]
  }

  /** q is one of the entries of n put below p, or lies inside one. */
  predicate Overwritten(p: Segments, n: Fields, q: Segments) {
    p <= q && |p| < |q| && q[|p|] in n
  }

  /** The map found at a position, or an empty one. */
  function FieldsAt(t: Fields, q: Segments): Fields {
    match Get(Node(t), q)
    case Some(Node(f)) => f
    case _ => map[]
  }

  lemma FieldsBelow(t: Fields, q: Segments)
    requires q != []
    ensures FieldsAt(t, q) == FieldsAt(ChildFields(t, q[0]), q[1..])
  {
    assert [q[0]] + q[1..] == q;
    GetUnder(Node(t), q[0], q[1..]);
    if q[1..] == [] {
    } else if q[0] in t && t[q[0]].Leaf? {
      assert Get(t[q[0]], q[1..]) == None;
    }
  }

  /** The exact effect of a merge on every position. */
  lemma {:induction false} GetAfterMerge(t: Fields, p: Segments, n: Fields, q: Segments)
    ensures q <= p ==> Get(Node(MergeAt(t, p, n)), q) == Some(Node(MergeAt(FieldsAt(t, q), p[|q|..], n)))
    ensures Overwritten(p, n, q) ==> Get(Node(MergeAt(t, p, n)), q) == Get(Node(n), q[|p|..])
    ensures !(q <= p) && !Overwritten(p, n, q) ==> Get(Node(MergeAt(t, p, n)), q) == Get(Node(t), q)
    decreases p
  {
    if p != [] && q != [] {
      if p[0] == q[0] {
        var c := ChildFields(t, p[0]);
        GetAfterMerge(c, p[1..], n, q[1..]);
        assert q <= p <==> q[1..] <= p[1..];
        assert p <= q <==> p[1..] <= q[1..];
        if q <= p {
          FieldsBelow(t, q);
          assert p[|q|..] == p[1..][|q[1..]|..];
        }
        if Overwritten(p, n, q) {
          assert q[|p|..] == q[1..][|p[1..]|..];
        }
      }
    }
  }
}
