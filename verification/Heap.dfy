/** Go's nested maps as heap objects, and ghost pictures of the trees they form. */
module Heap {
  import opened Documents

  /** A Go map[string]interface{}: a mutable object whose values are texts or other maps. */
  class GoMap {
    var entries: map<string, Slot>

    constructor ()
      ensures entries == map[]
    {
      entries := map[];
    }
  }

  datatype Slot = Str(text: string) | Ref(child: GoMap)

  /** One map object together with its entries. */
  datatype Cell = Cell(obj: GoMap, entries: map<string, Slot>)

  /** A picture of a tree of maps: which object, with which entries, is at each position. */
  type Shape = map<Segments, Cell>

  ghost predicate Unshared(shape: Shape) {
    forall p, q | p in shape && q in shape && shape[p].obj == shape[q].obj :: p == q
  }

  /** The position p+[k] is pictured exactly when k is bound to a reference at p, and then it
      pictures the object referred to. */
  ghost predicate Linked(shape: Shape, p: Segments, k: string) {
    && (p + [k] in shape <==> p in shape && k in shape[p].entries && shape[p].entries[k].Ref?)
    && (p + [k] in shape ==> shape[p].entries[k] == Ref(shape[p + [k]].obj))
  }

  /** The pictured objects form an unshared, acyclic tree with its root at []. */
  ghost predicate IsTree(shape: Shape) {
    && [] in shape
    && Unshared(shape)
    && forall p, k :: Linked(shape, p, k)
  }

  ghost function Objects(shape: Shape): set<GoMap> {
    set p | p in shape :: shape[p].obj
  }

  /** The picture is true of the heap. */
  ghost predicate InHeap(shape: Shape)
    reads Objects(shape)
  {
    forall p | p in shape :: shape[p].obj.entries == shape[p].entries
  }

  ghost function SlotKind(shape: Shape, p: Segments, k: string): Kind {
    if p in shape && k in shape[p].entries then
      match shape[p].entries[k]
      case Str(s) => Text(s)
      case Ref(_) => Branch
    else Absent
  }

  ghost function ShapeKind(shape: Shape, q: Segments): Kind {
    if q == [] then Branch else SlotKind(shape, q[..|q|-1], q[|q|-1])
  }

  lemma ShapeKindSnoc(shape: Shape, p: Segments, k: string)
    ensures ShapeKind(shape, p + [k]) == SlotKind(shape, p, k)
  {
    assert (p + [k])[..|p|] == p;
  }

  ghost function Below(shape: Shape, p: Segments): set<Segments> {
    set q | q in shape && p <= q
  }

  /** The document a tree of maps stands for. */
  ghost function DocumentAt(shape: Shape, p: Segments): (v: Value)
    requires IsTree(shape) && p in shape
    ensures v.Node?
    decreases Below(shape, p)
  {
    Node(map k | k in shape[p].entries :: SlotDocument(shape, p, k))
  }

  ghost function SlotDocument(shape: Shape, p: Segments, k: string): Value
    requires IsTree(shape) && p in shape && k in shape[p].entries
    decreases Below(shape, p), 0
  {
    match shape[p].entries[k]
    case Str(s) => Leaf(s)
    case Ref(_) =>
      assert Linked(shape, p, k);
      assert p + [k] in Below(shape, p) && p !in Below(shape, p + [k]);
      assert p in Below(shape, p);
      DocumentAt(shape, p + [k])
  }

  ghost function DocumentOf(shape: Shape): (v: Value)
    requires IsTree(shape)
    ensures v.Node?
  {
    DocumentAt(shape, [])
  }

  /** Nothing is found below a position that holds no map. */
  lemma {:induction false} NothingBelow(shape: Shape, p: Segments, q: Segments)
    requires IsTree(shape) && p !in shape && q != []
    ensures p + q !in shape && ShapeKind(shape, p + q) == Absent
    decreases |q|
  {
    var up, k := q[..|q|-1], q[|q|-1];
    assert p + q == p + up + [k];
    if up == [] {
      assert p + up == p;
    } else {
      NothingBelow(shape, p, up);
    }
    assert Linked(shape, p + up, k);
    ShapeKindSnoc(shape, p + up, k);
  }

  lemma {:induction false} DocumentKind(shape: Shape, p: Segments, q: Segments)
    requires IsTree(shape) && p in shape
    ensures q != [] ==> KindAt(DocumentAt(shape, p), q) == ShapeKind(shape, p + q)
    decreases |q|
  {
    if q != [] {
      var k, rest := q[0], q[1..];
      assert q == [k] + rest && p + q == p + [k] + rest;
      GetUnder(DocumentAt(shape, p), k, rest);
      assert Linked(shape, p, k);
      ShapeKindSnoc(shape, p, k);
      if rest == [] {
        assert p + q == p + [k];
      } else if p + [k] in shape {
        DocumentKind(shape, p + [k], rest);
      } else {
        NothingBelow(shape, p + [k], rest);
      }
    }
  }

  lemma DocumentKinds(shape: Shape)
    requires IsTree(shape)
    ensures forall q :: KindAt(DocumentOf(shape), q) == ShapeKind(shape, q)
  {
    forall q ensures KindAt(DocumentOf(shape), q) == ShapeKind(shape, q) {
      DocumentKind(shape, [], q);
      assert [] + q == q;
    }
  }
}
