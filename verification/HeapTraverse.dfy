/** TraverseField as it runs: a walk down through map objects, which changes none of them. */
module HeapTraverse {
  import opened Documents
  import opened Paths
  import opened Heap
  import opened Traverse

  /** What a slot at a position of a tree of maps stands for. */
  ghost predicate StandsFor(shape: Shape, q: Segments, slot: Slot, v: Value)
    requires IsTree(shape)
  {
    match slot
    case Str(s) => v == Leaf(s)
    case Ref(child) => q in shape && shape[q].obj == child && v == DocumentAt(shape, q)
  }

  /** The slot at a position, as far as the walk has come. */
  ghost predicate Reached(shape: Shape, q: Segments, slot: Slot)
    requires IsTree(shape)
  {
    var at := Get(DocumentOf(shape), q);
    at.Some? && StandsFor(shape, q, slot, at.value)
  }

  lemma ReachNext(shape: Shape, q: Segments, k: string, child: GoMap)
    requires IsTree(shape) && Reached(shape, q, Ref(child))
    ensures k in shape[q].entries ==> Reached(shape, q + [k], shape[q].entries[k])
    ensures k !in shape[q].entries ==> Get(DocumentOf(shape), q + [k]) == None
  {
    GetConcat(DocumentOf(shape), q, [k]);
    assert [k] == [k] + [];
    GetUnder(DocumentAt(shape, q), k, []);
    assert Linked(shape, q, k);
    if k in shape[q].entries {
      assert DocumentAt(shape, q).fields[k] == SlotDocument(shape, q, k);
    }
  }

  /** The value found is the one the path denotes in the document the maps stand for; a text on
      the way makes the path invalid, and a missing key is reported as such. */
  method TraverseField(data: GoMap, fieldPath: string, ghost shape: Shape) returns (r: Lookup<Slot>)
    requires IsTree(shape) && InHeap(shape) && shape[[]].obj == data
    ensures match LookupOf(DocumentOf(shape).fields, fieldPath)
            case Found(v) => r.Found? && StandsFor(shape, Split(fieldPath), r.value, v)
            case NotFound => r == NotFound
            case InvalidPath => r == InvalidPath
  {
    var keys := Split(fieldPath);
    ghost var doc := DocumentOf(shape);
    var value := Ref(data);
    for i := 0 to |keys|
      invariant Reached(shape, keys[..i], value)
      invariant i == 0 ==> value.Ref?
    {
      var key := keys[i];
      GetSplit(doc, keys, i);
      if value.Str? {
        assert i > 0 && KindAt(doc, keys[..i]).Text?;
        return InvalidPath;
      }
      var m := value.child;
      assert keys[..i+1] == keys[..i] + [key];
      ReachNext(shape, keys[..i], key, m);
      if key !in m.entries {
        MissingKey(doc, keys, i);
        return NotFound;
      }
      value := m.entries[key];
    }
    assert keys[..|keys|] == keys;
    return Found(value);
  }
}
