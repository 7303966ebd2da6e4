/** Encoding and decoding between heap maps and the immutable documents that are stored. */
module Json {
  import opened Documents
  import opened Heap
  import opened HeapMerge

  /** The picture after key k of the map at position at is bound to a text. */
  ghost function PutText(shape: Shape, at: Segments, k: string, s: string): Shape
    requires at in shape
  {
    map q | q in shape && !(at + [k] <= q)
      :: if q == at then Cell(shape[at].obj, shape[at].entries[k := Str(s)]) else shape[q]
  }

  lemma PutTextDomain(shape: Shape, at: Segments, k: string, s: string, p: Segments, x: string)
    requires at in shape
    ensures at + [k] <= p + [x] <==> at + [k] <= p || (p == at && x == k)
  {
    if at + [k] <= p + [x] && |p| == |at| {
      SnocEqual(p, x, at, k);
    }
  }

  lemma PutTextIsTree(shape: Shape, at: Segments, k: string, s: string)
    requires IsTree(shape) && at in shape
    ensures IsTree(PutText(shape, at, k, s))
  {
    var put := PutText(shape, at, k, s);
    forall p, x ensures Linked(put, p, x) {
      assert Linked(shape, p, x);
      PutTextDomain(shape, at, k, s, p, x);
    }
  }

  lemma PutTextKind(shape: Shape, at: Segments, k: string, s: string, q: Segments)
    requires IsTree(shape) && at in shape
    ensures ShapeKind(PutText(shape, at, k, s), q) ==
            if q == at + [k] then Text(s) else if at + [k] <= q then Absent else ShapeKind(shape, q)
  {
    if q != [] {
      var p, x := q[..|q|-1], q[|q|-1];
      assert q == p + [x];
      PutTextDomain(shape, at, k, s, p, x);
      SnocEqual(p, x, at, k);
    }
  }

  /** What filling the map at position at with the entries of doc under the keys done leaves. */
  ghost predicate Filled(start: Shape, now: Shape, at: Segments, doc: Fields, done: set<string>) {
    forall q :: ShapeKind(now, q) ==
      if at <= q && |at| < |q| && q[|at|] in done then KindAt(Node(doc), q[|at|..]) else ShapeKind(start, q)
  }

  /** The map at position at is current, it has exactly the keys done, and the picture is true. */
  ghost predicate Filling(now: Shape, at: Segments, current: GoMap, done: set<string>)
    reads Objects(now)
  {
    && IsTree(now) && InHeap(now) && at in now && now[at].obj == current
    && now[at].entries.Keys == done
  }

  /** Positions at or below p+[k], taken apart. */
  lemma BelowKey(at: Segments, k: string, q: Segments)
    ensures at + [k] <= q <==> at <= q && |at| < |q| && q[|at|] == k
    ensures at + [k] <= q ==> q[|at|..] == [k] + q[|at|+1..] && (q == at + [k] <==> q[|at|+1..] == [])
  {
  }

  lemma KindBelowKey(at: Segments, k: string, doc: Fields, q: Segments)
    requires k in doc && at + [k] <= q
    ensures KindAt(Node(doc), q[|at|..]) == KindAt(doc[k], q[|at|+1..])
  {
    BelowKey(at, k, q);
    GetUnder(Node(doc), k, q[|at|+1..]);
  }

  lemma FillTextAt(start: Shape, now: Shape, at: Segments, doc: Fields, done: set<string>, k: string, q: Segments)
    requires IsTree(now) && at in now && Filled(start, now, at, doc, done)
    requires k in doc && doc[k].Leaf? && k !in done
    ensures ShapeKind(PutText(now, at, k, doc[k].text), q) ==
      if at <= q && |at| < |q| && q[|at|] in done + {k} then KindAt(Node(doc), q[|at|..]) else ShapeKind(start, q)
  {
    PutTextKind(now, at, k, doc[k].text, q);
    BelowKey(at, k, q);
    if at + [k] <= q {
      KindBelowKey(at, k, doc, q);
    }
  }

  lemma FillText(start: Shape, now: Shape, at: Segments, doc: Fields, done: set<string>, k: string)
    requires IsTree(now) && at in now && Filled(start, now, at, doc, done)
    requires k in doc && doc[k].Leaf? && k !in done
    ensures Filled(start, PutText(now, at, k, doc[k].text), at, doc, done + {k})
  {
    forall q ensures ShapeKind(PutText(now, at, k, doc[k].text), q) ==
        if at <= q && |at| < |q| && q[|at|] in done + {k} then KindAt(Node(doc), q[|at|..]) else ShapeKind(start, q)
    {
      FillTextAt(start, now, at, doc, done, k, q);
    }
  }

  lemma FillMap(start: Shape, now: Shape, grown: Shape, filled: Shape, at: Segments, doc: Fields, done: set<string>,
                k: string, child: GoMap)
    requires CanGrow(now, at, k, child) && Filled(start, now, at, doc, done) && grown == Grow(now, at, k, child)
    requires k in doc && doc[k].Node? && k !in done
    requires Filled(grown, filled, at + [k], doc[k].fields, doc[k].fields.Keys)
    ensures Filled(start, filled, at, doc, done + {k})
  {
    forall q ensures ShapeKind(filled, q) ==
        if at <= q && |at| < |q| && q[|at|] in done + {k} then KindAt(Node(doc), q[|at|..]) else ShapeKind(start, q)
    {
      GrowKind(now, at, k, child, q);
      BelowKey(at, k, q);
      if at + [k] <= q {
        KindBelowKey(at, k, doc, q);
        BelowGrown(now, at, k, child, doc[k].fields, q);
      }
    }
  }

  /** Below a newly linked empty map there is nothing yet. */
  lemma BelowGrown(now: Shape, at: Segments, k: string, child: GoMap, doc: Fields, q: Segments)
    requires CanGrow(now, at, k, child) && at + [k] <= q
    ensures |q| == |at| + 1 ==> q == at + [k] && q[|at|+1..] == []
    ensures |q| > |at| + 1 ==> (q[|at|+1..] != [] && q[|at + [k]|..] == q[|at|+1..]
                                && q[|at + [k]|] == q[|at|+1..][0] && ShapeKind(Grow(now, at, k, child), q) == Absent)
    ensures |q| > |at| + 1 && q[|at|+1] !in doc ==> KindAt(Node(doc), q[|at|+1..]) == Absent
  {
    if |q| > |at| + 1 {
      var rest := q[|at|+1..];
      assert q == at + [k] + rest;
      GrowIsTree(now, at, k, child);
      GrowKind(now, at, k, child, q);
      NothingBelow(now, at + [k], rest);
    }
  }

  lemma PutFreshText(shape: Shape, at: Segments, k: string, s: string)
    requires IsTree(shape) && at in shape && k !in shape[at].entries
    ensures PutText(shape, at, k, s) == shape[at := Cell(shape[at].obj, shape[at].entries[k := Str(s)])]
  {
    assert Linked(shape, at, k);
    forall p | at + [k] <= p ensures p !in shape {
      var rest := p[|at|+1..];
      assert p == at + [k] + rest;
      if rest == [] {
        assert p == at + [k];
      } else {
        NothingBelow(shape, at + [k], rest);
      }
    }
  }

  /** Only the cell at position at has changed; there may be more cells. */
  ghost predicate KeepsCells(start: Shape, now: Shape, at: Segments) {
    && (forall p | p in start && p != at :: p in now && now[p] == start[p])
    && at in start && at in now && now[at].obj == start[at].obj
  }

  /** The entries under the keys done are in place. */
  ghost predicate Progress(start: Shape, now: Shape, at: Segments, current: GoMap, doc: Fields, done: set<string>)
    reads Objects(now)
  {
    Filling(now, at, current, done) && Filled(start, now, at, doc, done) && KeepsCells(start, now, at)
  }

  method FillTextEntry(current: GoMap, k: string, doc: Fields,
                       ghost start: Shape, ghost now: Shape, ghost at: Segments, ghost done: set<string>)
    returns (ghost next: Shape)
    requires Progress(start, now, at, current, doc, done)
    requires k in doc && doc[k].Leaf? && k !in done
    modifies current
    ensures Progress(start, next, at, current, doc, done + {k}) && KeptOrFresh(now, next)
  {
    FillText(start, now, at, doc, done, k);
    PutFreshText(now, at, k, doc[k].text);
    PutTextIsTree(now, at, k, doc[k].text);
    next := PutText(now, at, k, doc[k].text);
    current.entries := current.entries[k := Str(doc[k].text)];
  }

  method LinkChild(current: GoMap, k: string, ghost now: Shape, ghost at: Segments, ghost done: set<string>)
    returns (child: GoMap, ghost grown: Shape)
    requires Filling(now, at, current, done) && k !in done
    modifies current
    ensures CanGrow(now, at, k, child) && grown == Grow(now, at, k, child)
    ensures Filling(grown, at, current, done + {k}) && Filling(grown, at + [k], child, {})
    ensures KeepsCells(now, grown, at) && KeptOrFresh(now, grown)
    ensures child != current && fresh(child)
  {
    assert Linked(now, at, k);
    assert at != at + [k];
    child := new GoMap();
    grown := Grow(now, at, k, child);
    GrowIsTree(now, at, k, child);
    current.entries := current.entries[k := Ref(child)];
  }

  /** Fills an empty map object with the entries of a document, creating the maps below it. */
  method Fill(current: GoMap, doc: Fields, ghost start: Shape, ghost at: Segments) returns (ghost now: Shape)
    requires Filling(start, at, current, {})
    modifies current
    ensures Progress(start, now, at, current, doc, doc.Keys) && KeptOrFresh(start, now)
    decreases Node(doc)
  {
    now := start;
    var remaining := doc.Keys;
    while remaining != {}
      invariant remaining <= doc.Keys
      invariant Progress(start, now, at, current, doc, doc.Keys - remaining) && KeptOrFresh(start, now)
    {
      var k :| k in remaining;
      ghost var done := doc.Keys - remaining;
      remaining := remaining - {k};
      assert doc.Keys - remaining == done + {k};
      match doc[k] {
        case Leaf(_) =>
          now := FillTextEntry(current, k, doc, start, now, at, done);
        case Node(fields) =>
          var child;
          ghost var grown, filled;
          child, grown := LinkChild(current, k, now, at, done);
          filled := Fill(child, fields, grown, at + [k]);
          FillMap(start, now, grown, filled, at, doc, done, k, child);
          now := filled;
      }
    }
  }

  /** json.Unmarshal of a stored document: a new unshared tree of maps that stands for it. */
  method Unmarshal(doc: Fields) returns (m: GoMap, ghost shape: Shape)
    ensures IsTree(shape) && InHeap(shape) && shape[[]].obj == m
    ensures DocumentOf(shape) == Node(doc)
    ensures fresh(Objects(shape))
  {
    m := new GoMap();
    ghost var start: Shape := map[[] := Cell(m, map[])];
    shape := Fill(m, doc, start, []);
    DocumentKinds(shape);
    forall q ensures KindAt(DocumentOf(shape), q) == KindAt(Node(doc), q) {
      assert q[0..] == q;
    }
    Extensionality(DocumentOf(shape), Node(doc));
  }

  /** json.Marshal of the map at a position of a tree. */
  method MarshalAt(m: GoMap, ghost shape: Shape, ghost p: Segments) returns (doc: Fields)
    requires IsTree(shape) && InHeap(shape) && p in shape && shape[p].obj == m
    ensures Node(doc) == DocumentAt(shape, p)
    decreases Below(shape, p)
  {
    doc := map[];
    var remaining := m.entries.Keys;
    while remaining != {}
      invariant remaining <= m.entries.Keys && doc.Keys == m.entries.Keys - remaining
      invariant forall k | k in doc :: doc[k] == SlotDocument(shape, p, k)
    {
      var k :| k in remaining;
      var value;
      match m.entries[k] {
        case Str(s) => value := Leaf(s);
        case Ref(child) =>
          assert Linked(shape, p, k);
          assert p in Below(shape, p) && p !in Below(shape, p + [k]);
          var fields := MarshalAt(child, shape, p + [k]);
          value := Node(fields);
      }
      doc := doc[k := value];
      remaining := remaining - {k};
    }
  }
}
