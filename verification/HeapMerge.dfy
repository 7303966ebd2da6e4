/** MergeDataAtPath as it runs: a cursor moving down through map objects updated in place. */
module HeapMerge {
  import opened Documents
  import opened Merge
  import opened MergeLaws
  import opened Paths
  import opened Heap

  /** The picture after an empty map object is linked under key k of the map at position at. */
  ghost function Grow(shape: Shape, at: Segments, k: string, obj: GoMap): Shape
    requires at in shape
  {
    shape[at := Cell(shape[at].obj, shape[at].entries[k := Ref(obj)])][at + [k] := Cell(obj, map[])]
  }

  ghost predicate CanGrow(shape: Shape, at: Segments, k: string, obj: GoMap) {
    && IsTree(shape) && at in shape && at + [k] !in shape && obj !in Objects(shape)
  }

  lemma SnocEqual(p: Segments, k: string, q: Segments, x: string)
    ensures p + [k] == q + [x] <==> p == q && k == x
  {
    if p + [k] == q + [x] {
      assert p == (p + [k])[..|p|] && q == (q + [x])[..|q|];
    }
  }

  lemma GrowIsTree(shape: Shape, at: Segments, k: string, obj: GoMap)
    requires CanGrow(shape, at, k, obj)
    ensures IsTree(Grow(shape, at, k, obj))
  {
    var grown := Grow(shape, at, k, obj);
    assert at + [k] != at;
    forall p, x ensures Linked(grown, p, x) {
      assert Linked(shape, p, x);
      SnocEqual(p, x, at, k);
      assert p + [x] != p;
      if p == at + [k] {
        assert Linked(shape, at, k);
      }
    }
  }

  lemma GrowKind(shape: Shape, at: Segments, k: string, obj: GoMap, q: Segments)
    requires CanGrow(shape, at, k, obj)
    ensures ShapeKind(Grow(shape, at, k, obj), q) == if q == at + [k] then Branch else ShapeKind(shape, q)
  {
    if q != [] {
      var p, x := q[..|q|-1], q[|q|-1];
      assert q == p + [x];
      SnocEqual(p, x, at, k);
      assert at + [k] != at;
    }
  }

  /** The picture after the entries of another tree's root are copied into the map at position at. */
  ghost function Graft(shape: Shape, at: Segments, extra: Shape): Shape
    requires at in shape && [] in extra
  {
    var n := extra[[]].entries;
    map q | q in shape.Keys + (set r | r in extra :: at + r) && (Replaced(at, n, q) ==> q[|at|..] in extra)
      && (!Replaced(at, n, q) ==> q in shape)
      :: if Replaced(at, n, q) then extra[q[|at|..]]
         else if q == at then Cell(shape[at].obj, shape[at].entries + n)
         else shape[q]
  }

  ghost predicate Replaced(at: Segments, n: map<string, Slot>, q: Segments) {
    at <= q && |at| < |q| && q[|at|] in n
  }

  ghost predicate CanGraft(shape: Shape, at: Segments, extra: Shape) {
    && IsTree(shape) && IsTree(extra) && at in shape && Objects(shape) !! Objects(extra)
  }

  lemma GraftDomain(shape: Shape, at: Segments, extra: Shape, q: Segments)
    requires CanGraft(shape, at, extra)
    ensures q in Graft(shape, at, extra) <==>
            if Replaced(at, extra[[]].entries, q) then q[|at|..] in extra else q in shape
  {
    if Replaced(at, extra[[]].entries, q) && q[|at|..] in extra {
      assert q == at + q[|at|..];
    }
  }

  /** Where the entry x at position p of a graft comes from. */
  lemma ReplacedSnoc(at: Segments, n: map<string, Slot>, p: Segments, x: string)
    ensures Replaced(at, n, p + [x]) <==> Replaced(at, n, p) || (p == at && x in n)
    ensures Replaced(at, n, p) ==> (p + [x])[|at|..] == p[|at|..] + [x]
    ensures p == at ==> (p + [x])[|at|..] == [] + [x]
  {
    var q := p + [x];
    assert q[..|p|] == p;
    if Replaced(at, n, q) && |at| < |p| {
      assert q[|at|] == p[|at|];
    }
  }

  lemma GraftLinked(shape: Shape, at: Segments, extra: Shape, p: Segments, x: string)
    requires CanGraft(shape, at, extra)
    ensures Linked(Graft(shape, at, extra), p, x)
  {
    var n := extra[[]].entries;
    var q := p + [x];
    GraftDomain(shape, at, extra, p);
    GraftDomain(shape, at, extra, q);
    ReplacedSnoc(at, n, p, x);
    if Replaced(at, n, p) {
      assert Linked(extra, p[|at|..], x);
    } else if p == at && x in n {
      assert Linked(extra, [], x);
    } else {
      assert Linked(shape, p, x);
    }
  }

  lemma GraftUnshared(shape: Shape, at: Segments, extra: Shape)
    requires CanGraft(shape, at, extra)
    ensures Unshared(Graft(shape, at, extra))
    ensures Objects(Graft(shape, at, extra)) <= Objects(shape) + Objects(extra)
  {
    var grafted, n := Graft(shape, at, extra), extra[[]].entries;
    forall p | p in grafted
      ensures grafted[p].obj in if Replaced(at, n, p) then Objects(extra) else Objects(shape)
    {
      GraftDomain(shape, at, extra, p);
    }
    forall p, q | p in grafted && q in grafted && grafted[p].obj == grafted[q].obj ensures p == q {
      GraftDomain(shape, at, extra, p);
      GraftDomain(shape, at, extra, q);
      if Replaced(at, n, p) && Replaced(at, n, q) {
        assert p == at + p[|at|..] && q == at + q[|at|..];
      }
    }
  }

  lemma GraftIsTree(shape: Shape, at: Segments, extra: Shape)
    requires CanGraft(shape, at, extra)
    ensures IsTree(Graft(shape, at, extra))
  {
    var grafted := Graft(shape, at, extra);
    GraftDomain(shape, at, extra, []);
    GraftUnshared(shape, at, extra);
    forall p, x ensures Linked(grafted, p, x) {
      GraftLinked(shape, at, extra, p, x);
    }
  }

  lemma GraftSlot(shape: Shape, at: Segments, extra: Shape, p: Segments, x: string)
    requires CanGraft(shape, at, extra)
    ensures SlotKind(Graft(shape, at, extra), p, x) ==
            if Replaced(at, extra[[]].entries, p) then SlotKind(extra, p[|at|..], x)
            else if p == at && x in extra[[]].entries then SlotKind(extra, [], x)
            else SlotKind(shape, p, x)
  {
    GraftDomain(shape, at, extra, p);
  }

  lemma GraftKind(shape: Shape, at: Segments, extra: Shape, q: Segments)
    requires CanGraft(shape, at, extra)
    ensures ShapeKind(Graft(shape, at, extra), q) ==
            if Replaced(at, extra[[]].entries, q) then ShapeKind(extra, q[|at|..]) else ShapeKind(shape, q)
  {
    if q != [] {
      var p, x := q[..|q|-1], q[|q|-1];
      assert q == p + [x];
      GraftSlot(shape, at, extra, p, x);
      ReplacedSnoc(at, extra[[]].entries, p, x);
      if Replaced(at, extra[[]].entries, p) {
        ShapeKindSnoc(extra, p[|at|..], x);
      } else if p == at {
        ShapeKindSnoc(extra, [], x);
      }
    }
  }

  /** Every map on the way to a position exists; all else is as in the picture at the start. */
  ghost predicate RouteOpened(before: Shape, now: Shape, at: Segments) {
    forall q :: ShapeKind(now, q) == if q <= at then Branch else ShapeKind(before, q)
  }

  lemma OpenNext(before: Shape, now: Shape, at: Segments, k: string)
    requires IsTree(now) && RouteOpened(before, now, at) && at + [k] in now
    ensures RouteOpened(before, now, at + [k])
  {
    assert Linked(now, at, k);
    ShapeKindSnoc(now, at, k);
    forall q ensures ShapeKind(now, q) == if q <= at + [k] then Branch else ShapeKind(before, q) {
      assert q <= at + [k] <==> q <= at || q == at + [k];
    }
  }

  lemma OpenFresh(before: Shape, now: Shape, at: Segments, k: string, obj: GoMap)
    requires CanGrow(now, at, k, obj) && RouteOpened(before, now, at)
    ensures RouteOpened(before, Grow(now, at, k, obj), at + [k])
  {
    forall q ensures ShapeKind(Grow(now, at, k, obj), q) == if q <= at + [k] then Branch else ShapeKind(before, q) {
      GrowKind(now, at, k, obj, q);
      assert q <= at + [k] <==> q <= at || q == at + [k];
    }
  }

  /** Opening the route and grafting the new entries is the pure merge. */
  lemma GraftRefinesMerge(before: Shape, now: Shape, at: Segments, extra: Shape)
    requires IsTree(before) && CanGraft(now, at, extra) && RouteOpened(before, now, at)
    ensures IsTree(Graft(now, at, extra))
    ensures DocumentOf(Graft(now, at, extra)) ==
            Node(MergeAt(DocumentOf(before).fields, at, DocumentOf(extra).fields))
  {
    var grafted := Graft(now, at, extra);
    GraftIsTree(now, at, extra);
    var t, n := DocumentOf(before).fields, DocumentOf(extra).fields;
    forall q ensures KindAt(DocumentOf(grafted), q) == KindAt(Node(MergeAt(t, at, n)), q) {
      KindAfterMerge(t, at, n, q);
      GraftKind(now, at, extra, q);
      DocumentKinds(grafted);
      DocumentKinds(before);
      DocumentKinds(extra);
      assert Overwritten(at, n, q) <==> Replaced(at, extra[[]].entries, q);
    }
    Extensionality(DocumentOf(grafted), Node(MergeAt(t, at, n)));
  }

  /** for k, v := range source { target[k] = v }, in whatever order the keys come. */
  method CopyEntries(target: GoMap, source: GoMap)
    requires target != source
    modifies target
    ensures target.entries == old(target.entries) + old(source.entries)
  {
    var remaining := source.entries.Keys;
    while remaining != {}
      invariant remaining <= source.entries.Keys
      invariant target.entries == old(target.entries) + (source.entries - remaining)
    {
      var k :| k in remaining;
      target.entries := target.entries[k := source.entries[k]];
      remaining := remaining - {k};
    }
  }

  /** The map objects of a tree that lie on the route to a position. */
  ghost function OnRoute(shape: Shape, at: Segments): set<GoMap> {
    set p | p in shape && p <= at :: shape[p].obj
  }

  /** The cursor's situation: the map at position at is current, and the route down to it is open. */
  ghost predicate Cursor(before: Shape, now: Shape, at: Segments, extra: Shape, current: GoMap)
    reads Objects(now), Objects(extra)
  {
    && CanGraft(now, at, extra) && now[at].obj == current
    && InHeap(now) && InHeap(extra)
    && RouteOpened(before, now, at)
  }

  /** Every pictured object is new or was pictured at the same position before. */
  twostate predicate KeptOrFresh(before: Shape, new now: Shape) {
    forall p | p in now :: fresh(now[p].obj) || (p in before && now[p].obj == before[p].obj)
  }

  /** One step down: the map under the segment, created and linked when there is none. */
  method Descend(current: GoMap, segment: string,
                 ghost before: Shape, ghost now: Shape, ghost at: Segments, ghost extra: Shape)
    returns (nextMap: GoMap, ghost grown: Shape)
    requires Cursor(before, now, at, extra, current)
    modifies current
    ensures Cursor(before, grown, at + [segment], extra, nextMap)
    ensures [] in grown && [] in now && grown[[]].obj == now[[]].obj
    ensures KeptOrFresh(now, grown)
  {
    assert Linked(now, at, segment);
    if segment in current.entries && current.entries[segment].Ref? {
      nextMap := current.entries[segment].child;
      grown := now;
      OpenNext(before, now, at, segment);
    } else {
      nextMap := new GoMap();
      grown := Grow(now, at, segment, nextMap);
      GrowIsTree(now, at, segment, nextMap);
      OpenFresh(before, now, at, segment, nextMap);
      current.entries := current.entries[segment := Ref(nextMap)];
    }
  }

  /** The picture is true of the heap, but for the link from position at to the map under k. */
  ghost predicate InHeapBeforeLink(grown: Shape, at: Segments, k: string, child: GoMap)
    reads Objects(grown)
  {
    && at in grown && at + [k] in grown && grown[at + [k]].obj == child
    && (forall p | p in grown && p != at :: grown[p].obj.entries == grown[p].entries)
    && grown[at].entries == grown[at].obj.entries[k := Ref(child)]
  }

  /** The map under the last segment, or a new one that is not linked yet. */
  method LastMap(current: GoMap, segment: string,
                 ghost before: Shape, ghost now: Shape, ghost at: Segments, ghost extra: Shape)
    returns (existingMap: GoMap, ghost grown: Shape)
    requires Cursor(before, now, at, extra, current)
    ensures CanGraft(grown, at + [segment], extra) && RouteOpened(before, grown, at + [segment])
    ensures InHeapBeforeLink(grown, at, segment, existingMap) && grown[at].obj == current
    ensures [] in now && grown[[]].obj == now[[]].obj && KeptOrFresh(now, grown)
  {
    assert Linked(now, at, segment);
    if segment in current.entries && current.entries[segment].Ref? {
      existingMap := current.entries[segment].child;
      grown := now;
      OpenNext(before, now, at, segment);
    } else {
      existingMap := new GoMap();
      grown := Grow(now, at, segment, existingMap);
      GrowIsTree(now, at, segment, existingMap);
      OpenFresh(before, now, at, segment, existingMap);
    }
  }

  /** Copying the new entries into one map, all else being as pictured, makes the graft true. */
  lemma GraftedInHeap(grown: Shape, at: Segments, extra: Shape)
    requires CanGraft(grown, at, extra) && InHeap(extra)
    requires forall p | p in grown && p != at :: grown[p].obj.entries == grown[p].entries
    requires grown[at].obj.entries == grown[at].entries + extra[[]].entries
    ensures InHeap(Graft(grown, at, extra))
  {
    var after := Graft(grown, at, extra);
    forall p | p in after ensures after[p].obj.entries == after[p].entries {
      GraftDomain(grown, at, extra, p);
    }
  }

  /** All that holds once the new entries have been copied and the link is in place. */
  lemma GraftComplete(before: Shape, grown: Shape, at: Segments, extra: Shape)
    requires IsTree(before) && CanGraft(grown, at, extra) && RouteOpened(before, grown, at) && InHeap(extra)
    requires forall p | p in grown && p != at :: grown[p].obj.entries == grown[p].entries
    requires grown[at].obj.entries == grown[at].entries + extra[[]].entries
    ensures IsTree(Graft(grown, at, extra)) && InHeap(Graft(grown, at, extra))
    ensures Graft(grown, at, extra)[[]].obj == grown[[]].obj
    ensures DocumentOf(Graft(grown, at, extra)) ==
            Node(MergeAt(DocumentOf(before).fields, at, DocumentOf(extra).fields))
    ensures Objects(Graft(grown, at, extra)) <= Objects(grown) + Objects(extra)
  {
    GraftRefinesMerge(before, grown, at, extra);
    GraftUnshared(grown, at, extra);
    GraftedInHeap(grown, at, extra);
    GraftDomain(grown, at, extra, []);
  }

  /** The last segment: the new entries are copied into the map under it, which is then linked. */
  method MergeLast(current: GoMap, segment: string, newData: GoMap,
                   ghost before: Shape, ghost now: Shape, ghost at: Segments, ghost extra: Shape)
    returns (ghost after: Shape)
    requires IsTree(before) && Cursor(before, now, at, extra, current) && extra[[]].obj == newData
    modifies current, set p | p in now && p == at + [segment] :: now[p].obj
    ensures IsTree(after) && InHeap(after) && [] in now && after[[]].obj == now[[]].obj
    ensures DocumentOf(after) ==
            Node(MergeAt(DocumentOf(before).fields, at + [segment], DocumentOf(extra).fields))
    ensures fresh(Objects(after) - Objects(now) - Objects(extra))
  {
    var existingMap;
    ghost var grown;
    existingMap, grown := LastMap(current, segment, before, now, at, extra);
    assert at != at + [segment];
    assert newData in Objects(extra) && existingMap in Objects(grown);
    CopyEntries(existingMap, newData);
    current.entries := current.entries[segment := Ref(existingMap)];
    after := Graft(grown, at + [segment], extra);
    GraftComplete(before, grown, at + [segment], extra);
  }

  /** The empty path: the new entries are copied into the root map. */
  method MergeAtRoot(existingData: GoMap, newData: GoMap, ghost shape: Shape, ghost extra: Shape)
    returns (ghost after: Shape)
    requires Cursor(shape, shape, [], extra, existingData) && extra[[]].obj == newData
    modifies existingData
    ensures IsTree(after) && InHeap(after) && after[[]].obj == existingData
    ensures DocumentOf(after) == Node(MergeAt(DocumentOf(shape).fields, [], DocumentOf(extra).fields))
    ensures fresh(Objects(after) - Objects(shape) - Objects(extra))
  {
    assert newData in Objects(extra) && existingData in Objects(shape);
    CopyEntries(existingData, newData);
    after := Graft(shape, [], extra);
    GraftComplete(shape, shape, [], extra);
  }

  /** Merges newData into the tree of maps rooted at existingData. The tree may be any unshared
      acyclic one; the result is again one, stands for the pure merge, and only maps on the
      route are changed. */
  method MergeDataAtPath(existingData: GoMap, path: string, newData: GoMap, ghost shape: Shape, ghost extra: Shape)
    returns (ghost after: Shape)
    requires IsTree(shape) && InHeap(shape) && shape[[]].obj == existingData
    requires IsTree(extra) && InHeap(extra) && extra[[]].obj == newData
    requires Objects(shape) !! Objects(extra)
    modifies OnRoute(shape, MergePosition(path))
    ensures IsTree(after) && InHeap(after) && after[[]].obj == existingData
    ensures DocumentOf(after) ==
            Node(MergeAt(DocumentOf(shape).fields, MergePosition(path), DocumentOf(extra).fields))
    ensures fresh(Objects(after) - Objects(shape) - Objects(extra))
  {
    if path == "" {
      after := MergeAtRoot(existingData, newData, shape, extra);
      return;
    }
    var segments := Split(path);
    var current := existingData;
    ghost var now := shape;
    after := shape;
    for i := 0 to |segments|
      invariant i < |segments| ==> Cursor(shape, now, segments[..i], extra, current) && KeptOrFresh(shape, now)
      invariant i < |segments| ==> now[[]].obj == existingData
      invariant i == |segments| ==>
        && IsTree(after) && InHeap(after) && after[[]].obj == existingData
        && DocumentOf(after) == Node(MergeAt(DocumentOf(shape).fields, segments, DocumentOf(extra).fields))
        && fresh(Objects(after) - Objects(shape) - Objects(extra))
    {
      var segment := segments[i];
      assert segments[..i+1] == segments[..i] + [segment];
      if i == |segments| - 1 {
        after := MergeLast(current, segment, newData, shape, now, segments[..i], extra);
        assert segments[..i] + [segment] == segments;
      } else {
        current, now := Descend(current, segment, shape, now, segments[..i], extra);
      }
    }
  }
}
