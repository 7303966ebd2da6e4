/** What a field path denotes, and its laws with respect to merging. */
module Traverse {
  import opened Documents
  import opened Paths
  import opened Merge
  import opened MergeLaws

  datatype Lookup<+T> = Found(value: T) | NotFound | InvalidPath

  /** A text lies strictly above the position q. */
  ghost predicate TextAbove(v: Value, q: Segments) {
    exists i :: 0 < i < |q| && KindAt(v, q[..i]).Text?
  }

  /** What a field path denotes: the value there, or why there is none. */
  ghost function LookupOf(data: Fields, fieldPath: string): Lookup<Value> {
    var keys := Split(fieldPath);
    match Get(Node(data), keys)
    case Some(v) => Found(v)
    case None => if TextAbove(Node(data), keys) then InvalidPath else NotFound
  }

  lemma GetSplit(v: Value, keys: Segments, i: nat)
    requires i <= |keys|
    ensures Get(v, keys) == (if Get(v, keys[..i]).Some? then Get(Get(v, keys[..i]).value, keys[i..]) else None)
  {
    assert keys == keys[..i] + keys[i..];
    GetConcat(v, keys[..i], keys[i..]);
  }

  /** Above a position that holds something there is no text, and below a text there is nothing. */
  lemma TextBlocks(v: Value, keys: Segments, i: nat, j: nat)
    requires i <= |keys| && j <= |keys| && KindAt(v, keys[..i]).Text? && Get(v, keys[..j]).Some?
    ensures j <= i
    ensures Get(v, keys[..j]).value.Leaf? ==> j == i
  {
    if i < j {
      assert keys[..j][..i] == keys[..i] && keys[..j][i..] != [];
      GetSplit(v, keys[..j], i);
    } else if j < i && Get(v, keys[..j]).value.Leaf? {
      assert keys[..i][..j] == keys[..j] && keys[..i][j..] != [];
      GetSplit(v, keys[..i], j);
    }
  }

  /** A missing key below a map leaves nothing to find and no text in the way. */
  lemma MissingKey(v: Value, keys: Segments, i: nat)
    requires i < |keys| && Get(v, keys[..i]).Some? && Get(v, keys[..i]).value.Node?
    requires Get(v, keys[..i+1]) == None
    ensures Get(v, keys) == None && !TextAbove(v, keys)
  {
    GetSplit(v, keys, i + 1);
    forall j | 0 < j < |keys| ensures !KindAt(v, keys[..j]).Text? {
      if i < j {
        assert keys[..j][..i+1] == keys[..i+1];
        GetSplit(v, keys[..j], i + 1);
      } else if Get(v, keys[..j]).Some? && Get(v, keys[..j]).value.Leaf? {
        TextBlocks(v, keys, j, i);
      }
    }
  }

  /** What was just written below a path is found at that path followed by its key. */
  lemma PutGet(t: Fields, path: string, n: Fields, k: string)
    requires k in n && SlashFree(k)
    ensures LookupOf(MergeAt(t, MergePosition(path), n), ChildPath(path, k)) == Found(n[k])
  {
    var p := MergePosition(path);
    SplitChildPath(path, k);
    GetAfterMerge(t, p, n, p + [k]);
    assert (p + [k])[|p|..] == [k] + [];
    GetUnder(Node(n), k, []);
  }

  /** The merge position itself and every position above it hold maps afterwards. */
  lemma GetOnRoute(t: Fields, path: string, n: Fields, x: string)
    requires Split(x) <= MergePosition(path)
    ensures LookupOf(MergeAt(t, MergePosition(path), n), x) ==
            Found(Node(MergeAt(FieldsAt(t, Split(x)), MergePosition(path)[|Split(x)|..], n)))
  {
    GetAfterMerge(t, MergePosition(path), n, Split(x));
  }

  /** A text of t above q on the merge route, which the merge replaces by a map. */
  ghost predicate TextOnRoute(t: Fields, p: Segments, q: Segments) {
    exists i :: 0 < i < |q| && q[..i] <= p && KindAt(Node(t), q[..i]).Text?
  }

  /** Off the route and outside the new entries, lookups succeed with the same value as before;
      the only change is that a text replaced on the route no longer makes the path invalid. */
  lemma GetOffRoute(t: Fields, path: string, n: Fields, x: string)
    requires !(Split(x) <= MergePosition(path)) && !Overwritten(MergePosition(path), n, Split(x))
    ensures LookupOf(MergeAt(t, MergePosition(path), n), x) ==
            if TextOnRoute(t, MergePosition(path), Split(x)) then NotFound else LookupOf(t, x)
  {
    var p, q := MergePosition(path), Split(x);
    var after := MergeAt(t, p, n);
    GetAfterMerge(t, p, n, q);
    forall i | 0 < i < |q|
      ensures KindAt(Node(after), q[..i]) == if q[..i] <= p then Branch else KindAt(Node(t), q[..i])
    {
      KindAfterMerge(t, p, n, q[..i]);
      assert Overwritten(p, n, q[..i]) ==> Overwritten(p, n, q);
    }
    if TextOnRoute(t, p, q) {
      var i :| 0 < i < |q| && q[..i] <= p && KindAt(Node(t), q[..i]).Text?;
      assert q[..|q|] == q;
      if Get(Node(t), q).Some? {
        TextBlocks(Node(t), q, i, |q|);
      }
      forall j | 0 < j < |q| && KindAt(Node(t), q[..j]).Text? ensures q[..j] <= p {
        TextBlocks(Node(t), q, i, j);
      }
    } else {
      assert TextAbove(Node(after), q) <==> TextAbove(Node(t), q);
    }
  }
}
