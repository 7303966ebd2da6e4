/** collectAllPaths: listing the leaves of a document as paths. */
module Enumerate {
  import opened Documents

  function Extend(prefix: string, key: string): string {
    if prefix == "" then key else prefix + "/" + key
  }

  /** The path listed for a leaf at position q below a prefix. */
  function Reported(prefix: string, q: Segments): string
    decreases q
  {
    if q == [] then prefix else Reported(Extend(prefix, q[0]), q[1..])
  }

  ghost predicate NoDuplicates<T>(s: seq<T>) {
    forall i, j | 0 <= i < j < |s| :: s[i] != s[j]
  }

  /** The leaves, each once, and beside each the path listed for it. */
  ghost predicate Listing(data: Value, prefix: string, paths: seq<string>, leaves: seq<Segments>) {
    && NoDuplicates(leaves)
    && (forall q :: q in leaves <==> data.Node? && KindAt(data, q).Text?)
    && |paths| == |leaves|
    && forall i | 0 <= i < |leaves| :: paths[i] == Reported(prefix, leaves[i])
  }

  /** Some leaf of data is listed as x. */
  ghost predicate ListsLeaf(data: Value, prefix: string, x: string) {
    exists q :: data.Node? && KindAt(data, q).Text? && x == Reported(prefix, q)
  }

  ghost function Under(key: string, qs: seq<Segments>): (r: seq<Segments>)
    ensures |r| == |qs| && forall i | 0 <= i < |qs| :: r[i] == [key] + qs[i]
  {
    seq(|qs|, i requires 0 <= i < |qs| => [key] + qs[i])
  }

  lemma UnderMembers(key: string, qs: seq<Segments>)
    ensures forall q :: q in Under(key, qs) <==> q != [] && q[0] == key && q[1..] in qs
    ensures NoDuplicates(qs) ==> NoDuplicates(Under(key, qs))
  {
    var r := Under(key, qs);
    forall q ensures q in r <==> q != [] && q[0] == key && q[1..] in qs {
      if q != [] && q[0] == key && q[1..] in qs {
        var i :| 0 <= i < |qs| && qs[i] == q[1..];
        assert r[i] == q;
      }
      if q in r {
        var i :| 0 <= i < |r| && r[i] == q;
        assert q[1..] == qs[i];
      }
    }
    forall i, j | 0 <= i < j < |qs| && r[i] == r[j] ensures qs[i] == qs[j] {
      assert r[i][1..] == qs[i] && r[j][1..] == qs[j];
    }
  }

  /** The leaves under the keys already visited. */
  ghost predicate Visited(data: Value, remaining: set<string>, leaves: seq<Segments>)
    requires data.Node?
  {
    && NoDuplicates(leaves)
    && forall q :: q in leaves <==> q != [] && q[0] !in remaining && KindAt(data, q).Text?
  }

  lemma VisitKey(data: Value, remaining: set<string>, leaves: seq<Segments>, key: string, below: seq<Segments>)
    requires data.Node? && key in data.fields && key in remaining && Visited(data, remaining, leaves)
    requires NoDuplicates(below) && forall q :: q in below <==> KindAt(data.fields[key], q).Text?
    ensures Visited(data, remaining - {key}, leaves + Under(key, below))
  {
    UnderMembers(key, below);
    var all := leaves + Under(key, below);
    forall q ensures q in all <==> q != [] && q[0] !in remaining - {key} && KindAt(data, q).Text? {
      if q != [] {
        assert q == [q[0]] + q[1..];
        GetUnder(data, q[0], q[1..]);
      }
    }
    forall i, j | 0 <= i < j < |all| ensures all[i] != all[j] {
      if i < |leaves| <= j {
        assert all[i] in leaves && all[j] in Under(key, below);
      } else if j < |leaves| {
        assert all[i] == leaves[i] && all[j] == leaves[j];
      }
    }
  }

  lemma ReportedUnder(prefix: string, key: string, q: Segments)
    ensures Reported(prefix, [key] + q) == Reported(Extend(prefix, key), q)
  {
    assert ([key] + q)[1..] == q;
  }

  lemma ListedLeaves(data: Value, prefix: string, paths: seq<string>, leaves: seq<Segments>)
    requires Listing(data, prefix, paths, leaves)
    ensures forall x :: x in paths <==> ListsLeaf(data, prefix, x)
  {
    forall x ensures x in paths <==> ListsLeaf(data, prefix, x) {
      if x in paths {
        var i :| 0 <= i < |paths| && paths[i] == x;
        assert leaves[i] in leaves;
      }
      if ListsLeaf(data, prefix, x) {
        var q :| data.Node? && KindAt(data, q).Text? && x == Reported(prefix, q);
        var i :| 0 <= i < |leaves| && leaves[i] == q;
        assert paths[i] == x;
      }
    }
  }

  /** Visits the keys of each map in whatever order they come. */
  method CollectAllPaths(data: Value, prefix: string) returns (paths: seq<string>, ghost leaves: seq<Segments>)
    ensures Listing(data, prefix, paths, leaves)
    ensures forall x :: x in paths <==> ListsLeaf(data, prefix, x)
    decreases data
  {
    paths, leaves := [], [];
    if data.Node? {
      var remaining := data.fields.Keys;
      while remaining != {}
        invariant remaining <= data.fields.Keys
        invariant Visited(data, remaining, leaves)
        invariant |paths| == |leaves|
        invariant forall i | 0 <= i < |leaves| :: paths[i] == Reported(prefix, leaves[i])
      {
        var key :| key in remaining;
        var value := data.fields[key];
        var currentPath := Extend(prefix, key);
        ghost var below: seq<Segments>;
        if value.Node? {
          var nestedPaths;
          nestedPaths, below := CollectAllPaths(value, currentPath);
          forall i | 0 <= i < |below| ensures nestedPaths[i] == Reported(prefix, Under(key, below)[i]) {
            ReportedUnder(prefix, key, below[i]);
          }
          paths := paths + nestedPaths;
        } else {
          below := [[]];
          ReportedUnder(prefix, key, []);
          paths := paths + [currentPath];
        }
        VisitKey(data, remaining, leaves, key, below);
        leaves := leaves + Under(key, below);
        remaining := remaining - {key};
      }
    }
    ListedLeaves(data, prefix, paths, leaves);
  }
}
