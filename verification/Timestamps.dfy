/** addTimestampToThisData: the keys it adds to the caller's parameter map. */
module Timestamps {
  import opened ServiceSpec

  const SUFFIX := "_timestamp"

  /** A Go map[string]string passed by reference. */
  class ParamMap {
    var entries: map<string, string>

    constructor (entries: map<string, string>)
      ensures this.entries == entries
    {
      this.entries := entries;
    }
  }

  /** x is the generated companion of one of the keys. */
  predicate IsCompanion(keys: set<string>, x: string) {
    |SUFFIX| <= |x| && x[|x|-|SUFFIX|..] == SUFFIX && x[..|x|-|SUFFIX|] in keys
  }

  /** The original entries, the companion of every original key with the first clock text when the
      path is empty, and "timestamp" with the second one; generated entries win. */
  ghost predicate IsExpansion(before: map<string, string>, after: map<string, string>, path: string,
                              first: string, second: string) {
    forall x ::
      && (x in after <==> x in before || x == TIMESTAMP || (path == "" && IsCompanion(before.Keys, x)))
      && (x in after ==> after[x] == ExpandedValue(before, path, first, second, x))
  }

  function ExpandedValue(before: map<string, string>, path: string, first: string, second: string, x: string): string {
    if x == TIMESTAMP then second
    else if path == "" && IsCompanion(before.Keys, x) then first
    else if x in before then before[x]
    else ""
  }

  lemma CompanionOf(keys: set<string>, k: string, x: string)
    ensures IsCompanion(keys + {k}, x) <==> IsCompanion(keys, x) || x == k + SUFFIX
  {
    if IsCompanion({k}, x) {
      assert x == x[..|x|-|SUFFIX|] + x[|x|-|SUFFIX|..];
    }
    assert (k + SUFFIX)[|k|..] == SUFFIX && (k + SUFFIX)[..|k|] == k;
  }

  lemma NeverTheRootKey(keys: set<string>)
    ensures !IsCompanion(keys, TIMESTAMP)
  {
  }

  ghost function Members(keys: seq<string>): set<string> {
    set k | k in keys
  }

  lemma MembersSnoc(keys: seq<string>, k: string)
    ensures Members(keys + [k]) == Members(keys) + {k}
  {
  }

  /** Collects the keys first, in whatever order they come, and then writes. */
  method AddTimestampToThisData(params: ParamMap, path: string, first: string, second: string)
    modifies params
    ensures IsExpansion(old(params.entries), params.entries, path, first, second)
  {
    ghost var before := params.entries;
    if path == "" {
      var allKeys: seq<string> := [];
      var remaining := params.entries.Keys;
      while remaining != {}
        invariant remaining <= before.Keys && params.entries == before
        invariant Members(allKeys) == before.Keys - remaining
      {
        var k :| k in remaining;
        MembersSnoc(allKeys, k);
        allKeys := allKeys + [k];
        remaining := remaining - {k};
      }
      assert Members(allKeys[..0]) == {};
      for i := 0 to |allKeys|
        invariant forall x :: x in params.entries <==> x in before || IsCompanion(Members(allKeys[..i]), x)
        invariant forall x | x in params.entries ::
          params.entries[x] == if IsCompanion(Members(allKeys[..i]), x) then first else before[x]
      {
        var k := allKeys[i];
        assert allKeys[..i+1] == allKeys[..i] + [k];
        MembersSnoc(allKeys[..i], k);
        forall x
          ensures IsCompanion(Members(allKeys[..i+1]), x) <==> IsCompanion(Members(allKeys[..i]), x) || x == k + SUFFIX
        {
          CompanionOf(Members(allKeys[..i]), k, x);
        }
        params.entries := params.entries[k + SUFFIX := first];
      }
      assert allKeys[..|allKeys|] == allKeys;
    }
    NeverTheRootKey(before.Keys);
    params.entries := params.entries[TIMESTAMP := second];
  }

  /** The result does not depend on the order in which the keys were visited. */
  lemma ExpansionUnique(before: map<string, string>, a: map<string, string>, b: map<string, string>, path: string,
                        first: string, second: string)
    requires IsExpansion(before, a, path, first, second) && IsExpansion(before, b, path, first, second)
    ensures a == b
  {
    forall x ensures x in a <==> x in b {
    }
  }

  /** With an empty path, the companion of a key is the key followed by "_timestamp"; the entry
      "timestamp" is there in any case. */
  lemma GeneratedKeys(before: map<string, string>, after: map<string, string>, path: string,
                      first: string, second: string, k: string)
    requires IsExpansion(before, after, path, first, second) && k in before
    ensures "timestamp" in after && after["timestamp"] == second
    ensures path == "" ==> k + "_timestamp" in after && after[k + "_timestamp"] == first
  {
    var x := k + "_timestamp";
    assert x[|k|..] == "_timestamp" && x[..|k|] == k;
    assert IsCompanion(before.Keys, x);
    NeverTheRootKey(before.Keys);
  }
}
