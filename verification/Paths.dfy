/** Slash-separated paths: Go's strings.Split on "/" and its inverse. */
module Paths {
  import opened Documents

  /** strings.Split(s, "/"): empty segments are kept, and "" splits into one empty segment. */
  function Split(s: string): (r: Segments)
    ensures |r| >= 1
    ensures forall i :: 0 <= i < |r| ==> SlashFree(r[i])
  {
    if s == "" then [""]
    else
      var rest := Split(s[1..]);
      if s[0] == '/' then [""] + rest else [[s[0]] + rest[0]] + rest[1..]
  }

  function Join(segments: Segments): string
    requires segments != []
  {
    if |segments| == 1 then segments[0] else segments[0] + "/" + Join(segments[1..])
  }

  predicate SlashFree(s: string) {
    '/' !in s
  }

  ghost predicate AllSlashFree(segments: Segments) {
    forall x :: x in segments ==> SlashFree(x)
  }

  /** The position a merge path denotes: the empty path is the root, not the key "". */
  function MergePosition(path: string): Segments {
    if path == "" then [] else Split(path)
  }

  /** The path of key k directly below a merge path. */
  function ChildPath(path: string, k: string): string {
    if path == "" then k else path + "/" + k
  }

  lemma {:induction false} SplitSlashFree(k: string)
    requires SlashFree(k)
    ensures Split(k) == [k]
  {
    if k != "" {
      assert k[0] in k && forall c :: c in k[1..] ==> c in k;
      SplitSlashFree(k[1..]);
      assert [k[0]] + k[1..] == k;
    }
  }

  lemma {:induction false} SplitConcat(p: string, x: string)
    ensures Split(p + "/" + x) == Split(p) + Split(x)
  {
    var s := p + "/" + x;
    if p == "" {
      assert s[1..] == x;
    } else {
      assert s[1..] == p[1..] + "/" + x;
      SplitConcat(p[1..], x);
    }
  }

  lemma SplitChildPath(path: string, k: string)
    requires SlashFree(k)
    ensures Split(ChildPath(path, k)) == MergePosition(path) + [k]
  {
    SplitSlashFree(k);
    if path != "" {
      SplitConcat(path, k);
    }
  }

  lemma {:induction false} JoinSplit(s: string)
    ensures Join(Split(s)) == s
  {
    if s != "" {
      JoinSplit(s[1..]);
      var rest := Split(s[1..]);
      assert s == [s[0]] + s[1..];
      if s[0] == '/' {
        assert ([""] + rest)[1..] == rest;
      } else if |rest| > 1 {
        assert ([[s[0]] + rest[0]] + rest[1..])[1..] == rest[1..];
      }
    }
  }

  lemma {:induction false} SplitJoin(segments: Segments)
    requires segments != [] && AllSlashFree(segments)
    ensures Split(Join(segments)) == segments
  {
    SplitSlashFree(segments[0]);
    if |segments| > 1 {
      SplitJoin(segments[1..]);
      SplitConcat(segments[0], Join(segments[1..]));
      assert [segments[0]] + segments[1..] == segments;
    }
  }
}
