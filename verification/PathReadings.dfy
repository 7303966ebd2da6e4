/** Where a merge, a lookup and the documentation read the same path differently. */
module PathReadings {
  import opened Documents
  import opened Merge
  import opened MergeLaws
  import opened Paths
  import opened ServiceLaws
  import opened ServiceSpec
  import opened Traverse

  predicate EndsWithSlash(s: string) {
    s != "" && s[|s|-1] == '/'
  }

  /** The path without the slashes at its end. */
  function Trimmed(path: string): string {
    if EndsWithSlash(path) then Trimmed(path[..|path|-1]) else path
  }

  /** The code does not trim: a path that ends in a slash denotes a position below an empty key. */
  lemma {:induction false} TrailingSlashPosition(path: string)
    requires EndsWithSlash(path)
    ensures Split(Trimmed(path)) + [""] <= MergePosition(path)
  {
    var shorter := path[..|path|-1];
    assert path == shorter + "/" + "";
    SplitConcat(shorter, "");
    if EndsWithSlash(shorter) {
      TrailingSlashPosition(shorter);
    }
  }

  /** What a merge leaves directly under the trimmed path, whatever was there: the new entry if
      the path has no slash at its end, and otherwise nothing new, but a map at the empty key. */
  lemma EntryUnderTrimmed(t: Fields, path: string, params: map<string, string>, k: string)
    requires k in params
    ensures var at := MergePosition(Trimmed(path)) + [k];
      KindAt(Node(MergeAt(t, MergePosition(path), Texts(params))), at) ==
      if !EndsWithSlash(path) then Text(params[k]) else if k == "" then Branch else KindAt(Node(t), at)
  {
    var p, q := MergePosition(path), MergePosition(Trimmed(path)) + [k];
    KindAfterMerge(t, p, Texts(params), q);
    if EndsWithSlash(path) {
      TrailingSlashPosition(path);
      var trimmed := Split(Trimmed(path));
      assert p[0] == (trimmed + [""])[0];
      if Trimmed(path) != "" {
        assert p[..|trimmed|+1] == trimmed + [""];
        assert q <= p <==> p[..|q|] == q;
        assert (trimmed + [""])[|trimmed|] == "" && q[|trimmed|] == k;
      }
      assert q <= p <==> k == "";
    } else {
      TextsKind(params, q[|p|..]);
    }
  }

  /** The entries of a merge land directly under the trimmed path, whatever was there, exactly when
      the path does not end in a slash. */
  lemma TrailingSlashIff(path: string, params: map<string, string>, k: string)
    requires k in params
    ensures !EndsWithSlash(path) <==>
            forall t: Fields ::
              KindAt(Node(MergeAt(t, MergePosition(path), Texts(params))), MergePosition(Trimmed(path)) + [k])
              == Text(params[k])
  {
    forall t: Fields
      ensures !EndsWithSlash(path) ==>
        KindAt(Node(MergeAt(t, MergePosition(path), Texts(params))), MergePosition(Trimmed(path)) + [k])
        == Text(params[k])
    {
      EntryUnderTrimmed(t, path, params, k);
    }
    EntryUnderTrimmed(map[], path, params, k);
  }

  lemma SlashPaths(x: string, k: string)
    requires SlashFree(x) && SlashFree(k)
    ensures MergePosition(x + "/") == [x, ""]
    ensures Split(x + "/" + k) == [x, k] && Split(x + "/" + "/" + k) == [x, "", k]
  {
    SplitSlashFree(x);
    SplitSlashFree(k);
    SplitConcat(x, "");
    assert x + "/" + "" == x + "/";
    SplitConcat(x, k);
    SplitConcat(x + "/", k);
  }

  /** Parameters patched at a room followed by a slash are below the empty key in the room; the
      document says nothing directly below the room, where a reader is told to look. */
  lemma BelowEmptyKey(room: string, params: map<string, string>, stamp: string, k: string)
    requires SlashFree(room) && room != TIMESTAMP && k in params && SlashFree(k) && k != ""
    ensures var doc := PatchedDocument(map[], Patch(room + "/", params, stamp));
      && KindAt(Node(doc), [room, k]) == Absent && KindAt(Node(doc), [room, "", k]) == Text(params[k])
      && LookupOf(doc, room + "/" + k) == NotFound
      && LookupOf(doc, room + "/" + "/" + k) == Found(Leaf(params[k]))
  {
    var p := Patch(room + "/", params, stamp);
    SlashPaths(room, k);
    PatchedKind(map[], p, [room, k]);
    PatchedKind(map[], p, [room]);
    PatchedKind(map[], p, [room, "", k]);
    TextsKind(params, [room, "", k][2..]);
    assert [room, k][..1] == [room];
    assert !TextAbove(Node(PatchedDocument(map[], p)), [room, k]);
  }

  const ROOM := "living_room"

  /** The documented example. */
  lemma LivingRoom(stamp: string)
    ensures var doc := PatchedDocument(map[], Patch(ROOM + "/", map["temp" := "22"], stamp));
      && KindAt(Node(doc), [ROOM, "temp"]) == Absent && KindAt(Node(doc), [ROOM, "", "temp"]) == Text("22")
      && LookupOf(doc, ROOM + "/" + "temp") == NotFound
  {
    BelowEmptyKey(ROOM, map["temp" := "22"], stamp, "temp");
  }

  /** A merge and a lookup read a path alike exactly when it is not empty: only then is the map
      that was merged into found at the path. */
  lemma EmptyPathIff(path: string)
    ensures MergePosition(path) == Split(path) <==> path != ""
    ensures path != "" <==>
            forall t: Fields, n: Fields :: LookupOf(MergeAt(t, MergePosition(path), n), path).Found?
  {
    if path != "" {
      forall t: Fields, n: Fields ensures LookupOf(MergeAt(t, MergePosition(path), n), path).Found? {
        GetOnRoute(t, path, n, path);
      }
    } else {
      var empty: Fields := map[];
      assert MergeAt(empty, [], empty) == empty;
      assert !LookupOf(MergeAt(empty, MergePosition(path), empty), path).Found?;
    }
  }
}
