/** The documents Upload and Patch store, as pure functions. */
module ServiceSpec {
  import opened Documents
  import opened Merge
  import opened MergeLaws
  import opened Paths

  const TIMESTAMP := "timestamp"

  /** Upload replaces the document by the parameters and a root timestamp. */
  function UploadedDocument(params: map<string, string>, stamp: string): Fields {
    Texts(params)[TIMESTAMP := Leaf(stamp)]
  }

  /** A service-level patch and the clock text it is stamped with. */
  datatype Patch = Patch(path: string, params: map<string, string>, stamp: string)

  /** Patch merges the parameters below the path and then sets the root timestamp. */
  function PatchedDocument(t: Fields, p: Patch): Fields {
    MergeAt(t, MergePosition(p.path), Texts(p.params))[TIMESTAMP := Leaf(p.stamp)]
  }

  function PatchAll(t: Fields, ps: seq<Patch>): Fields
    decreases ps
  {
    if ps == [] then t else PatchAll(PatchedDocument(t, ps[0]), ps[1..])
  }
}
