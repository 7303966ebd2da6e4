/** The stored documents: finite trees of nested string-keyed maps with string leaves. */
module Documents {

  datatype Option<+T> = None | Some(value: T)

  /** A JSON value as the service stores it. */
  datatype Value = Leaf(text: string) | Node(fields: Fields)

  type Fields = map<string, Value>

  /** A position in a document, one key per level. */
  type Segments = seq<string>

  /** What can be found at a position. */
  datatype Kind = Absent | Text(text: string) | Branch

  function Get(v: Value, path: Segments): Option<Value> {
    if path == [] then Some(v)
    else if v.Node? && path[0] in v.fields then Get(v.fields[path[0]], path[1..])
    else None
  }

  function KindOf(r: Option<Value>): Kind {
    match r
    case None => Absent
    case Some(Leaf(s)) => Text(s)
    case Some(Node(_)) => Branch
  }

  function KindAt(v: Value, path: Segments): Kind {
    KindOf(Get(v, path))
  }

  ghost predicate SameKinds(a: Value, b: Value) {
    forall q :: KindAt(a, q) == KindAt(b, q)
  }

  /** A document is determined by what is found at each position. */
  lemma {:induction false} Extensionality(a: Value, b: Value)
    requires SameKinds(a, b)
    ensures a == b
    decreases a
  {
    assert KindAt(a, []) == KindAt(b, []);
    if a.Node? {
      forall k
        ensures k in a.fields <==> k in b.fields
        ensures k in a.fields ==> a.fields[k] == b.fields[k]
      {
        GetUnder(a, k, []);
        GetUnder(b, k, []);
        assert KindAt(a, [k] + []) == KindAt(b, [k] + []);
        if k in a.fields {
          forall q ensures KindAt(a.fields[k], q) == KindAt(b.fields[k], q) {
            GetUnder(a, k, q);
            GetUnder(b, k, q);
            assert KindAt(a, [k] + q) == KindAt(b, [k] + q);
          }
          Extensionality(a.fields[k], b.fields[k]);
        }
      }
    }
  }

  lemma GetUnder(v: Value, k: string, q: Segments)
    ensures Get(v, [k] + q) == (if v.Node? && k in v.fields then Get(v.fields[k], q) else None)
  {
    assert ([k] + q)[1..] == q;
  }

  lemma {:induction false} GetConcat(v: Value, p: Segments, q: Segments)
    ensures Get(v, p + q) == (if Get(v, p).Some? then Get(Get(v, p).value, q) else None)
  {
    if p == [] {
      assert p + q == q;
    } else {
      assert (p + q)[1..] == p[1..] + q;
      if v.Node? && p[0] in v.fields {
        GetConcat(v.fields[p[0]], p[1..], q);
      }
    }
  }

  /** The flat view of a document: every leaf position with its text. */
  ghost function Flat(v: Value): imap<Segments, string> {
    imap q | KindAt(v, q).Text? :: KindAt(v, q).text
  }
}
