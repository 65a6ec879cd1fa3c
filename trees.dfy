/** Property trees: a node is a scalar or a mapping from string keys to nodes. */
module Trees {
  import opened Wrappers

  /** The non-object values a property can hold (floating-point numbers are modelled as integers). */
  datatype Scalar = Null | Undefined | Bool(b: bool) | Number(n: int) | Text(s: string)

  /** A tree node: `Node` is an object (a plain mapping of own keys), `Leaf` anything else. */
  datatype Value = Leaf(scalar: Scalar) | Node(children: map<string, Value>)

  /** The empty object `{}`. */
  const Empty: Value := Node(map[])

  /**
   * Plain lookup along a path of keys, with no default injection: the value stored
   * at `path`, or `None` when a key is missing or a scalar is met before the end.
   */
  function Lookup(v: Value, path: seq<string>): (r: Option<Value>)
    ensures path == [] ==> r == Some(v)
    ensures r.Some? && path != [] ==> v.Node? && path[0] in v.children
  {
    if path == [] then Some(v)
    else if v.Node? && path[0] in v.children then Lookup(v.children[path[0]], path[1..])
    else None
  }

  /** Looking up `p + q` is looking up `q` below what `p` leads to. */
  lemma {:induction false} LookupConcat(v: Value, p: seq<string>, q: seq<string>)
    ensures Lookup(v, p + q) == if Lookup(v, p).Some? then Lookup(Lookup(v, p).value, q) else None
    decreases |p|
  {
    if p == [] {
      assert p + q == q;
    } else {
      assert (p + q)[0] == p[0] && (p + q)[1..] == p[1..] + q;
      if v.Node? && p[0] in v.children {
        LookupConcat(v.children[p[0]], p[1..], q);
      }
    }
  }
}
