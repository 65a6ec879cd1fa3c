/**
 * The private `get`: walks a tree one segment key at a time. At every level the
 * value under the reserved `baseKey` is that level's default subtree; when the
 * next child is an object, the defaults are deep-merged underneath it, so the
 * child's own values win and the defaults only fill what it lacks.
 */
module Resolver {
  import opened Wrappers
  import opened Trees
  import opened DeepMerge

  /** `obj[baseKey]` at one level (line 190); `None` when the level has no such key. */
  function Defaults(level: map<string, Value>, baseKey: string): (r: Option<Value>)
    ensures r.Some? <==> baseKey in level
    ensures r.Some? ==> r.value == level[baseKey]
  {
    if baseKey in level then Some(level[baseKey]) else None
  }

  /**
   * The value the walk moves to (lines 197-202): an object child becomes
   * `assignDeep({}, df, child)` when the defaults are an object too, anything else
   * is kept as it is.
   */
  function Inject(df: Option<Value>, child: Value): (r: Value)
    ensures r.Node? <==> child.Node?
  {
    if child.Node? && df.Some? && df.value.Node? then Node(Merged([Empty, df.value, child]))
    else child
  }

  /**
   * The cursor after walking `segs` from `cursor`: `None` (the source's `null`)
   * once a segment is missing at its level. The walk stops early, returning the
   * cursor as it is, when the cursor is not an object.
   */
  function Resolve(cursor: Value, segs: seq<string>, baseKey: string): (r: Option<Value>)
    ensures segs == [] ==> r == Some(cursor)
    ensures !cursor.Node? ==> r == Some(cursor)
    decreases |segs|
  {
    if segs == [] || !cursor.Node? then Some(cursor)
    else if segs[0] in cursor.children then
      Resolve(Inject(Defaults(cursor.children, baseKey), cursor.children[segs[0]]), segs[1..], baseKey)
    else None
  }

  /** The loop of the private `get` (lines 184-211), moving a cursor down the tree. */
  method Get(props: Value, segs: seq<string>, baseKey: string) returns (r: Option<Value>)
    ensures r == Resolve(props, segs, baseKey)
  {
    var obj := Some(props);
    var keys := segs;
    while obj.Some? && obj.value.Node? && |keys| > 0
      invariant obj.Some? ==> Resolve(props, segs, baseKey) == Resolve(obj.value, keys, baseKey)
      invariant obj.None? ==> Resolve(props, segs, baseKey) == None
      decreases |keys|
    {
      var level := obj.value.children;
      var df := Defaults(level, baseKey);
      var key := keys[0];
      keys := keys[1..];
      if key in level {
        var child := level[key];
        if child.Node? && df.Some? && df.value.Node? {
          var merged := AssignDeep([Empty, df.value, child]);
          obj := Some(Node(merged));
        } else {
          obj := Some(child);
        }
      } else {
        obj := None;
      }
    }
    r := obj;
  }

  /** Merging an object into `{}` copies it. */
  lemma MergeIntoEmpty(m: map<string, Value>)
    ensures MergeMaps(map[], m) == m
  {
    forall k | k in m ensures MergeMaps(map[], m)[k] == m[k] {
      assert MergeMaps(map[], m)[k] == Entry(map[], k, m[k]);
    }
  }

  /**
   * Default injection overlays the defaults underneath the child: the child's keys
   * are all kept, a scalar of the child is never replaced, a key only the defaults
   * have is filled from them. A scalar child, or defaults that are absent or not an
   * object, leave the child untouched.
   */
  lemma InjectOverlay(df: Option<Value>, child: Value)
    ensures !child.Node? || df.None? || !df.value.Node? ==> Inject(df, child) == child
    ensures child.Node? && df.Some? && df.value.Node? ==>
      Inject(df, child) == MergeValue(df.value, child) &&
      Inject(df, child).children.Keys == df.value.children.Keys + child.children.Keys &&
      (forall k :: k in child.children && !child.children[k].Node? ==>
         Inject(df, child).children[k] == child.children[k]) &&
      (forall k :: k in df.value.children && k !in child.children ==>
         Inject(df, child).children[k] == df.value.children[k])
  {
    if child.Node? && df.Some? && df.value.Node? {
      var d := df.value.children;
      MergeIntoEmpty(d);
      assert Merged([Empty, df.value, child]) == Fold(map[], [df.value, child]);
      assert Fold(map[], [df.value, child]) == Fold(MergeMaps(map[], d), [child]);
      assert Fold(d, [child]) == Fold(MergeMaps(d, child.children), []);
    }
  }

  /** Walking `p + q` is walking `p`, then walking `q` from where `p` ended. */
  lemma {:induction false} ResolveConcat(v: Value, p: seq<string>, q: seq<string>, baseKey: string)
    ensures Resolve(v, p + q, baseKey) ==
      if Resolve(v, p, baseKey).Some? then Resolve(Resolve(v, p, baseKey).value, q, baseKey) else None
    decreases |p|
  {
    if p == [] {
      assert p + q == q;
    } else if v.Node? {
      assert (p + q)[0] == p[0] && (p + q)[1..] == p[1..] + q;
      if p[0] in v.children {
        ResolveConcat(Inject(Defaults(v.children, baseKey), v.children[p[0]]), p[1..], q, baseKey);
      }
    }
  }

  /** A segment missing at the level it is looked up in makes the whole result absent. */
  lemma MissingSegment(v: Value, p: seq<string>, k: string, q: seq<string>, baseKey: string)
    requires Resolve(v, p, baseKey).Some? && Resolve(v, p, baseKey).value.Node?
    requires k !in Resolve(v, p, baseKey).value.children
    ensures Resolve(v, p + [k] + q, baseKey) == None
  {
    assert p + [k] + q == p + ([k] + q);
    ResolveConcat(v, p, [k] + q, baseKey);
    assert ([k] + q)[0] == k;
  }

  /**
   * `found` stands for `stored`: the same scalar, or an object that has at least
   * the keys of the stored object.
   */
  predicate Covers(found: Value, stored: Value)
  {
    if stored.Node? then found.Node? && stored.children.Keys <= found.children.Keys
    else found == stored
  }

  /** Merging over `b` keeps every path of `b`: scalars stay, objects keep their keys. */
  lemma {:induction false} MergeCovers(a: Value, b: Value, p: seq<string>, w: Value)
    requires Lookup(b, p).Some? && Covers(Lookup(b, p).value, w)
    ensures Lookup(MergeValue(a, b), p).Some? && Covers(Lookup(MergeValue(a, b), p).value, w)
    decreases |p|
  {
    if p != [] && a.Node? {
      var k := p[0];
      var merged := MergeMaps(a.children, b.children);
      assert merged[k] == Entry(a.children, k, b.children[k]);
      if k in a.children {
        MergeCovers(a.children[k], b.children[k], p[1..], w);
      }
    }
  }

  /**
   * Defaults never hide what the tree stores: walking a path that exists in the
   * tree finds its scalar unchanged, or an object with at least its keys.
   */
  lemma {:induction false} ResolveCovers(v: Value, p: seq<string>, baseKey: string, w: Value)
    requires Lookup(v, p).Some? && Covers(Lookup(v, p).value, w)
    ensures Resolve(v, p, baseKey).Some? && Covers(Resolve(v, p, baseKey).value, w)
    decreases |p|
  {
    if p != [] {
      var df := Defaults(v.children, baseKey);
      var child := v.children[p[0]];
      InjectOverlay(df, child);
      if child.Node? && df.Some? && df.value.Node? {
        MergeCovers(df.value, child, p[1..], w);
      }
      ResolveCovers(Inject(df, child), p[1..], baseKey, w);
    }
  }

  /** A scalar stored at `p` is exactly what walking `p` returns, whatever defaults lie on the way. */
  lemma ResolveFindsStored(v: Value, p: seq<string>, baseKey: string)
    requires Lookup(v, p).Some?
    ensures Resolve(v, p, baseKey).Some?
    ensures !Lookup(v, p).value.Node? ==> Resolve(v, p, baseKey) == Lookup(v, p)
    ensures Lookup(v, p).value.Node? ==>
      Resolve(v, p, baseKey).value.Node? &&
      Lookup(v, p).value.children.Keys <= Resolve(v, p, baseKey).value.children.Keys
  {
    ResolveCovers(v, p, baseKey, Lookup(v, p).value);
  }
}
