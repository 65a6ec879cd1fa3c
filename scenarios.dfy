/** Worked examples of the accessor on small trees, with `_` as the defaults key. */
module Scenarios {
  import opened Wrappers
  import opened Trees
  import opened DeepMerge
  import opened Keypaths
  import opened Accessor
  import Resolver

  function Num(n: int): Value { Leaf(Number(n)) }

  /** `{_: {x: 1, y: 2}, child: {y: 3}}`. */
  function Sample(): Value
  {
    Node(map["_" := Node(map["x" := Num(1), "y" := Num(2)]), "child" := Node(map["y" := Num(3)])])
  }

  /** The walk into `child` merges the root's defaults underneath it. */
  lemma ChildLevel()
    ensures Resolver.Resolve(Sample(), ["child"], "_") == Some(Node(map["x" := Num(1), "y" := Num(3)]))
  {
    var d := Node(map["x" := Num(1), "y" := Num(2)]);
    var c := Node(map["y" := Num(3)]);
    Resolver.InjectOverlay(Some(d), c);
    assert Resolver.Inject(Some(d), c).children == map["x" := Num(1), "y" := Num(3)];
  }

  /** Defaults fill what the child lacks, the child's own values win. */
  lemma GetChildInjectsDefaults()
    ensures GetAt(Sample(), "child", DefaultOptions) == Some(Node(map["x" := Num(1), "y" := Num(3)]))
  {
    SplitJoin(["child"], '.');
    ChildLevel();
  }

  /**
   * Below `child`, `has` sees exactly the keys of the injected level: `y`, which the
   * child stores itself, and `x`, which only the defaults supply.
   */
  lemma HasOnInjectedLevel(k: string)
    requires '.' !in k
    ensures HasAt(Sample(), Leaf(Text("child." + k)), DefaultOptions) == Ok(k == "x" || k == "y")
  {
    SplitJoin(["child", k], '.');
    assert Join(["child", k], '.') == "child." + k;
    ChildLevel();
  }

  /** `{_: {x: 1}, a: {b: {}}}`: defaults at the root only. */
  function Nested(): Value
  {
    Node(map["_" := Node(map["x" := Num(1)]), "a" := Node(map["b" := Empty])])
  }

  /** Root defaults reach `a` but not `a.b`, whose level declares no defaults of its own. */
  lemma DefaultsScopedToOneLevel()
    ensures GetAt(Nested(), "a", DefaultOptions) == Some(Node(map["x" := Num(1), "b" := Empty]))
    ensures GetAt(Nested(), "a.b", DefaultOptions) == Some(Empty)
  {
    var d := Node(map["x" := Num(1)]);
    var c := Node(map["b" := Empty]);
    Resolver.InjectOverlay(Some(d), c);
    var injected := Resolver.Inject(Some(d), c);
    assert injected.children["b"] == Entry(d.children, "b", Empty) == Empty;
    assert injected.children == map["x" := Num(1), "b" := Empty];
    SplitJoin(["a"], '.');
    SplitJoin(["a", "b"], '.');
    assert Join(["a", "b"], '.') == "a.b";
    assert Resolver.Resolve(Nested(), ["a", "b"], "_") == Resolver.Resolve(injected, ["b"], "_");
  }

  /** A scalar replaces an object outright; non-object arguments are skipped. */
  lemma MergeReplacesAndSkips()
    ensures Merged([Node(map["k" := Node(map["x" := Num(1)])]), Node(map["k" := Num(5)])]) == map["k" := Num(5)]
    ensures Merged([Empty, Leaf(Null), Node(map["a" := Num(1)])]) == map["a" := Num(1)]
  {
    MergedIgnoresNonObjects([Empty, Leaf(Null), Node(map["a" := Num(1)])], 1);
    assert [Empty, Leaf(Null), Node(map["a" := Num(1)])][..1] + [Empty, Leaf(Null), Node(map["a" := Num(1)])][2..]
      == [Empty, Node(map["a" := Num(1)])];
    Resolver.MergeIntoEmpty(map["a" := Num(1)]);
    assert Merged([Empty, Node(map["a" := Num(1)])]) == Fold(map[], [Node(map["a" := Num(1)])]);
    assert Fold(map[], [Node(map["a" := Num(1)])]) == Fold(MergeMaps(map[], map["a" := Num(1)]), []);
  }
}
