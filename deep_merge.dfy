/**
 * `ObjBaseProp.utils.assignDeep`: a last-wins deep merge of a list of arguments
 * into the first one. Non-object arguments contribute nothing; at a key where the
 * value already held and the incoming value are both objects the two are merged
 * recursively, otherwise the incoming value replaces the held one.
 */
module DeepMerge {
  import opened Trees

  /** The value stored at a key held as `held` when `incoming` is assigned over it. */
  function MergeValue(held: Value, incoming: Value): (r: Value)
    ensures !incoming.Node? ==> r == incoming
    ensures r.Node? <==> incoming.Node?
    ensures incoming.Node? ==> incoming.children.Keys <= r.children.Keys
    ensures incoming.Node? && !held.Node? ==> r == incoming
    ensures held.Node? && incoming.Node? ==>
      r.children.Keys == held.children.Keys + incoming.children.Keys &&
      forall k :: k in held.children && k !in incoming.children ==> r.children[k] == held.children[k]
    decreases incoming, 1
  {
    if held.Node? && incoming.Node? then Node(MergeMaps(held.children, incoming.children))
    else incoming
  }

  /** The value stored at `k` when `incoming` is assigned there and `dst` may already hold one. */
  function Entry(dst: map<string, Value>, k: string, incoming: Value): (r: Value)
    ensures r.Node? <==> incoming.Node?
    ensures incoming.Node? ==> incoming.children.Keys <= r.children.Keys
    ensures incoming.Node? && !(k in dst && dst[k].Node?) ==> r == incoming
    decreases incoming, 2
  {
    if k in dst then MergeValue(dst[k], incoming) else incoming
  }

  /** Deep-merges the object `src` into the object `dst` (the recursive merge of line 140). */
  function MergeMaps(dst: map<string, Value>, src: map<string, Value>): (r: map<string, Value>)
    ensures r.Keys == dst.Keys + src.Keys
    ensures forall k :: k in dst && k !in src ==> r[k] == dst[k]
    ensures forall k :: k in src && !src[k].Node? ==> r[k] == src[k]
    ensures forall k :: k in src ==> (r[k].Node? <==> src[k].Node?)
    ensures forall k :: k in src && src[k].Node? ==> src[k].children.Keys <= r[k].children.Keys
    ensures forall k :: k in src && src[k].Node? && !(k in dst && dst[k].Node?) ==> r[k] == src[k]
    ensures forall k :: k in src && src[k].Node? && k in dst && dst[k].Node? ==>
      r[k].children.Keys == dst[k].children.Keys + src[k].children.Keys
    decreases Node(src), 0
  {
    map k | k in dst.Keys + src.Keys :: if k in src then Entry(dst, k, src[k]) else dst[k]
  }

  /** One later argument of `assignDeep`: an object is merged in, anything else skipped. */
  function Absorb(acc: map<string, Value>, src: Value): map<string, Value>
  {
    if src.Node? then MergeMaps(acc, src.children) else acc
  }

  /** Absorbs the later arguments `srcs` in order, left to right. */
  function Fold(acc: map<string, Value>, srcs: seq<Value>): (r: map<string, Value>)
    ensures acc.Keys <= r.Keys
    ensures forall j :: 0 <= j < |srcs| && srcs[j].Node? ==> srcs[j].children.Keys <= r.Keys
    decreases |srcs|
  {
    if srcs == [] then acc
    else
      assert forall j :: 1 <= j < |srcs| ==> srcs[1..][j - 1] == srcs[j];
      Fold(Absorb(acc, srcs[0]), srcs[1..])
  }

  /** The object `assignDeep` starts from: its first argument if that is an object, `{}` otherwise. */
  function Start(first: Value): map<string, Value>
  {
    if first.Node? then first.children else map[]
  }

  /** What `assignDeep(args...)` returns, as the key-value mapping of the resulting object. */
  function Merged(args: seq<Value>): (r: map<string, Value>)
    ensures |args| > 0 && args[0].Node? ==> args[0].children.Keys <= r.Keys
    ensures forall j :: 1 <= j < |args| && args[j].Node? ==> args[j].children.Keys <= r.Keys
  {
    assert forall j :: 1 <= j < |args| ==> args[1..][j - 1] == args[j];
    if args == [] then map[] else Fold(Start(args[0]), args[1..])
  }

  /**
   * The key loop of `assignDeep` for one object argument: every own key of `src`
   * is written into the result, recursing where both sides hold an object.
   */
  method MergeInto(dst: map<string, Value>, src: map<string, Value>) returns (res: map<string, Value>)
    ensures res == MergeMaps(dst, src)
    decreases Node(src)
  {
    res := dst;
    var keys := src.Keys;
    while keys != {}
      invariant keys <= src.Keys
      invariant res.Keys == dst.Keys + (src.Keys - keys)
      invariant forall k :: k in res && k !in src ==> res[k] == dst[k]
      invariant forall k :: k in res && k in keys ==> res[k] == dst[k]
      invariant forall k :: k in src && k !in keys ==> res[k] == Entry(dst, k, src[k])
      decreases keys
    {
      var key :| key in keys;
      var val := src[key];
      if val.Node? && key in res && res[key].Node? {
        var merged := MergeInto(res[key].children, val.children);
        res := res[key := Node(merged)];
      } else {
        res := res[key := val];
      }
      keys := keys - {key};
    }
  }

  /** `assignDeep(args...)`: drains the arguments one by one into the first. */
  method AssignDeep(args: seq<Value>) returns (res: map<string, Value>)
    ensures res == Merged(args)
  {
    var objs := args;
    res := map[];
    if |objs| > 0 {
      var first := objs[0];
      objs := objs[1..];
      if first.Node? {
        res := first.children;
      }
    }
    while |objs| > 0
      invariant args == [] ==> res == map[] && objs == []
      invariant args != [] ==> Fold(res, objs) == Merged(args)
    {
      var obj := objs[0];
      objs := objs[1..];
      if obj.Node? {
        res := MergeInto(res, obj.children);
      }
    }
  }

  /** Absorbing `s1 + s2` is absorbing `s1`, then `s2`. */
  lemma {:induction false} FoldConcat(acc: map<string, Value>, s1: seq<Value>, s2: seq<Value>)
    ensures Fold(acc, s1 + s2) == Fold(Fold(acc, s1), s2)
    decreases |s1|
  {
    if s1 == [] {
      assert s1 + s2 == s2;
    } else {
      assert (s1 + s2)[0] == s1[0] && (s1 + s2)[1..] == s1[1..] + s2;
      FoldConcat(Absorb(acc, s1[0]), s1[1..], s2);
    }
  }

  /**
   * A non-object first argument is replaced by `{}`, and a non-object later
   * argument contributes nothing: dropping it leaves the result unchanged.
   */
  lemma MergedIgnoresNonObjects(args: seq<Value>, i: nat)
    requires i < |args| && !args[i].Node?
    ensures i == 0 ==> Merged(args) == Merged([Empty] + args[1..])
    ensures i > 0 ==> Merged(args) == Merged(args[..i] + args[i + 1..])
  {
    if i == 0 {
      assert ([Empty] + args[1..])[1..] == args[1..];
    } else {
      var s1, s2 := args[1..i], args[i + 1..];
      assert args[1..] == s1 + ([args[i]] + s2);
      FoldConcat(Start(args[0]), s1, [args[i]] + s2);
      FoldConcat(Start(args[0]), s1, s2);
      var dropped := args[..i] + args[i + 1..];
      assert dropped[0] == args[0] && dropped[1..] == s1 + s2;
    }
  }

  /** Absorbing sources that do not mention `k` leaves `k` as it was. */
  lemma {:induction false} FoldUntouched(acc: map<string, Value>, srcs: seq<Value>, k: string)
    requires forall j :: 0 <= j < |srcs| && srcs[j].Node? ==> k !in srcs[j].children
    ensures k in Fold(acc, srcs) <==> k in acc
    ensures k in acc ==> Fold(acc, srcs)[k] == acc[k]
    decreases |srcs|
  {
    if srcs != [] {
      var rest := srcs[1..];
      forall j | 0 <= j < |rest| && rest[j].Node? ensures k !in rest[j].children {
        assert rest[j] == srcs[j + 1];
      }
      FoldUntouched(Absorb(acc, srcs[0]), rest, k);
    }
  }

  /** A key that no later argument mentions keeps the first argument's value (or stays absent). */
  lemma MergedUntouched(args: seq<Value>, k: string)
    requires forall j :: 1 <= j < |args| && args[j].Node? ==> k !in args[j].children
    ensures k in Merged(args) <==> |args| > 0 && args[0].Node? && k in args[0].children
    ensures k in Merged(args) ==> Merged(args)[k] == args[0].children[k]
  {
    if args != [] {
      var rest := args[1..];
      forall j | 0 <= j < |rest| && rest[j].Node? ensures k !in rest[j].children {
        assert rest[j] == args[j + 1];
      }
      FoldUntouched(Start(args[0]), rest, k);
    }
  }

  /** The last source mentioning `k` decides it: its scalar wins outright, its object stays an object that keeps all its keys. */
  lemma FoldLastWins(acc: map<string, Value>, srcs: seq<Value>, i: nat, k: string)
    requires i < |srcs| && srcs[i].Node? && k in srcs[i].children
    requires forall j :: i < j < |srcs| && srcs[j].Node? ==> k !in srcs[j].children
    ensures k in Fold(acc, srcs)
    ensures Fold(acc, srcs)[k].Node? <==> srcs[i].children[k].Node?
    ensures !srcs[i].children[k].Node? ==> Fold(acc, srcs)[k] == srcs[i].children[k]
    ensures srcs[i].children[k].Node? ==> srcs[i].children[k].children.Keys <= Fold(acc, srcs)[k].children.Keys
  {
    var before, rest := srcs[..i], srcs[i + 1..];
    assert srcs == before + ([srcs[i]] + rest);
    FoldConcat(acc, before, [srcs[i]] + rest);
    var mid := Fold(acc, before);
    assert Fold(mid, [srcs[i]] + rest) == Fold(Absorb(mid, srcs[i]), rest) by {
      assert ([srcs[i]] + rest)[1..] == rest;
    }
    forall j | 0 <= j < |rest| && rest[j].Node? ensures k !in rest[j].children {
      assert rest[j] == srcs[i + 1 + j];
    }
    FoldUntouched(Absorb(mid, srcs[i]), rest, k);
  }

  /** Later arguments win: the result at `k` is decided by the last argument that mentions `k`. */
  lemma MergedLastWins(args: seq<Value>, i: nat, k: string)
    requires 1 <= i < |args| && args[i].Node? && k in args[i].children
    requires forall j :: i < j < |args| && args[j].Node? ==> k !in args[j].children
    ensures k in Merged(args)
    ensures Merged(args)[k].Node? <==> args[i].children[k].Node?
    ensures !args[i].children[k].Node? ==> Merged(args)[k] == args[i].children[k]
    ensures args[i].children[k].Node? ==> args[i].children[k].children.Keys <= Merged(args)[k].children.Keys
  {
    var rest := args[1..];
    assert rest[i - 1] == args[i];
    forall j | i - 1 < j < |rest| && rest[j].Node? ensures k !in rest[j].children {
      assert rest[j] == args[j + 1];
    }
    FoldLastWins(Start(args[0]), rest, i - 1, k);
  }

  /** Merging an object into itself gives it back. */
  lemma {:induction false} MergeSelf(m: map<string, Value>)
    ensures MergeMaps(m, m) == m
    decreases Node(m)
  {
    forall k | k in m ensures MergeMaps(m, m)[k] == m[k] {
      assert MergeMaps(m, m)[k] == MergeValue(m[k], m[k]);
      if m[k].Node? {
        MergeSelf(m[k].children);
      }
    }
  }

  /** Merging the same source a second time changes nothing. */
  lemma {:induction false} MergeIdempotent(a: map<string, Value>, b: map<string, Value>)
    ensures MergeMaps(MergeMaps(a, b), b) == MergeMaps(a, b)
    decreases Node(b)
  {
    var ab := MergeMaps(a, b);
    forall k | k in b ensures MergeMaps(ab, b)[k] == ab[k] {
      assert MergeMaps(ab, b)[k] == MergeValue(ab[k], b[k]);
      assert ab[k] == Entry(a, k, b[k]);
      if b[k].Node? {
        if k in a && a[k].Node? {
          assert Entry(a, k, b[k]) == MergeValue(a[k], b[k]);
          assert ab[k] == Node(MergeMaps(a[k].children, b[k].children));
          MergeIdempotent(a[k].children, b[k].children);
        } else {
          assert ab[k] == b[k];
          MergeSelf(b[k].children);
        }
      }
    }
  }

  /** `assignDeep(a, b, b)` equals `assignDeep(a, b)`. */
  lemma MergedRepeatIdempotent(a: Value, b: Value)
    ensures Merged([a, b, b]) == Merged([a, b])
  {
    if b.Node? {
      MergeIdempotent(Start(a), b.children);
      assert Merged([a, b, b]) == Fold(Start(a), [b, b]);
      assert Fold(Start(a), [b, b]) == Fold(Absorb(Start(a), b), [b]);
    }
  }

  /** Every key of the result comes from the starting object or from an object argument. */
  lemma {:induction false} FoldKeysFromArgs(acc: map<string, Value>, srcs: seq<Value>, k: string)
    requires k in Fold(acc, srcs)
    ensures k in acc || exists j :: 0 <= j < |srcs| && srcs[j].Node? && k in srcs[j].children
    decreases |srcs|
  {
    if srcs != [] && k !in acc {
      var acc' := Absorb(acc, srcs[0]);
      if k in acc' {
        assert srcs[0].Node? && k in srcs[0].children;
      } else {
        FoldKeysFromArgs(acc', srcs[1..], k);
        var j :| 0 <= j < |srcs| - 1 && srcs[1..][j].Node? && k in srcs[1..][j].children;
        assert srcs[j + 1] == srcs[1..][j];
      }
    }
  }

  /** `assignDeep` adds no key of its own: each key of the result is a key of some object argument. */
  lemma MergedKeysFromArgs(args: seq<Value>, k: string)
    requires k in Merged(args)
    ensures (args[0].Node? && k in args[0].children) ||
      exists j :: 1 <= j < |args| && args[j].Node? && k in args[j].children
  {
    FoldKeysFromArgs(Start(args[0]), args[1..], k);
    if k !in Start(args[0]) {
      var j :| 0 <= j < |args| - 1 && args[1..][j].Node? && k in args[1..][j].children;
      assert args[j + 1] == args[1..][j];
    }
  }
}
