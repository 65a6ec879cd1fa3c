/**
 * The accessor API: `has`, `get` and `set` on a property tree addressed by a
 * delimited keypath, as free functions over an explicit tree and as methods of an
 * `ObjBaseProp` object that holds the tree and its options.
 */
module Accessor {
  import opened Wrappers
  import opened Trees
  import opened DeepMerge
  import opened Keypaths
  import Resolver

  /** The options in force: the keypath delimiter and the reserved key of a level's defaults. */
  datatype Options = Options(splitChar: char, baseKey: string)

  /** Options as a caller passes them: each field may be left out. */
  datatype GivenOptions = GivenOptions(splitChar: Option<char>, baseKey: Option<string>)

  /** The process-wide defaults, chosen for this model: `.` splits keypaths, `_` holds defaults. */
  const DefaultOptions := Options('.', "_")

  const HasError := "ObjBaseProp.has(): Given `keypath` argument must be a string"
  const SetError := "ObjBaseProp.set(): Given `keypath` argument must be a string"

  /** `Object.assign({}, defaults, options || {})`: every given field overrides its default. */
  function WithDefaults(given: Option<GivenOptions>): (o: Options)
    ensures given.Some? && given.value.splitChar.Some? ==> o.splitChar == given.value.splitChar.value
    ensures (given.None? || given.value.splitChar.None?) ==> o.splitChar == DefaultOptions.splitChar
    ensures given.Some? && given.value.baseKey.Some? ==> o.baseKey == given.value.baseKey.value
    ensures (given.None? || given.value.baseKey.None?) ==> o.baseKey == DefaultOptions.baseKey
  {
    match given
    case None => DefaultOptions
    case Some(g) =>
      Options(
        if g.splitChar.Some? then g.splitChar.value else DefaultOptions.splitChar,
        if g.baseKey.Some? then g.baseKey.value else DefaultOptions.baseKey)
  }

  /** Options written out in full. */
  function Given(o: Options): GivenOptions
  {
    GivenOptions(Some(o.splitChar), Some(o.baseKey))
  }

  /** Merging defaults in again, as the private `has` does, changes nothing once every field is set. */
  lemma WithDefaultsIdempotent(o: Options)
    ensures WithDefaults(Some(Given(o))) == o
  {
  }

  /** A keypath argument is valid when it is a string. */
  predicate IsKeypath(keypath: Value)
  {
    keypath.Leaf? && keypath.scalar.Text?
  }

  /** All segments but the last: the path to the level holding the target key. */
  function ForeLast(keys: seq<string>): seq<string>
    requires |keys| >= 1
  {
    keys[..|keys| - 1]
  }

  /** The last segment: the target key. */
  function Last(keys: seq<string>): string
    requires |keys| >= 1
  {
    keys[|keys| - 1]
  }

  /**
   * The private `has` (lines 159-177): the keypath's fore-last segments lead to an
   * object that contains its last segment. Throws when the keypath is not a string.
   */
  function HasAt(props: Value, keypath: Value, options: Options): (r: Result<bool>)
    ensures r.Failure? <==> !IsKeypath(keypath)
    ensures r.Failure? ==> r.message == HasError
  {
    if !IsKeypath(keypath) then Failure(HasError)
    else
      var keys := Split(keypath.scalar.s, options.splitChar);
      var obj := Resolver.Resolve(props, ForeLast(keys), options.baseKey);
      Ok(obj.Some? && obj.value.Node? && Last(keys) in obj.value.children)
  }

  /** The private `get` on a keypath string: split it, then walk the segments. */
  function GetAt(props: Value, keypath: string, options: Options): (r: Option<Value>)
    ensures !props.Node? ==> r == Some(props)
    ensures var stored := Lookup(props, Split(keypath, options.splitChar));
      stored.Some? ==>
        (r.Some? &&
         (!stored.value.Node? ==> r == stored) &&
         (stored.value.Node? ==> r.value.Node? && stored.value.children.Keys <= r.value.children.Keys))
  {
    var keys := Split(keypath, options.splitChar);
    if Lookup(props, keys).Some? then
      Resolver.ResolveFindsStored(props, keys, options.baseKey);
      Resolver.Resolve(props, keys, options.baseKey)
    else
      Resolver.Resolve(props, keys, options.baseKey)
  }

  /** The single-branch tree `{k1: {k2: {... {lastKey: value}}}}` that `set` builds. */
  function Branch(keys: seq<string>, lastKey: string, value: Value): (r: Value)
    ensures r.Node?
    ensures Lookup(r, keys + [lastKey]) == Some(value)
    decreases |keys|
  {
    if keys == [] then Node(map[lastKey := value])
    else
      var r := Node(map[keys[0] := Branch(keys[1..], lastKey, value)]);
      assert (keys + [lastKey])[0] == keys[0] && (keys + [lastKey])[1..] == keys[1..] + [lastKey];
      r
  }

  /** Lines 230-241: the branch for `keys`, assembled from the target key outwards. */
  method BuildBranch(keys: seq<string>, lastKey: string, value: Value) returns (branch: Value)
    ensures branch == Branch(keys, lastKey, value)
  {
    branch := Node(map[lastKey := value]);
    var i := |keys|;
    while i > 0
      invariant 0 <= i <= |keys|
      invariant branch == Branch(keys[i..], lastKey, value)
    {
      i := i - 1;
      assert keys[i..][1..] == keys[i + 1..];
      branch := Node(map[keys[i] := branch]);
    }
  }

  /** What `set` returns together with the tree it leaves behind. */
  datatype Written = Written(value: Value, props: Value)

  /** The tree `set` leaves: the branch deep-merged into an object, a non-object left as it was. */
  function Updated(props: Value, branch: Value): (r: Value)
    ensures !props.Node? ==> r == props
    ensures props.Node? ==> r.Node?
    ensures props.Node? && branch.Node? ==> r.children.Keys == props.children.Keys + branch.children.Keys
    ensures props.Node? && branch.Node? ==>
      forall k :: k in props.children && k !in branch.children ==> r.children[k] == props.children[k]
  {
    if props.Node? then
      assert Merged([props, branch]) == Fold(props.children, [branch]);
      Node(Merged([props, branch]))
    else props
  }

  /**
   * The private `set` (lines 217-250): builds the branch for the keypath and
   * deep-merges it into `props`; returns the written value. Throws when the keypath
   * is not a string.
   */
  function SetAt(props: Value, keypath: Value, value: Value, options: Options): (r: Result<Written>)
    ensures r.Failure? <==> !IsKeypath(keypath)
    ensures r.Failure? ==> r.message == SetError
    ensures r.Ok? ==> r.value.value == value
    ensures r.Ok? && !props.Node? ==> r.value.props == props
    ensures r.Ok? ==> (r.value.props.Node? <==> props.Node?)
  {
    if !IsKeypath(keypath) then Failure(SetError)
    else
      var keys := Split(keypath.scalar.s, options.splitChar);
      Ok(Written(value, Updated(props, Branch(ForeLast(keys), Last(keys), value))))
  }

  /** `ObjBaseProp.has(props, keypath, options)`. */
  function Has(props: Value, keypath: Value, given: Option<GivenOptions>): (r: Result<bool>)
    ensures r.Failure? <==> !IsKeypath(keypath)
    ensures r.Failure? ==> r.message == HasError
  {
    HasAt(props, keypath, WithDefaults(given))
  }

  /**
   * `ObjBaseProp.get(props, keypath, options)`: a scalar stored at the keypath's
   * segments (split on the caller's or the default delimiter) is returned as it is,
   * a stored object with at least its keys.
   */
  function Get(props: Value, keypath: string, given: Option<GivenOptions>): (r: Option<Value>)
    ensures !props.Node? ==> r == Some(props)
    ensures var stored := Lookup(props, Split(keypath, WithDefaults(given).splitChar));
      stored.Some? ==>
        (r.Some? &&
         (!stored.value.Node? ==> r == stored) &&
         (stored.value.Node? ==> r.value.Node? && stored.value.children.Keys <= r.value.children.Keys))
  {
    GetAt(props, keypath, WithDefaults(given))
  }

  /** `ObjBaseProp.set(props, keypath, value, options)`. */
  function Set(props: Value, keypath: Value, value: Value, given: Option<GivenOptions>): (r: Result<Written>)
    ensures r.Failure? <==> !IsKeypath(keypath)
    ensures r.Failure? ==> r.message == SetError
    ensures r.Ok? ==> r.value.value == value
    ensures r.Ok? && !props.Node? ==> r.value.props == props
    ensures r.Ok? && props.Node? && IsKeypath(keypath) && !value.Node? ==>
      GetAt(r.value.props, keypath.scalar.s, WithDefaults(given)) == Some(value)
  {
    if IsKeypath(keypath) && props.Node? then
      SetThenGet(props, keypath.scalar.s, value, WithDefaults(given));
      SetAt(props, keypath, value, WithDefaults(given))
    else
      SetAt(props, keypath, value, WithDefaults(given))
  }

  /** An accessor object: holds a tree and its options and forwards to the private functions. */
  class ObjBaseProp {
    var props: Value
    var options: Options

    constructor (props: Value, given: Option<GivenOptions>)
      ensures this.props == props
      ensures options == WithDefaults(given)
    {
      this.props := props;
      options := WithDefaults(given);
    }

    method Has(keypath: Value) returns (r: Result<bool>)
      ensures r == HasAt(props, keypath, options)
    {
      if !IsKeypath(keypath) {
        return Failure(HasError);
      }
      var keys := Split(keypath.scalar.s, options.splitChar);
      var key := keys[|keys| - 1];
      var obj := Resolver.Get(props, keys[..|keys| - 1], options.baseKey);
      r := Ok(obj.Some? && obj.value.Node? && key in obj.value.children);
    }

    method Get(keypath: string) returns (r: Option<Value>)
      ensures r == GetAt(props, keypath, options)
    {
      r := Resolver.Get(props, Split(keypath, options.splitChar), options.baseKey);
    }

    method Set(keypath: Value, value: Value) returns (r: Result<Value>)
      modifies this
      ensures options == old(options)
      ensures r.Failure? <==> !IsKeypath(keypath)
      ensures r.Failure? ==> r.message == SetError && props == old(props)
      ensures r.Ok? ==> r.value == value && Written(value, props) == SetAt(old(props), keypath, value, options).value
    {
      if !IsKeypath(keypath) {
        return Failure(SetError);
      }
      var keys := Split(keypath.scalar.s, options.splitChar);
      var lastKey := keys[|keys| - 1];
      var branch := BuildBranch(keys[..|keys| - 1], lastKey, value);
      if props.Node? {
        var merged := AssignDeep([props, branch]);
        props := Node(merged);
      }
      r := Ok(value);
    }
  }

  /**
   * The two call shapes agree: an `ObjBaseProp` constructed on a tree and options
   * answers `has`, `get` and `set` as the static API does on the same arguments.
   */
  method CallShapesAgree(props: Value, given: Option<GivenOptions>, keypath: Value, path: string, value: Value)
    returns (hasResult: Result<bool>, getResult: Option<Value>, setResult: Result<Value>, after: Value)
    ensures hasResult == Has(props, keypath, given)
    ensures getResult == Get(props, path, given)
    ensures setResult.Ok? <==> Set(props, keypath, value, given).Ok?
    ensures setResult.Ok? ==> setResult.value == value && after == Set(props, keypath, value, given).value.props
    ensures setResult.Failure? ==> setResult.message == Set(props, keypath, value, given).message && after == props
  {
    var o := new ObjBaseProp(props, given);
    hasResult := o.Has(keypath);
    getResult := o.Get(path);
    setResult := o.Set(keypath, value);
    after := o.props;
  }

  /** On an object, the tree `set` leaves is the branch merged over it. */
  lemma UpdatedIsMerge(props: Value, branch: Value)
    requires props.Node? && branch.Node?
    ensures Updated(props, branch) == MergeValue(props, branch)
  {
    assert Merged([props, branch]) == Fold(props.children, [branch]);
    assert Fold(props.children, [branch]) == Fold(Absorb(props.children, branch), []);
  }

  /** The branch holds one key per level: level `i` of the path has exactly the key `path[i]`. */
  lemma {:induction false} BranchShape(keys: seq<string>, lastKey: string, value: Value, i: nat)
    requires i <= |keys|
    ensures Lookup(Branch(keys, lastKey, value), (keys + [lastKey])[..i]).Some?
    ensures Lookup(Branch(keys, lastKey, value), (keys + [lastKey])[..i]).value.Node?
    ensures Lookup(Branch(keys, lastKey, value), (keys + [lastKey])[..i]).value.children.Keys == {(keys + [lastKey])[i]}
    decreases i
  {
    var path := keys + [lastKey];
    if i > 0 {
      BranchShape(keys[1..], lastKey, value, i - 1);
      assert path[..i][0] == keys[0];
      assert path[..i][1..] == (keys[1..] + [lastKey])[..i - 1];
      assert path[i] == (keys[1..] + [lastKey])[i - 1];
    } else {
      assert path[..i] == [];
    }
  }

  /** Merging a tree whose path `p[..i]` is an object lacking `p[i]` leaves the value at `p` alone. */
  lemma {:induction false} MergeKeepsDivergent(a: Value, b: Value, p: seq<string>, i: nat)
    requires i < |p| && Lookup(a, p).Some?
    requires Lookup(b, p[..i]).Some? && Lookup(b, p[..i]).value.Node?
    requires p[i] !in Lookup(b, p[..i]).value.children
    ensures Lookup(MergeValue(a, b), p) == Lookup(a, p)
    decreases i
  {
    var k := p[0];
    if i == 0 {
      assert p[..i] == [];
    } else {
      assert p[..i][0] == k && p[..i][1..] == p[1..][..i - 1];
      var merged := MergeMaps(a.children, b.children);
      assert merged[k] == Entry(a.children, k, b.children[k]);
      MergeKeepsDivergent(a.children[k], b.children[k], p[1..], i - 1);
    }
  }

  /**
   * `set` then `get` of the same keypath on an object: a non-object value comes back
   * as written; an object value comes back as an object holding at least its keys
   * (it was deep-merged over what was there, and defaults may be injected into it).
   */
  lemma SetThenGet(props: Value, keypath: string, value: Value, options: Options)
    requires props.Node?
    ensures SetAt(props, Leaf(Text(keypath)), value, options).Ok?
    ensures !value.Node? ==>
      GetAt(SetAt(props, Leaf(Text(keypath)), value, options).value.props, keypath, options) == Some(value)
    ensures value.Node? ==>
      var got := GetAt(SetAt(props, Leaf(Text(keypath)), value, options).value.props, keypath, options);
      got.Some? && got.value.Node? && value.children.Keys <= got.value.children.Keys
  {
    var keys := Split(keypath, options.splitChar);
    var branch := Branch(ForeLast(keys), Last(keys), value);
    var updated := Updated(props, branch);
    assert SetAt(props, Leaf(Text(keypath)), value, options) == Ok(Written(value, updated));
    assert ForeLast(keys) + [Last(keys)] == keys;
    UpdatedIsMerge(props, branch);
    Resolver.MergeCovers(props, branch, keys, value);
    Resolver.ResolveCovers(updated, keys, options.baseKey, value);
    assert GetAt(updated, keypath, options) == Resolver.Resolve(updated, keys, options.baseKey);
  }

  /** After `set` on an object, `has` of the same keypath is true, whatever value was written. */
  lemma SetThenHas(props: Value, keypath: string, value: Value, options: Options)
    requires props.Node?
    ensures SetAt(props, Leaf(Text(keypath)), value, options).Ok?
    ensures HasAt(SetAt(props, Leaf(Text(keypath)), value, options).value.props, Leaf(Text(keypath)), options) == Ok(true)
  {
    var keys := Split(keypath, options.splitChar);
    var fore, last := ForeLast(keys), Last(keys);
    var branch := Branch(fore, last, value);
    var updated := Updated(props, branch);
    assert SetAt(props, Leaf(Text(keypath)), value, options) == Ok(Written(value, updated));
    LookupConcat(branch, fore, [last]);
    var level := Lookup(branch, fore).value;
    UpdatedIsMerge(props, branch);
    Resolver.MergeCovers(props, branch, fore, level);
    Resolver.ResolveCovers(updated, fore, options.baseKey, level);
  }

  /**
   * `set` preserves siblings at every level: a value stored at a path that leaves
   * the written keypath at segment `i` is still there, unchanged.
   */
  lemma SetKeepsSiblings(props: Value, keypath: string, value: Value, options: Options, p: seq<string>, i: nat)
    requires Lookup(props, p).Some?
    requires i < |p| && i < |Split(keypath, options.splitChar)|
    requires p[..i] == Split(keypath, options.splitChar)[..i] && p[i] != Split(keypath, options.splitChar)[i]
    ensures SetAt(props, Leaf(Text(keypath)), value, options).Ok?
    ensures Lookup(SetAt(props, Leaf(Text(keypath)), value, options).value.props, p) == Lookup(props, p)
  {
    var keys := Split(keypath, options.splitChar);
    var fore, last := ForeLast(keys), Last(keys);
    var branch := Branch(fore, last, value);
    var updated := Updated(props, branch);
    assert SetAt(props, Leaf(Text(keypath)), value, options) == Ok(Written(value, updated));
    assert fore + [last] == keys;
    BranchShape(fore, last, value, i);
    assert Lookup(branch, p[..i]) == Lookup(branch, keys[..i]);
    UpdatedIsMerge(props, branch);
    MergeKeepsDivergent(props, branch, p, i);
    assert Lookup(updated, p) == Lookup(props, p);
  }

  /**
   * `has` is true exactly when the fore-last segments lead to an object and `get`
   * finds the whole keypath.
   */
  lemma HasAgreesWithGet(props: Value, keypath: string, options: Options)
    ensures HasAt(props, Leaf(Text(keypath)), options) == Ok(true) <==>
      var keys := Split(keypath, options.splitChar);
      var fore := Resolver.Resolve(props, ForeLast(keys), options.baseKey);
      fore.Some? && fore.value.Node? && GetAt(props, keypath, options).Some?
  {
    var keys := Split(keypath, options.splitChar);
    var fore, last := ForeLast(keys), Last(keys);
    assert fore + [last] == keys;
    Resolver.ResolveConcat(props, fore, [last], options.baseKey);
  }
}
