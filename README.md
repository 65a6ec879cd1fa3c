# ObjBaseProp in Dafny

A model of `ObjBaseProp.js`: keypath access (`has`, `get`, `set`) into a nested
tree of string-keyed objects, where each level may carry a reserved `baseKey`
entry whose object is deep-merged underneath any object child read from that
level ("defaults"), and the last-wins deep merge `ObjBaseProp.utils.assignDeep`
that backs both reads and writes.

Modules, one per part of the source:

- `Wrappers` (`wrappers.dfy`): `Option` (`None` is the `null` of a missing key) and `Result` (`Failure` is a thrown `Error` with its message).
- `Trees` (`trees.dfy`): `Value = Leaf(Scalar) | Node(map<string, Value>)` and plain path lookup without defaults, `Lookup`, used to state what a tree stores.
- `DeepMerge` (`deep_merge.dfy`): `assignDeep`. The spec functions `MergeMaps` (two objects), `Absorb`, `Fold` and `Merged` (a whole argument list); the imperative `MergeInto` (the key loop, recursing where line 140 merges two objects) and `AssignDeep` (the argument loop), each proved equal to its spec function; lemmas on precedence, untouched keys and idempotence.
- `Keypaths` (`keypaths.dfy`): `Split` (`String.prototype.split` with a one-character delimiter) and its inverse `Join`.
- `Resolver` (`resolver.dfy`): the private `get`. `Defaults` and `Inject` (lines 190-202), the spec function `Resolve` over a pre-split segment sequence, the loop `Get` proved equal to it, and lemmas that defaults never hide a value the tree stores.
- `Accessor` (`accessor.dfy`): options, the private `has`/`get`/`set` (`HasAt`, `GetAt`, `SetAt`), the static API (`Has`, `Get`, `Set`), the class `ObjBaseProp` and the set/get/has lemmas.
- `Scenarios` (`scenarios.dfy`): worked examples on small trees.

Conventions of the model:

- Trees are immutable values. `set` on an `ObjBaseProp` replaces its `props` field with the merged tree. In the source the merge mutates the held object in place. When the held tree is not an object, `assignDeep` writes into a fresh `{}` that nobody keeps, so the held tree is left unchanged; the model does the same.
- `get` takes a keypath string, splits it with the delimiter and walks the segments (`GetAt`); `Resolve` walks an already-split sequence. `has` and `set` split the same way. By `String.prototype.split`, the empty keypath is the one segment `""`, not the empty sequence. Walking the empty sequence returns the root unchanged (`Resolver.Resolve`).
- When the cursor stops being an object while segments remain, the walk stops and returns that cursor (the loop guard of line 187). So `get` of `"a.b"` on `{a: 5}` returns `5`.
- The keypath argument of `has` and `set` is a `Value`, so a non-string keypath is representable and gives `Failure` with the source's message.
- The source's `defaults` object is empty, so it gives no delimiter or defaults key. This model chooses `.` and `_` (`Accessor.DefaultOptions`).

Where the source text is broken, the model follows its evident intent:

- line 69 lacks the `=` of `ObjBaseProp.set = function`;
- line 140 calls an undefined `objectMerge`; modelled as the recursive deep merge of the two objects;
- line 187 reads an undefined `keys`; `get` is modelled as splitting a string keypath, and as walking the array of segments that `has` passes (line 173);
- line 226 leaves `lvl` undeclared;
- line 247 merges into `this.values`; modelled as merging into the `props` being set.

For `get` in particular:

- `get` checks no keypath type, because the source has no such check. Only `has` and `set` fail for a non-string keypath (lines 162-164, 220-222).
- `get("")` looks up the key `""`, because `"".split(c)` is `[""]`. That is the split `has` and `set` perform (lines 169, 224), and `get` splits the same way.

## Model

| member | source | states |
|---|---|---|
| `DeepMerge.MergeValue` | ObjBaseProp.js:138-143 | the incoming value replaces what is held, exactly, unless both are objects. When both are objects, the result has the union of their keys, and a held key the incoming object lacks keeps its value |
| `DeepMerge.MergeMaps` | ObjBaseProp.js:129-145 | merging `src` into `dst` gives the union of their keys. A key `src` does not mention keeps `dst`'s value. A value of `src` is stored exactly unless it and `dst`'s value are both objects. In that case the result is an object with the union of their keys |
| `DeepMerge.Fold` | ObjBaseProp.js:122-147 | absorbing the later arguments keeps every key of the starting object and of each object argument |
| `DeepMerge.Merged` | ObjBaseProp.js:113-151 | `assignDeep(args...)` holds every key of the first argument (if an object) and of each later object argument; `MergedKeysFromArgs` gives the converse, and `MergedLastWins`, `MergedUntouched` and `MergedIgnoresNonObjects` give the values |
| `DeepMerge.MergedKeysFromArgs` | ObjBaseProp.js:129-145 | every key of the result is a key of the first argument or of a later object argument |
| `DeepMerge.MergeInto` | ObjBaseProp.js:129-145 | the key loop over one object argument computes exactly `MergeMaps(dst, src)` |
| `DeepMerge.AssignDeep` | ObjBaseProp.js:113-151 | draining the argument list computes exactly `Merged(args)` |
| `DeepMerge.MergedIgnoresNonObjects` | ObjBaseProp.js:119-127 | a non-object first argument behaves as `{}`; dropping a non-object later argument leaves the result unchanged |
| `DeepMerge.MergedUntouched` | ObjBaseProp.js:129-145 | a key no later argument mentions is in the result iff the first argument (if an object) has it, with the same value |
| `DeepMerge.MergedLastWins` | ObjBaseProp.js:122-147 | the last argument mentioning a key decides it: its scalar is the result, its object gives an object with at least its keys |
| `DeepMerge.MergeIdempotent` | ObjBaseProp.js:129-143 | merging the same object in a second time changes nothing |
| `DeepMerge.MergedRepeatIdempotent` | ObjBaseProp.js:113-151 | `assignDeep(a, b, b)` equals `assignDeep(a, b)` for all values |
| `Keypaths.Split` | ObjBaseProp.js:169 | splitting gives at least one segment and no segment contains the delimiter |
| `Keypaths.JoinSplit` | ObjBaseProp.js:169 | joining the segments with the delimiter gives the keypath back |
| `Keypaths.SplitJoin` | ObjBaseProp.js:224 | splitting a join of delimiter-free segments gives the segments back |
| `Resolver.Defaults` | ObjBaseProp.js:190 | a level's defaults are present exactly when it has the `baseKey` key, and are that key's value |
| `Resolver.Inject` | ObjBaseProp.js:199-202 | injection keeps the child's kind: an object stays an object, a scalar a scalar |
| `Resolver.InjectOverlay` | ObjBaseProp.js:199-202 | a scalar child, or absent or non-object defaults, leave the child untouched; otherwise the result has the union of keys, the child's scalars win and keys only the defaults have come from the defaults |
| `Resolver.Resolve` | ObjBaseProp.js:182-212 | walking no segments, or starting from a non-object, returns the cursor unchanged |
| `Resolver.Get` | ObjBaseProp.js:184-211 | the cursor loop computes exactly `Resolve(props, segs, baseKey)` |
| `Resolver.ResolveConcat` | ObjBaseProp.js:187-209 | walking `p + q` is walking `p` and then `q` from where `p` ended, and absent once `p` is |
| `Resolver.MissingSegment` | ObjBaseProp.js:195-207 | a segment missing from the object it is looked up in makes the result absent, whatever follows |
| `Resolver.MergeCovers` | ObjBaseProp.js:129-143 | merging anything under a tree keeps each of its paths: scalars unchanged, objects with at least their keys |
| `Resolver.ResolveCovers` | ObjBaseProp.js:187-209 | walking with defaults finds everything plain lookup finds, up to extra keys in objects |
| `Resolver.ResolveFindsStored` | ObjBaseProp.js:187-209 | a scalar stored at a path is exactly what walking that path returns, whatever defaults lie on the way; a stored object comes back with at least its keys |
| `Accessor.WithDefaults` | ObjBaseProp.js:37 | every option field the caller gives overrides the default, and a missing field (or missing options) takes the default |
| `Accessor.WithDefaultsIdempotent` | ObjBaseProp.js:167 | applying the defaults again to complete options changes nothing |
| `Accessor.HasAt` | ObjBaseProp.js:159-177 | fails, with the source's message, exactly when the keypath is not a string |
| `Accessor.GetAt` | ObjBaseProp.js:182-212 | the private `get` on a keypath string: a non-object tree is returned as it is; a scalar stored at the keypath's segments is returned exactly; a stored object comes back as an object with at least its keys. `SetThenGet` and `HasAgreesWithGet` relate it to `set` and `has` |
| `Accessor.Branch` | ObjBaseProp.js:229-241 | the branch is an object and holds the value at the keypath's segments |
| `Accessor.BuildBranch` | ObjBaseProp.js:229-241 | the loop computes exactly `Branch(keys, lastKey, value)` |
| `Accessor.BranchShape` | ObjBaseProp.js:229-241 | every level of the branch is an object with exactly the one key of its segment |
| `Accessor.SetAt` | ObjBaseProp.js:217-250 | fails, with the source's message, exactly when the keypath is not a string; otherwise returns the written value, and a non-object tree is left unchanged |
| `Accessor.Updated` | ObjBaseProp.js:246-247 | a non-object tree is left unchanged. An object stays an object with the union of its own and the branch's keys, and a key the branch lacks keeps its value. `UpdatedIsMerge` states the whole merge |
| `Accessor.UpdatedIsMerge` | ObjBaseProp.js:246-247 | on an object, the updated tree is the branch deep-merged over it |
| `Accessor.MergeKeepsDivergent` | ObjBaseProp.js:129-145 | merging a tree that has no entry where a path turns off leaves the value at that path alone |
| `Accessor.SetThenGet` | ObjBaseProp.js:224-249 | after `set` on an object, `get` of the same keypath gives back a non-object value exactly, and an object value as an object with at least its keys |
| `Accessor.SetThenHas` | ObjBaseProp.js:217-250 | after `set` on an object, `has` of the same keypath is true for any value |
| `Accessor.SetKeepsSiblings` | ObjBaseProp.js:246-247 | every value stored at a path that leaves the written keypath at some segment is unchanged by `set` |
| `Accessor.HasAgreesWithGet` | ObjBaseProp.js:169-176 | `has` is true iff the fore-last segments lead to an object and `get` finds the whole keypath |
| `Accessor.Has` | ObjBaseProp.js:47-53 | the static `has` fails, with the source's message, exactly when the keypath is not a string |
| `Accessor.Get` | ObjBaseProp.js:58-64 | the static `get`, splitting on the caller's or the default delimiter, returns a non-object tree as it is, a stored scalar exactly, and a stored object with at least its keys |
| `Accessor.Set` | ObjBaseProp.js:69-75 | the static `set` fails, with the source's message, exactly when the keypath is not a string. Otherwise it returns the value and leaves a non-object tree unchanged. On an object tree, a non-object value is read back by `get` under the same options |
| `Accessor.CallShapesAgree` | ObjBaseProp.js:84-103 | an `ObjBaseProp` constructed on a tree and options answers `has`, `get` and `set` exactly as the static forms do on the same arguments |
| `Accessor.ObjBaseProp.constructor` | ObjBaseProp.js:36-39 | the object holds the given tree and the given options merged over the defaults |
| `Accessor.ObjBaseProp.Has` | ObjBaseProp.js:84-87 | the instance `has` is the private `has` on the held tree and options |
| `Accessor.ObjBaseProp.Get` | ObjBaseProp.js:92-95 | the instance `get`, running the cursor loop, is the private `get` on the held tree and options |
| `Accessor.ObjBaseProp.Set` | ObjBaseProp.js:100-103 | fails exactly for a non-string keypath and then changes nothing; otherwise returns the value and holds the tree the private `set` leaves; options never change |
| `Scenarios.ChildLevel` | ObjBaseProp.js:190-202 | walking into `child` of `{_: {x: 1, y: 2}, child: {y: 3}}` gives `{x: 1, y: 3}` |
| `Scenarios.GetChildInjectsDefaults` | ObjBaseProp.js:182-212 | `get("child")` on that tree gives `{x: 1, y: 3}` |
| `Scenarios.HasOnInjectedLevel` | ObjBaseProp.js:169-176 | on that tree, `has("child.k")` is true exactly for `k` = `y` (stored by the child) and `k` = `x` (supplied by the defaults) |
| `Scenarios.DefaultsScopedToOneLevel` | ObjBaseProp.js:187-209 | root defaults reach `a` but not `a.b` in `{_: {x: 1}, a: {b: {}}}` |
| `Scenarios.MergeReplacesAndSkips` | ObjBaseProp.js:126-143 | a scalar replaces an object at the same key; a `null` argument is skipped |

## Left out

- The module wrapper and global export (lines 10-25, 252-255): packaging only.
- The `__refs__` cache update (line 244): it refers to state that is never created, and nothing else reads it.
- Inherited keys. `key in obj` (lines 176, 195, 233) also sees keys inherited from `Object.prototype`, such as `toString`; `hasOwnProperty` (lines 134, 139) does not. Maps have no inherited keys, so the two coincide in the model. Consequences the model does not show: at line 233 an inherited segment makes `set` step into the shared inherited value instead of creating `{}`, so `set("toString.x", v)` leaves `props` unchanged and a later `get("toString")` returns the `toString` function; `set("__proto__.x", v)` writes `x` onto `Object.prototype`; and an own key named `hasOwnProperty` makes lines 134 and 139 call a non-function, so `set("hasOwnProperty", v)` with a non-function `v` throws a `TypeError`.
- Aliasing. `assignDeep` stores references to nested objects of its arguments and later mutates them, and the injected value of `get` shares nested objects with the defaults. Trees are values here, so no operation changes another tree.
- Cyclic trees, arrays (objects to the source's `typeof` checks), function values (scalars to those checks), and floating-point numbers (scalars hold integers).
- Key enumeration order: a source's own keys are distinct, so their order does not change the result.
- Accessor.HasAt: returns `Ok(false)` whenever the fore-last level is not an object. Line 176 returns the value of `obj && typeof obj == 'object' && key in obj` instead. That is `null` when a fore-last segment is missing, and the falsy cursor itself (`undefined`, `0`, `""`, `false`) when the walk stopped on one. The model gives only the truth value callers test.
- JavaScript truthiness: `obj[baseKey] || null` turns a falsy scalar into `null`; either way a scalar default is ignored.
- A stored `null` and a missing key both read as `null` in the source. The model tells them apart: `Some(Leaf(Null))` versus `None`.
- Delimiters longer than one character, and an undefined delimiter or defaults key (the source's empty `defaults`): the delimiter is one character, and both have the documented defaults.
- A non-string keypath passed to `get`: the source does not check it, and the model types it as a string.
