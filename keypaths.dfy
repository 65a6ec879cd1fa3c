/**
 * Keypaths: `String.prototype.split` with a one-character delimiter, which turns
 * `"a.b.c"` into the segments `["a", "b", "c"]`, and its inverse `Join`.
 */
module Keypaths {

  /**
   * `s.split(c)`: the maximal runs between delimiters, in order. There is always at
   * least one segment (`"".split(c)` is `[""]`) and no segment contains `c`.
   */
  function Split(s: string, c: char): (r: seq<string>)
    ensures |r| >= 1
    ensures forall i :: 0 <= i < |r| ==> c !in r[i]
    decreases |s|
  {
    if s == [] then [""]
    else
      var rest := Split(s[1..], c);
      if s[0] == c then [""] + rest else [[s[0]] + rest[0]] + rest[1..]
  }

  /** `parts.join(c)`. */
  function Join(parts: seq<string>, c: char): string
    decreases |parts|
  {
    if parts == [] then ""
    else if |parts| == 1 then parts[0]
    else parts[0] + [c] + Join(parts[1..], c)
  }

  /** Splitting loses nothing: joining the segments again gives the keypath back. */
  lemma {:induction false} JoinSplit(s: string, c: char)
    ensures Join(Split(s, c), c) == s
    decreases |s|
  {
    if s != [] {
      var rest := Split(s[1..], c);
      JoinSplit(s[1..], c);
      if s[0] == c {
        assert Join([""] + rest, c) == "" + [c] + Join(rest, c) by {
          assert ([""] + rest)[1..] == rest;
        }
      } else {
        var r := [[s[0]] + rest[0]] + rest[1..];
        if |rest| == 1 {
          assert r == [[s[0]] + rest[0]];
        } else {
          assert r[1..] == rest[1..];
          assert Join(rest, c) == rest[0] + [c] + Join(rest[1..], c);
        }
      }
    }
  }

  /** A delimiter-free word in front of `rest` joins the first segment of `rest`. */
  lemma {:induction false} SplitPrefix(w: string, rest: string, c: char)
    requires c !in w
    ensures Split(w + rest, c) == [w + Split(rest, c)[0]] + Split(rest, c)[1..]
    decreases |w|
  {
    if w == [] {
      var r := Split(rest, c);
      assert w + rest == rest && w + r[0] == r[0];
      assert [r[0]] + r[1..] == r;
    } else {
      assert (w + rest)[0] == w[0] && (w + rest)[1..] == w[1..] + rest;
      SplitPrefix(w[1..], rest, c);
      assert [w[0]] + (w[1..] + Split(rest, c)[0]) == w + Split(rest, c)[0];
    }
  }

  /** Joining delimiter-free segments and splitting again gives the same segments. */
  lemma {:induction false} SplitJoin(parts: seq<string>, c: char)
    requires |parts| >= 1
    requires forall i :: 0 <= i < |parts| ==> c !in parts[i]
    ensures Split(Join(parts, c), c) == parts
    decreases |parts|
  {
    if |parts| == 1 {
      SplitPrefix(parts[0], "", c);
      assert parts[0] + "" == parts[0];
    } else {
      var tail := Join(parts[1..], c);
      SplitJoin(parts[1..], c);
      assert parts[0] + [c] + tail == parts[0] + ([c] + tail);
      SplitPrefix(parts[0], [c] + tail, c);
      assert ([c] + tail)[0] == c && ([c] + tail)[1..] == tail;
      assert Split([c] + tail, c) == [""] + parts[1..];
      assert parts[0] + "" == parts[0];
    }
  }
}
