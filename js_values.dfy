/** JavaScript values as the two machines see them: an input that may be
    `undefined`, truthiness of strings, `Array.prototype.join`, and lodash's
    `_.difference`. `Split` is the reading a receiver applies to a joined list. */
module JsValues {

  /** An input field that the caller may leave `undefined`. */
  datatype Option<+T> = None | Some(value: T)

  /** A string field is truthy when it is present and not `""`. */
  predicate Truthy(f: Option<string>) {
    f.Some? && f.value != ""
  }

  /** Template-literal rendering of a possibly `undefined` string. */
  function Render(f: Option<string>): (r: string)
    ensures f.Some? ==> r == f.value
    ensures f.None? ==> r == "undefined"
  {
    match f
    case Some(s) => s
    case None => "undefined"
  }

  /** `xs.join(sep)` for a one-character separator. */
  function Join(xs: seq<string>, sep: char): (s: string)
  {
    if |xs| == 0 then ""
    else if |xs| == 1 then xs[0]
    else xs[0] + [sep] + Join(xs[1..], sep)
  }

  /** Position of the first `c` in `s`, or `|s|` when there is none. */
  function IndexOf(s: string, c: char): (i: nat)
    ensures i <= |s|
    ensures i < |s| ==> s[i] == c
    ensures forall k :: 0 <= k < i ==> s[k] != c
  {
    if s == [] then 0
    else if s[0] == c then 0
    else 1 + IndexOf(s[1..], c)
  }

  /** A prefix free of `c` moves the first `c` along by its length. */
  lemma {:induction false} IndexOfAfter(a: string, b: string, c: char)
    requires c !in a
    ensures IndexOf(a + b, c) == |a| + IndexOf(b, c)
  {
    if a != [] {
      assert (a + b)[0] == a[0];
      assert (a + b)[1..] == a[1..] + b;
      IndexOfAfter(a[1..], b, c);
    } else {
      assert a + b == b;
    }
  }

  /** `s.split(sep)`: the pieces between separators; never empty. */
  function Split(s: string, sep: char): (r: seq<string>)
    ensures |r| >= 1
    decreases |s|
  {
    var i := IndexOf(s, sep);
    if i == |s| then [s] else [s[..i]] + Split(s[i + 1..], sep)
  }

  /** A list of strings none of which contains `sep`. */
  predicate FreeOf(xs: seq<string>, sep: char) {
    forall k :: 0 <= k < |xs| ==> sep !in xs[k]
  }

  /** Joining a non-empty list of separator-free strings can be undone by splitting. */
  lemma {:induction false} SplitJoin(xs: seq<string>, sep: char)
    requires |xs| >= 1 && FreeOf(xs, sep)
    ensures Split(Join(xs, sep), sep) == xs
  {
    if |xs| == 1 {
      assert Join(xs, sep) == xs[0];
      assert IndexOf(xs[0], sep) == |xs[0]|;
    } else {
      var s := Join(xs, sep);
      var h := xs[0];
      var t := Join(xs[1..], sep);
      assert s == h + [sep] + t;
      assert sep !in h;
      assert s[|h|] == sep;
      assert IndexOf(s, sep) == |h|;
      assert s[..|h|] == h;
      assert s[|h| + 1..] == t;
      SplitJoin(xs[1..], sep);
    }
  }

  /** lodash `_.difference(xs, ys)`: the elements of `xs` not in `ys`, in order. */
  function Difference<T(==)>(xs: seq<T>, ys: seq<T>): (d: seq<T>)
  {
    if xs == [] then []
    else if xs[0] in ys then Difference(xs[1..], ys)
    else [xs[0]] + Difference(xs[1..], ys)
  }

  /** The difference is empty exactly when every element of `xs` occurs in `ys`. */
  lemma {:induction false} DifferenceEmpty<T>(xs: seq<T>, ys: seq<T>)
    ensures |Difference(xs, ys)| == 0 <==> forall k :: 0 <= k < |xs| ==> xs[k] in ys
  {
    if xs != [] {
      DifferenceEmpty(xs[1..], ys);
      assert forall k :: 1 <= k < |xs| ==> xs[k] == xs[1..][k - 1];
    }
  }
}
