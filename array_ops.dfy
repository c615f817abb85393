/** The JavaScript array built-ins the core relies on: `[].concat(...xss)`,
    `some`, `every` and `join`, plus the inverse of `join` used to state what a
    joined string contains. */
module ArrayOps {

  /** `([] as T[]).concat(...xss)`: the lists one after another. */
  function Flatten<T>(xss: seq<seq<T>>): (r: seq<T>)
  {
    if xss == [] then [] else xss[0] + Flatten(xss[1..])
  }

  /** Every element of the flattened list comes from one of the inner lists,
      and every element of an inner list is in the flattened list. */
  lemma {:induction false} FlattenMembership<T>(xss: seq<seq<T>>, x: T)
    ensures x in Flatten(xss) <==> exists i :: 0 <= i < |xss| && x in xss[i]
  {
    if xss != [] {
      FlattenMembership(xss[1..], x);
      if x in Flatten(xss[1..]) {
        var i :| 0 <= i < |xss[1..]| && x in xss[1..][i];
        assert x in xss[i + 1];
      }
      if exists i :: 0 <= i < |xss| && x in xss[i] {
        var i :| 0 <= i < |xss| && x in xss[i];
        if i > 0 {
          assert x in xss[1..][i - 1];
        }
      }
    }
  }

  /** `xs.some(p)`. */
  function AnySatisfy<T>(xs: seq<T>, p: T -> bool): (r: bool)
    ensures r <==> exists i :: 0 <= i < |xs| && p(xs[i])
  {
    if xs == [] then false
    else p(xs[0]) || AnySatisfy(xs[1..], p)
  }

  /** `xs.every(p)`; true of the empty list. */
  function AllSatisfy<T>(xs: seq<T>, p: T -> bool): (r: bool)
    ensures r <==> forall i :: 0 <= i < |xs| ==> p(xs[i])
  {
    if xs == [] then true
    else p(xs[0]) && AllSatisfy(xs[1..], p)
  }

  /** `xs.join(sep)` for a list of strings. */
  function Join(xs: seq<string>, sep: char): (r: string)
  {
    if xs == [] then ""
    else if |xs| == 1 then xs[0]
    else xs[0] + [sep] + Join(xs[1..], sep)
  }

  /** `s.split(sep)` for a one-character separator: the pieces between the
      separators, so there is always at least one piece. */
  function Split(s: string, sep: char): (r: seq<string>)
    ensures |r| > 0
  {
    if s == [] then [""]
    else
      var rest := Split(s[1..], sep);
      if s[0] == sep then [""] + rest
      else [[s[0]] + rest[0]] + rest[1..]
  }

  /** Splitting a piece that holds no separator, glued to a separator and more
      text, gives the piece and then the split of the rest. */
  lemma {:induction false} SplitAfterPiece(x: string, sep: char, t: string)
    requires sep !in x
    ensures Split(x + [sep] + t, sep) == [x] + Split(t, sep)
  {
    if x != [] {
      assert (x + [sep] + t)[1..] == x[1..] + [sep] + t;
      SplitAfterPiece(x[1..], sep, t);
      assert [x[0]] + x[1..] == x;
    } else {
      assert x + [sep] + t == [sep] + t;
      assert ([sep] + t)[1..] == t;
    }
  }

  /** Splitting a piece that holds no separator gives that piece alone. */
  lemma {:induction false} SplitPiece(x: string, sep: char)
    requires sep !in x
    ensures Split(x, sep) == [x]
  {
    if x != [] {
      SplitPiece(x[1..], sep);
      assert [x[0]] + x[1..] == x;
    }
  }

  /** `join` loses nothing when no piece holds the separator: splitting the
      joined string at the separator gives the pieces back, in order. */
  lemma {:induction false} SplitJoin(xs: seq<string>, sep: char)
    requires |xs| > 0
    requires forall i :: 0 <= i < |xs| ==> sep !in xs[i]
    ensures Split(Join(xs, sep), sep) == xs
  {
    if |xs| == 1 {
      SplitPiece(xs[0], sep);
    } else {
      SplitJoin(xs[1..], sep);
      SplitAfterPiece(xs[0], sep, Join(xs[1..], sep));
      assert [xs[0]] + xs[1..] == xs;
    }
  }
}
