/**
 * JavaScript's `String.prototype.split` with a string separator and
 * `Array.prototype.join`, the two string operations the handlers rely on,
 * with the facts about them that the rest of the model uses.
 */
module Text {

  /**
   * `s.split(d)` for a non-empty separator: the pieces between the
   * non-overlapping occurrences of `d`, found from left to right.
   */
  function Split(s: string, d: string): (r: seq<string>)
    requires |d| > 0
    ensures |r| >= 1
    decreases |s|
  {
    if |s| < |d| then [s]
    else if s[..|d|] == d then [""] + Split(s[|d|..], d)
    else
      var rest := Split(s[1..], d);
      [[s[0]] + rest[0]] + rest[1..]
  }

  /** `xs.join(d)`. */
  function Join(xs: seq<string>, d: string): string
    decreases |xs|
  {
    if |xs| == 0 then ""
    else if |xs| == 1 then xs[0]
    else xs[0] + d + Join(xs[1..], d)
  }

  /** Joining a list led by an empty piece puts the separator in front. */
  lemma JoinEmptyHead(tail: seq<string>, d: string)
    requires |tail| >= 1
    ensures Join([""] + tail, d) == d + Join(tail, d)
  {
    var xs := [""] + tail;
    assert xs[0] == "" && xs[1..] == tail;
  }

  /** Prefixing the first piece prefixes the join. */
  lemma JoinPrefixHead(x: string, xs: seq<string>, d: string)
    requires |xs| >= 1
    ensures Join([x + xs[0]] + xs[1..], d) == x + Join(xs, d)
  {
    var ys := [x + xs[0]] + xs[1..];
    assert ys[0] == x + xs[0];
    if |xs| > 1 {
      assert ys[1..] == xs[1..];
      assert Join(ys, d) == x + xs[0] + d + Join(xs[1..], d);
    }
  }

  /** Joining the pieces of a split with the same separator gives back the original. */
  lemma {:induction false} JoinSplit(s: string, d: string)
    requires |d| > 0
    ensures Join(Split(s, d), d) == s
    decreases |s|
  {
    if |s| < |d| {
    } else if s[..|d|] == d {
      var tail := Split(s[|d|..], d);
      JoinSplit(s[|d|..], d);
      JoinEmptyHead(tail, d);
      assert s == s[..|d|] + s[|d|..];
    } else {
      var rest := Split(s[1..], d);
      JoinSplit(s[1..], d);
      JoinPrefixHead([s[0]], rest, d);
      assert s == [s[0]] + s[1..];
    }
  }

  /** No piece of a split on a one-character separator contains that character. */
  lemma {:induction false} SplitPiecesExclude(s: string, c: char)
    ensures forall i :: 0 <= i < |Split(s, [c])| ==> c !in Split(s, [c])[i]
    decreases |s|
  {
    if |s| < 1 {
    } else if s[..1] == [c] {
      SplitPiecesExclude(s[1..], c);
    } else {
      SplitPiecesExclude(s[1..], c);
      var rest := Split(s[1..], [c]);
      assert s[0] != c by { assert s[..1] == [s[0]]; }
      var r := [[s[0]] + rest[0]] + rest[1..];
      assert Split(s, [c]) == r;
      forall i | 0 <= i < |r| ensures c !in r[i] {
        if i > 0 { assert r[i] == rest[i]; }
      }
    }
  }

  /** A string without the separator character splits into itself alone. */
  lemma {:induction false} SplitWithout(a: string, c: char)
    requires c !in a
    ensures Split(a, [c]) == [a]
    decreases |a|
  {
    if |a| >= 1 {
      assert a[..1] == [a[0]];
      SplitWithout(a[1..], c);
      assert a == [a[0]] + a[1..];
    }
  }

  /** Splitting at the first separator character. */
  lemma {:induction false} SplitAt(a: string, c: char, b: string)
    requires c !in a
    ensures Split(a + [c] + b, [c]) == [a] + Split(b, [c])
    decreases |a|
  {
    var s := a + [c] + b;
    if a == [] {
      assert s[..1] == [c];
      assert s[1..] == b;
    } else {
      assert s[..1] == [a[0]];
      assert s[1..] == a[1..] + [c] + b;
      SplitAt(a[1..], c, b);
      assert [a[0]] + a[1..] == a;
    }
  }

  /**
   * Splitting a join on a one-character separator recovers the parts,
   * provided no part contains the separator.
   */
  lemma {:induction false} SplitJoin(xs: seq<string>, c: char)
    requires |xs| >= 1
    requires forall i :: 0 <= i < |xs| ==> c !in xs[i]
    ensures Split(Join(xs, [c]), [c]) == xs
    decreases |xs|
  {
    if |xs| == 1 {
      SplitWithout(xs[0], c);
    } else {
      SplitJoin(xs[1..], c);
      SplitAt(xs[0], c, Join(xs[1..], [c]));
      assert [xs[0]] + xs[1..] == xs;
    }
  }

  /** A join contains the separator character only if a part or the separator does. */
  lemma {:induction false} JoinExcludes(xs: seq<string>, d: string, c: char)
    requires c !in d
    requires forall i :: 0 <= i < |xs| ==> c !in xs[i]
    ensures c !in Join(xs, d)
    decreases |xs|
  {
    if |xs| > 1 {
      JoinExcludes(xs[1..], d, c);
    }
  }
}
