/** Python's `str.startswith`, `str.split(sep)` for a one-character separator, and `sep.join`. */
module Strings {

  predicate StartsWith(s: string, prefix: string)
  {
    |prefix| <= |s| && s[..|prefix|] == prefix
  }

  /** No element occurs twice. */
  predicate Distinct<T(==)>(s: seq<T>)
  {
    forall i, j :: 0 <= i < j < |s| ==> s[i] != s[j]
  }

  /** `s.split(d)`: the maximal pieces between occurrences of `d`; an empty string gives `[""]`. */
  function Split(s: string, d: char): (r: seq<string>)
    ensures |r| >= 1
    ensures forall i :: 0 <= i < |r| ==> d !in r[i]
    ensures d !in s ==> r == [s]
    decreases |s|
  {
    if s == [] then [""]
    else if s[0] == d then [""] + Split(s[1..], d)
    else
      var t := Split(s[1..], d);
      assert [s[0]] + s[1..] == s;
      [[s[0]] + t[0]] + t[1..]
  }

  /** `d.join(pieces)`. */
  function Join(pieces: seq<string>, d: char): string
    decreases |pieces|
  {
    if |pieces| == 0 then ""
    else if |pieces| == 1 then pieces[0]
    else pieces[0] + [d] + Join(pieces[1..], d)
  }

  lemma JoinCons(x: string, y: string, rest: seq<string>, d: char)
    ensures Join([x + y] + rest, d) == x + Join([y] + rest, d)
  {
    if |rest| > 0 {
      assert ([x + y] + rest)[1..] == rest;
      assert ([y] + rest)[1..] == rest;
    }
  }

  /** Joining the pieces of a split gives back the original string. */
  lemma {:induction false} JoinSplit(s: string, d: char)
    ensures Join(Split(s, d), d) == s
    decreases |s|
  {
    if s != [] {
      JoinSplit(s[1..], d);
      var t := Split(s[1..], d);
      if s[0] == d {
        assert ([""] + t)[1..] == t;
        assert s == [d] + s[1..];
      } else {
        JoinCons([s[0]], t[0], t[1..], d);
        assert [t[0]] + t[1..] == t;
        assert s == [s[0]] + s[1..];
      }
    }
  }

  /** Splitting `x + [d] + y` where `x` holds no `d` cuts exactly after `x`. */
  lemma {:induction false} SplitAtFirst(x: string, y: string, d: char)
    requires d !in x
    ensures Split(x + [d] + y, d) == [x] + Split(y, d)
    decreases |x|
  {
    if x == [] {
      assert ([d] + y)[1..] == y;
    } else {
      assert (x + [d] + y)[1..] == x[1..] + [d] + y;
      SplitAtFirst(x[1..], y, d);
      assert [x[0]] + x[1..] == x;
    }
  }

  /** Splitting a join of pieces free of `d` gives back the pieces. */
  lemma {:induction false} SplitJoin(pieces: seq<string>, d: char)
    requires |pieces| >= 1
    requires forall i :: 0 <= i < |pieces| ==> d !in pieces[i]
    ensures Split(Join(pieces, d), d) == pieces
    decreases |pieces|
  {
    if |pieces| > 1 {
      SplitJoin(pieces[1..], d);
      SplitAtFirst(pieces[0], Join(pieces[1..], d), d);
      assert [pieces[0]] + pieces[1..] == pieces;
    }
  }

  /** Join of a concatenation: the two joins with one separator between them. */
  lemma {:induction false} JoinAppend(a: seq<string>, b: seq<string>, d: char)
    requires |a| >= 1 && |b| >= 1
    ensures Join(a + b, d) == Join(a, d) + [d] + Join(b, d)
    decreases |a|
  {
    if |a| == 1 {
      assert (a + b)[1..] == b;
    } else {
      assert (a + b)[1..] == a[1..] + b;
      JoinAppend(a[1..], b, d);
    }
  }

  /** When the string holds `d`, it is the first piece, `d`, and the join of the other pieces. */
  lemma SplitHead(s: string, d: char)
    requires d in s
    ensures |Split(s, d)| >= 2
    ensures s == Split(s, d)[0] + [d] + Join(Split(s, d)[1..], d)
  {
    JoinSplit(s, d);
  }
}
