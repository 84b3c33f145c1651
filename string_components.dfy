/**
 * Splitting a string at a one-character separator and joining strings with
 * it, as Foundation's `components(separatedBy:)` and `joined(separator:)` do:
 * a string with n separators has n + 1 components, so the empty string has
 * the one component "", and nothing is trimmed or escaped.
 */
module StringComponents {

  /** How often `sep` occurs in `s`. */
  function Count(s: string, sep: char): (n: nat)
    decreases |s|
  {
    if s == [] then 0 else (if s[0] == sep then 1 else 0) + Count(s[1..], sep)
  }

  /** The position of the first `sep` in `s`. */
  function IndexOf(s: string, sep: char): (i: nat)
    requires sep in s
    ensures i < |s| && s[i] == sep && sep !in s[..i]
    decreases |s|
  {
    if s[0] == sep then 0
    else
      var j := IndexOf(s[1..], sep);
      assert s[..j + 1] == [s[0]] + s[1..][..j];
      j + 1
  }

  /**
   * `s.components(separatedBy: [sep])`: the pieces between separators, in
   * order. There is always at least one piece, no piece contains the
   * separator, and there is more than one exactly when `s` contains it.
   */
  function Split(s: string, sep: char): (parts: seq<string>)
    ensures |parts| >= 1
    ensures forall i :: 0 <= i < |parts| ==> sep !in parts[i]
    ensures |parts| > 1 <==> sep in s
    ensures sep !in s ==> parts == [s]
    decreases |s|
  {
    if sep !in s then [s]
    else
      var i := IndexOf(s, sep);
      [s[..i]] + Split(s[i + 1..], sep)
  }

  /**
   * `xs.joined(separator: String(sep))`: the strings in order with `sep`
   * between neighbours; no list gives a leading or trailing separator, so an
   * empty list joins to "" and a single string joins to itself.
   */
  function Join(xs: seq<string>, sep: char): (r: string)
    ensures xs == [] ==> r == ""
    ensures |xs| == 1 ==> r == xs[0]
    decreases |xs|
  {
    if |xs| == 0 then ""
    else if |xs| == 1 then xs[0]
    else xs[0] + [sep] + Join(xs[1..], sep)
  }

  /** Joining n separator-free strings puts exactly one separator between each pair of neighbours. */
  lemma {:induction false} JoinCount(xs: seq<string>, sep: char)
    requires forall i :: 0 <= i < |xs| ==> sep !in xs[i]
    ensures |xs| >= 1 ==> Count(Join(xs, sep), sep) == |xs| - 1
    decreases |xs|
  {
    if |xs| == 1 {
      CountZero(xs[0], sep);
    } else if |xs| > 1 {
      var rest := Join(xs[1..], sep);
      JoinCount(xs[1..], sep);
      CountAppend(xs[0] + [sep], rest, sep);
      CountAppend(xs[0], [sep], sep);
      CountZero(xs[0], sep);
      assert Count([sep], sep) == 1 by {
        assert [sep][1..] == [];
      }
    }
  }

  lemma {:induction false} CountAppend(a: string, b: string, sep: char)
    ensures Count(a + b, sep) == Count(a, sep) + Count(b, sep)
    decreases |a|
  {
    if a != [] {
      assert (a + b)[1..] == a[1..] + b;
      CountAppend(a[1..], b, sep);
    } else {
      assert a + b == b;
    }
  }

  lemma {:induction false} CountZero(s: string, sep: char)
    ensures Count(s, sep) == 0 <==> sep !in s
    decreases |s|
  {
    if s != [] {
      CountZero(s[1..], sep);
      assert sep in s <==> s[0] == sep || sep in s[1..];
    }
  }

  /** Foundation's count: one more component than there are separators. */
  lemma {:induction false} SplitCount(s: string, sep: char)
    ensures |Split(s, sep)| == Count(s, sep) + 1
    decreases |s|
  {
    if sep !in s {
      CountZero(s, sep);
    } else {
      var i := IndexOf(s, sep);
      assert s == s[..i] + ([s[i]] + s[i + 1..]);
      CountAppend(s[..i], [s[i]] + s[i + 1..], sep);
      CountZero(s[..i], sep);
      assert Count([s[i]] + s[i + 1..], sep) == 1 + Count(s[i + 1..], sep) by {
        assert ([s[i]] + s[i + 1..])[1..] == s[i + 1..];
      }
      SplitCount(s[i + 1..], sep);
    }
  }

  /** Joining a string in front of a non-empty list puts one separator after it. */
  lemma JoinCons(x: string, ys: seq<string>, sep: char)
    requires |ys| >= 1
    ensures Join([x] + ys, sep) == x + [sep] + Join(ys, sep)
  {
    assert ([x] + ys)[1..] == ys;
  }

  /** Joining the components restores the string: no character is lost or added. */
  lemma {:induction false} JoinSplit(s: string, sep: char)
    ensures Join(Split(s, sep), sep) == s
    decreases |s|
  {
    if sep in s {
      var i := IndexOf(s, sep);
      var a, b := s[..i], s[i + 1..];
      assert Split(s, sep) == [a] + Split(b, sep);
      JoinCons(a, Split(b, sep), sep);
      JoinSplit(b, sep);
      assert s == a + [sep] + b by {
        assert s == s[..i] + [s[i]] + s[i + 1..];
      }
    }
  }

  /** The first separator of `a + [sep] + b` is the one after `a` when `a` has none. */
  lemma IndexOfAfterPrefix(a: string, b: string, sep: char)
    requires sep !in a
    ensures sep in a + [sep] + b
    ensures IndexOf(a + [sep] + b, sep) == |a|
  {
    var s := a + [sep] + b;
    assert s[|a|] == sep;
    var i := IndexOf(s, sep);
    assert forall j :: 0 <= j < |a| ==> s[j] == a[j];
    assert forall j :: 0 <= j < i ==> s[..i][j] == s[j];
  }

  /** Splitting `a + [sep] + b` cuts off `a` when `a` has no separator. */
  lemma SplitAfterPrefix(a: string, b: string, sep: char)
    requires sep !in a
    ensures Split(a + [sep] + b, sep) == [a] + Split(b, sep)
  {
    var s := a + [sep] + b;
    IndexOfAfterPrefix(a, b, sep);
    assert s[..|a|] == a;
    assert s[|a| + 1..] == b;
  }

  /**
   * Splitting a join gives the list back when the list is not empty and no
   * element contains the separator (otherwise the separator is ambiguous).
   */
  lemma {:induction false} SplitJoin(xs: seq<string>, sep: char)
    requires |xs| >= 1
    requires forall i :: 0 <= i < |xs| ==> sep !in xs[i]
    ensures Split(Join(xs, sep), sep) == xs
    decreases |xs|
  {
    if |xs| > 1 {
      var rest := Join(xs[1..], sep);
      assert Join(xs, sep) == xs[0] + [sep] + rest;
      SplitAfterPrefix(xs[0], rest, sep);
      assert forall i :: 0 <= i < |xs[1..]| ==> sep !in xs[1..][i];
      SplitJoin(xs[1..], sep);
      assert xs == [xs[0]] + xs[1..];
    }
  }
}
