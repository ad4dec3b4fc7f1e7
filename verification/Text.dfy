/**
 Character classes, substring tests and string splitting as Python's `re`
 and `str` use them in main.py.
 */
module Text {

  /** A small Option, used by the matchers and the classifier. */
  datatype Option<+T> = None | Some(value: T) {
    function GetOr(default: T): T {
      match this
      case Some(v) => v
      case None => default
    }
  }

  /** The three character classes that occur in the patterns: `\d`, `\w` and `\S`. */
  datatype CharClass = Digit | Word | NonSpace {
    predicate Has(c: char) {
      match this
      case Digit => IsDigit(c)
      case Word => IsWordChar(c)
      case NonSpace => !IsSpace(c)
    }
  }

  /** `\d`, restricted to the ASCII digits. */
  predicate IsDigit(c: char) {
    '0' <= c <= '9'
  }

  /** `\w`, restricted to ASCII letters, digits and the underscore. */
  predicate IsWordChar(c: char) {
    'a' <= c <= 'z' || 'A' <= c <= 'Z' || IsDigit(c) || c == '_'
  }

  /** `\s` on a `str` pattern: exactly the characters for which `str.isspace` holds. */
  predicate IsSpace(c: char): (b: bool)
    ensures c == ' ' || c == '\t' || c == '\n' || c == '\r' ==> b
    ensures '!' <= c <= '~' ==> !b
  {
    || '\t' <= c <= '\r'
    || '\U{1C}' <= c <= '\U{1F}'
    || c == ' '
    || c == '\U{85}'
    || c == '\U{A0}'
    || c == '\U{1680}'
    || '\U{2000}' <= c <= '\U{200A}'
    || c == '\U{2028}'
    || c == '\U{2029}'
    || c == '\U{202F}'
    || c == '\U{205F}'
    || c == '\U{3000}'
  }

  /** Every character of `s` belongs to `cls`. */
  predicate AllIn(cls: CharClass, s: string) {
    forall k :: 0 <= k < |s| ==> cls.Has(s[k])
  }

  /** What `\d+`, `\w+` and `\S+` can consume: a non-empty run of the class. */
  predicate Plus(cls: CharClass, s: string) {
    |s| > 0 && AllIn(cls, s)
  }

  /** A whitespace-free, non-empty token: what a `(\S+)` group captures. */
  predicate Token(s: string) {
    Plus(NonSpace, s)
  }

  /** `t` occurs in `s` starting at position `i`. */
  predicate OccursAt(s: string, i: nat, t: string) {
    i + |t| <= |s| && s[i..i + |t|] == t
  }

  /** Python's `t in s` for strings. */
  predicate Contains(s: string, t: string): (b: bool)
    ensures |t| == 0 ==> b
    ensures b ==> |t| <= |s|
  {
    assert |t| == 0 ==> OccursAt(s, 0, t);
    exists i: nat :: i + |t| <= |s| && OccursAt(s, i, t)
  }

  /**
   The end of the longest run of `cls` characters starting at `i`: how far a
   greedy `\d+`, `\w+` or `\S+` reaches before it stops.
   */
  function RunEnd(s: string, i: nat, cls: CharClass): (r: nat)
    requires i <= |s|
    ensures i <= r <= |s|
    ensures AllIn(cls, s[i..r])
    ensures r == |s| || !cls.Has(s[r])
    decreases |s| - i
  {
    if i < |s| && cls.Has(s[i]) then RunEnd(s, i + 1, cls) else i
  }

  /** A run that is followed by the end or by a character outside the class is the greedy one. */
  lemma RunEndUnique(s: string, i: nat, j: nat, cls: CharClass)
    requires i <= j <= |s|
    requires AllIn(cls, s[i..j])
    requires j == |s| || !cls.Has(s[j])
    ensures RunEnd(s, i, cls) == j
  {
    forall k | i <= k < j
      ensures cls.Has(s[k])
    {
      assert s[i..j][k - i] == s[k];
    }
  }

  /** A run of `cls` found at `i` lies inside the greedy run from `i`. */
  lemma {:induction false} RunEndCovers(s: string, i: nat, run: string, cls: CharClass)
    requires i <= |s| && AllIn(cls, run) && OccursAt(s, i, run)
    ensures i + |run| <= RunEnd(s, i, cls)
    decreases |run|
  {
    if |run| > 0 {
      assert s[i] == s[i..i + |run|][0];
      assert s[i + 1..i + 1 + |run[1..]|] == s[i..i + |run|][1..];
      RunEndCovers(s, i + 1, run[1..], cls);
    }
  }

  /** Occurrences compose: `a` at `i` followed by `b` right after it is `a + b` at `i`, and back. */
  lemma OccursAtAppend(s: string, i: nat, a: string, b: string)
    ensures OccursAt(s, i, a + b) <==> OccursAt(s, i, a) && OccursAt(s, i + |a|, b)
  {
    if OccursAt(s, i, a + b) {
      assert s[i..i + |a|] == (a + b)[..|a|];
      assert s[i + |a|..i + |a| + |b|] == (a + b)[|a|..];
    }
    if OccursAt(s, i, a) && OccursAt(s, i + |a|, b) {
      assert s[i..i + |a| + |b|] == s[i..i + |a|] + s[i + |a|..i + |a| + |b|];
    }
  }

  /** The second half of an occurrence of `a + b` at `i`: `b`, found right after `a`. */
  lemma OccursAfter(s: string, i: nat, a: string, b: string) returns (k: nat)
    requires OccursAt(s, i, a + b)
    ensures k == i + |a| && OccursAt(s, k, b) && Contains(s, b)
  {
    OccursAtAppend(s, i, a, b);
    k := i + |a|;
  }

  /** Concatenation regrouped to the right. */
  lemma AppendAssoc(a: string, b: string, c: string)
    ensures a + b + c == a + (b + c)
  {
  }

  /** An occurrence inside a longer occurrence. */
  lemma OccursAtPrefix(s: string, i: nat, t: string, n: nat)
    requires OccursAt(s, i, t)
    requires n <= |t|
    ensures OccursAt(s, i, t[..n])
  {
    assert s[i..i + n] == s[i..i + |t|][..n];
  }

  /**
   Python's `s.split(sep)` with an explicit separator: the pieces between
   separators, empty pieces kept, never an empty list.
   */
  function Split(s: string, sep: char): (r: seq<string>)
    ensures |r| >= 1
    ensures forall k :: 0 <= k < |r| ==> sep !in r[k]
    decreases |s|
  {
    if |s| == 0 then [""]
    else
      var rest := Split(s[1..], sep);
      if s[0] == sep then [""] + rest
      else [[s[0]] + rest[0]] + rest[1..]
  }

  /** Python's `sep.join(pieces)`. */
  function Join(pieces: seq<string>, sep: char): string
    decreases |pieces|
  {
    if |pieces| == 0 then ""
    else if |pieces| == 1 then pieces[0]
    else pieces[0] + [sep] + Join(pieces[1..], sep)
  }

  /** Splitting loses nothing: joining the pieces back gives the original string. */
  lemma {:induction false} JoinSplit(s: string, sep: char)
    ensures Join(Split(s, sep), sep) == s
    decreases |s|
  {
    if |s| > 0 {
      var rest := Split(s[1..], sep);
      JoinSplit(s[1..], sep);
      if s[0] == sep {
        assert s == [sep] + s[1..];
      } else {
        var r := Split(s, sep);
        if |rest| == 1 {
          assert r == [[s[0]] + rest[0]];
        } else {
          assert r[1..] == rest[1..];
          assert Join(r, sep) == [s[0]] + rest[0] + [sep] + Join(rest[1..], sep);
        }
        assert s == [s[0]] + s[1..];
      }
    }
  }

  /** A string without the separator is a single piece. */
  lemma {:induction false} SplitNoSeparator(w: string, sep: char)
    requires sep !in w
    ensures Split(w, sep) == [w]
    decreases |w|
  {
    if |w| > 0 {
      SplitNoSeparator(w[1..], sep);
      assert w == [w[0]] + w[1..];
    }
  }

  /** Splitting `w + sep + rest`, where `w` has no separator, yields `w` first. */
  lemma {:induction false} SplitFirstPiece(w: string, rest: string, sep: char)
    requires sep !in w
    ensures Split(w + [sep] + rest, sep) == [w] + Split(rest, sep)
    decreases |w|
  {
    var s := w + [sep] + rest;
    if |w| == 0 {
      assert s[1..] == rest;
    } else {
      assert s[1..] == w[1..] + [sep] + rest;
      SplitFirstPiece(w[1..], rest, sep);
      assert w == [w[0]] + w[1..];
    }
  }

  /**
   The other round trip: pieces without the separator, joined and split
   again, come back unchanged. With `JoinSplit` this makes `Split` the
   inverse of `Join`.
   */
  lemma {:induction false} SplitJoin(pieces: seq<string>, sep: char)
    requires |pieces| >= 1
    requires forall k :: 0 <= k < |pieces| ==> sep !in pieces[k]
    ensures Split(Join(pieces, sep), sep) == pieces
    decreases |pieces|
  {
    if |pieces| == 1 {
      SplitNoSeparator(pieces[0], sep);
    } else {
      SplitJoin(pieces[1..], sep);
      SplitFirstPiece(pieces[0], Join(pieces[1..], sep), sep);
      assert pieces == [pieces[0]] + pieces[1..];
    }
  }

  /** The number of pieces is one more than the number of separators. */
  lemma {:induction false} SplitCount(s: string, sep: char)
    ensures |Split(s, sep)| == multiset(s)[sep] + 1
    decreases |s|
  {
    if |s| > 0 {
      SplitCount(s[1..], sep);
      assert s == [s[0]] + s[1..];
      assert multiset(s) == multiset([s[0]]) + multiset(s[1..]);
    }
  }

  /**
   A string cut at its first `sep`: when neither left part contains `sep`,
   equal joined strings have equal parts.
   */
  lemma CutAtSeparator(a: string, x: string, b: string, y: string, sep: char)
    requires sep !in a && sep !in b
    requires a + [sep] + x == b + [sep] + y
    ensures a == b && x == y
  {
    var m := a + [sep] + x;
    IndexOfFirst(a, x, sep);
    IndexOfFirst(b, y, sep);
    assert a == m[..|a|];
    assert b == m[..|b|];
    assert x == m[|a| + 1..];
    assert y == m[|b| + 1..];
  }

  /** Position of the first `c` in `s`, or `|s|` when there is none. */
  function IndexOf(s: string, c: char): (r: nat)
    ensures r <= |s|
    decreases |s|
  {
    if |s| == 0 then 0
    else if s[0] == c then 0
    else 1 + IndexOf(s[1..], c)
  }

  lemma {:induction false} IndexOfFirst(a: string, x: string, c: char)
    requires c !in a
    ensures IndexOf(a + [c] + x, c) == |a|
    decreases |a|
  {
    if |a| > 0 {
      assert (a + [c] + x)[1..] == a[1..] + [c] + x;
      IndexOfFirst(a[1..], x, c);
    }
  }

  /** A string that occurs in `s` brings its first character with it. */
  lemma ContainsFirstChar(s: string, t: string)
    requires Contains(s, t) && |t| > 0
    ensures t[0] in s
  {
    var i: nat :| i + |t| <= |s| && OccursAt(s, i, t);
    assert s[i] == s[i..i + |t|][0];
  }
}
