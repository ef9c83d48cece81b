/**
 * String helpers shared by the models: JavaScript's `toLowerCase` (restricted to
 * ASCII), the ordering of JavaScript's `<` on strings, `Array.prototype.join`,
 * and `String.prototype.split(/\s+/)`.
 */
module Strings {

  // ---------------------------------------------------------------------------
  // Lower-casing
  // ---------------------------------------------------------------------------

  function LowerChar(c: char): char {
    if 'A' <= c <= 'Z' then (c as int + 32) as char else c
  }

  /** `s.toLowerCase()`, for the ASCII letters. */
  function Lower(s: string): (r: string)
    ensures |r| == |s|
    ensures forall i :: 0 <= i < |s| ==> r[i] == LowerChar(s[i])
    ensures forall i :: 0 <= i < |r| ==> !('A' <= r[i] <= 'Z')
  {
    seq(|s|, i requires 0 <= i < |s| => LowerChar(s[i]))
  }

  lemma LowerIdempotent(s: string)
    ensures Lower(Lower(s)) == Lower(s)
  {
    assert forall i :: 0 <= i < |s| ==> LowerChar(LowerChar(s[i])) == LowerChar(s[i]);
  }

  // ---------------------------------------------------------------------------
  // Lexicographic order (JavaScript's `<=` on strings of one code unit per char)
  // ---------------------------------------------------------------------------

  predicate LexLe(a: string, b: string) {
    if |a| == 0 then true
    else if |b| == 0 then false
    else if a[0] != b[0] then a[0] < b[0]
    else LexLe(a[1..], b[1..])
  }

  lemma {:induction false} LexLeReflexive(a: string)
    ensures LexLe(a, a)
  {
    if |a| > 0 { LexLeReflexive(a[1..]); }
  }

  lemma {:induction false} LexLeTotal(a: string, b: string)
    ensures LexLe(a, b) || LexLe(b, a)
  {
    if |a| > 0 && |b| > 0 && a[0] == b[0] { LexLeTotal(a[1..], b[1..]); }
  }

  lemma {:induction false} LexLeAntisymmetric(a: string, b: string)
    requires LexLe(a, b) && LexLe(b, a)
    ensures a == b
  {
    if |a| > 0 && |b| > 0 {
      LexLeAntisymmetric(a[1..], b[1..]);
      assert a == [a[0]] + a[1..];
      assert b == [b[0]] + b[1..];
    }
  }

  lemma {:induction false} LexLeTransitive(a: string, b: string, c: string)
    requires LexLe(a, b) && LexLe(b, c)
    ensures LexLe(a, c)
  {
    if |a| > 0 && |b| > 0 && |c| > 0 && a[0] == b[0] && b[0] == c[0] {
      LexLeTransitive(a[1..], b[1..], c[1..]);
    }
  }

  // ---------------------------------------------------------------------------
  // Array.prototype.join
  // ---------------------------------------------------------------------------

  /** `parts.join(sep)`. */
  function Join(parts: seq<string>, sep: string): string {
    if |parts| == 0 then ""
    else if |parts| == 1 then parts[0]
    else parts[0] + sep + Join(parts[1..], sep)
  }

  lemma JoinCons(head: string, tail: seq<string>, sep: string)
    requires |tail| > 0
    ensures Join([head] + tail, sep) == head + sep + Join(tail, sep)
  {
    assert ([head] + tail)[1..] == tail;
  }

  /** Prepending to the first part prepends to the joined string. */
  lemma {:induction false} JoinPrependFirst(c: string, parts: seq<string>, sep: string)
    requires |parts| > 0
    ensures Join([c + parts[0]] + parts[1..], sep) == c + Join(parts, sep)
  {
    if |parts| > 1 {
      JoinCons(c + parts[0], parts[1..], sep);
      JoinCons(parts[0], parts[1..], sep);
      assert parts == [parts[0]] + parts[1..];
    }
  }

  /** Appending a part appends it, after a separator, to the joined string. */
  lemma {:induction false} JoinSnoc(parts: seq<string>, last: string, sep: string)
    requires |parts| > 0
    ensures Join(parts + [last], sep) == Join(parts, sep) + sep + last
  {
    if |parts| == 1 {
      assert (parts + [last])[1..] == [last];
    } else {
      assert (parts + [last])[1..] == parts[1..] + [last];
      JoinSnoc(parts[1..], last, sep);
    }
  }

  // ---------------------------------------------------------------------------
  // String.prototype.split(/\s+/)
  // ---------------------------------------------------------------------------

  /** The characters matched by the JavaScript regular-expression class `\s`. */
  predicate IsWhitespace(c: char) {
    c == ' ' || c == '\t' || c == '\n' || c == '\r' || c == '\U{000B}' || c == '\U{000C}'
    || c == '\U{00A0}' || c == '\U{1680}' || ('\U{2000}' <= c <= '\U{200A}')
    || c == '\U{2028}' || c == '\U{2029}' || c == '\U{202F}' || c == '\U{205F}'
    || c == '\U{3000}' || c == '\U{FEFF}'
  }

  predicate NoWhitespace(s: string) {
    forall i :: 0 <= i < |s| ==> !IsWhitespace(s[i])
  }

  /** The string without its leading run of whitespace. */
  function DropWhitespace(s: string): (r: string)
    ensures |r| <= |s|
    ensures |s| > 0 && IsWhitespace(s[0]) ==> |r| < |s|
    ensures |r| > 0 ==> !IsWhitespace(r[0])
    ensures r == s[|s| - |r|..]
  {
    if |s| > 0 && IsWhitespace(s[0]) then DropWhitespace(s[1..]) else s
  }

  /**
   * `s.split(/\s+/)`: the pieces between maximal runs of whitespace. A leading
   * (trailing) run yields an empty first (last) piece, and `""` splits into `[""]`.
   */
  function SplitWhitespace(s: string): (r: seq<string>)
    ensures |r| >= 1
    decreases |s|
  {
    if |s| == 0 then [""]
    else if IsWhitespace(s[0]) then [""] + SplitWhitespace(DropWhitespace(s))
    else
      var rest := SplitWhitespace(s[1..]);
      [[s[0]] + rest[0]] + rest[1..]
  }

  /** No piece of the split contains whitespace. */
  lemma {:induction false} SplitPiecesHaveNoWhitespace(s: string)
    ensures forall k :: 0 <= k < |SplitWhitespace(s)| ==> NoWhitespace(SplitWhitespace(s)[k])
    decreases |s|
  {
    if |s| == 0 {
    } else if IsWhitespace(s[0]) {
      SplitPiecesHaveNoWhitespace(DropWhitespace(s));
    } else {
      SplitPiecesHaveNoWhitespace(s[1..]);
      var rest := SplitWhitespace(s[1..]);
      assert NoWhitespace(rest[0]);
      assert NoWhitespace([s[0]] + rest[0]);
    }
  }

  /** Whitespace runs that are single spaces, and no leading space after a space. */
  predicate SingleSpaced(s: string) {
    forall i :: 0 <= i < |s| && IsWhitespace(s[i]) ==>
      s[i] == ' ' && (i + 1 < |s| ==> !IsWhitespace(s[i + 1]))
  }

  lemma SingleSpacedTail(s: string)
    requires |s| > 0 && SingleSpaced(s)
    ensures SingleSpaced(s[1..])
  {
    forall i | 0 <= i < |s[1..]| && IsWhitespace(s[1..][i])
      ensures s[1..][i] == ' ' && (i + 1 < |s[1..]| ==> !IsWhitespace(s[1..][i + 1]))
    {
      assert s[1..][i] == s[i + 1];
    }
  }

  /** A single space followed by a single-spaced string splits off an empty first piece. */
  lemma JoinSplitAfterSpace(s: string)
    requires |s| > 0 && IsWhitespace(s[0]) && SingleSpaced(s)
    requires Join(SplitWhitespace(s[1..]), " ") == s[1..]
    ensures Join(SplitWhitespace(s), " ") == s
  {
    assert s[0] == ' ';
    assert DropWhitespace(s) == s[1..] by {
      if |s| > 1 { assert !IsWhitespace(s[1]); }
    }
    JoinCons("", SplitWhitespace(s[1..]), " ");
    assert s == " " + s[1..];
  }

  /** A character that is not whitespace joins onto the first piece. */
  lemma JoinSplitAfterChar(s: string)
    requires |s| > 0 && !IsWhitespace(s[0])
    requires Join(SplitWhitespace(s[1..]), " ") == s[1..]
    ensures Join(SplitWhitespace(s), " ") == s
  {
    JoinPrependFirst([s[0]], SplitWhitespace(s[1..]), " ");
    assert s == [s[0]] + s[1..];
  }

  /** Joining the pieces with one space gives back a single-spaced string. */
  lemma {:induction false} JoinSplitWhitespace(s: string)
    requires SingleSpaced(s)
    ensures Join(SplitWhitespace(s), " ") == s
    decreases |s|
  {
    if |s| > 0 {
      SingleSpacedTail(s);
      JoinSplitWhitespace(s[1..]);
      if IsWhitespace(s[0]) {
        JoinSplitAfterSpace(s);
      } else {
        JoinSplitAfterChar(s);
      }
    }
  }

  /** A whitespace-free piece followed by one space splits off as the first piece. */
  lemma {:induction false} SplitAfterWord(w: string, u: string)
    requires NoWhitespace(w)
    requires |u| == 0 || !IsWhitespace(u[0])
    ensures SplitWhitespace(w + " " + u) == [w] + SplitWhitespace(u)
    decreases |w|
  {
    if |w| == 0 {
      assert w + " " + u == " " + u;
      assert DropWhitespace(" " + u) == u by {
        assert (" " + u)[1..] == u;
      }
    } else {
      assert (w + " " + u)[0] == w[0];
      assert (w + " " + u)[1..] == w[1..] + " " + u;
      SplitAfterWord(w[1..], u);
      assert [w[0]] + w[1..] == w;
    }
  }

  /** Splitting undoes joining whitespace-free, non-empty words with one space. */
  lemma {:induction false} SplitJoinWords(words: seq<string>)
    requires |words| >= 1
    requires forall k :: 0 <= k < |words| ==> NoWhitespace(words[k]) && words[k] != ""
    ensures SplitWhitespace(Join(words, " ")) == words
  {
    if |words| == 1 {
      SplitWord(words[0]);
    } else {
      var u := Join(words[1..], " ");
      assert u[0] == words[1][0] by { JoinFirstChar(words[1..]); }
      SplitAfterWord(words[0], u);
      SplitJoinWords(words[1..]);
      assert words == [words[0]] + words[1..];
    }
  }

  lemma {:induction false} SplitWord(w: string)
    requires NoWhitespace(w)
    ensures SplitWhitespace(w) == [w]
    decreases |w|
  {
    if |w| > 0 {
      SplitWord(w[1..]);
      assert [w[0]] + w[1..] == w;
    }
  }

  lemma JoinFirstChar(words: seq<string>)
    requires |words| >= 1 && words[0] != ""
    ensures |Join(words, " ")| > 0 && Join(words, " ")[0] == words[0][0]
  {
  }

  /**
   * `s.split(sep)` for a one-character separator: the pieces between the
   * separators, so `""` splits into `[""]`.
   */
  function Split(s: string, sep: char): (r: seq<string>)
    ensures |r| >= 1
    ensures forall k :: 0 <= k < |r| ==> sep !in r[k]
  {
    if |s| == 0 then [""]
    else if s[0] == sep then [""] + Split(s[1..], sep)
    else
      var rest := Split(s[1..], sep);
      [[s[0]] + rest[0]] + rest[1..]
  }

  lemma {:induction false} SplitPiece(w: string, sep: char)
    requires sep !in w
    ensures Split(w, sep) == [w]
    decreases |w|
  {
    if |w| > 0 {
      SplitPiece(w[1..], sep);
      assert [w[0]] + w[1..] == w;
    }
  }

  /** A piece without the separator, then the separator, splits off as the first piece. */
  lemma {:induction false} SplitAfterPiece(w: string, sep: char, u: string)
    requires sep !in w
    ensures Split(w + [sep] + u, sep) == [w] + Split(u, sep)
    decreases |w|
  {
    if |w| == 0 {
      assert w + [sep] + u == [sep] + u;
      assert ([sep] + u)[1..] == u;
    } else {
      assert (w + [sep] + u)[0] == w[0];
      assert (w + [sep] + u)[1..] == w[1..] + [sep] + u;
      SplitAfterPiece(w[1..], sep, u);
      assert [w[0]] + w[1..] == w;
    }
  }

  /** Splitting undoes joining pieces that do not contain the separator. */
  lemma {:induction false} SplitJoin(parts: seq<string>, sep: char)
    requires |parts| >= 1
    requires forall k :: 0 <= k < |parts| ==> sep !in parts[k]
    ensures Split(Join(parts, [sep]), sep) == parts
  {
    if |parts| == 1 {
      SplitPiece(parts[0], sep);
    } else {
      SplitAfterPiece(parts[0], sep, Join(parts[1..], [sep]));
      SplitJoin(parts[1..], sep);
      assert parts == [parts[0]] + parts[1..];
    }
  }

  // ---------------------------------------------------------------------------
  // Substrings
  // ---------------------------------------------------------------------------

  /** `t` occurs somewhere in `s`. */
  predicate Contains(s: string, t: string) {
    exists i, j :: 0 <= i <= j <= |s| && s[i..j] == t
  }

  lemma ContainsMiddle(p: string, t: string, q: string)
    ensures Contains(p + t + q, t)
  {
    assert (p + t + q)[|p|..|p| + |t|] == t;
  }

  lemma ContainsPrefix(t: string, q: string)
    ensures Contains(t + q, t)
  {
    assert (t + q)[0..|t|] == t;
  }

  lemma ContainsSuffix(p: string, t: string)
    ensures Contains(p + t, t)
  {
    assert (p + t)[|p|..|p| + |t|] == t;
  }

  /** A text made of pieces starts with its first pieces. */
  lemma PrefixOfConcat(a: string, b: string, c: string)
    requires a <= b
    ensures a <= b + c
  {
    assert (b + c)[..|b|] == b;
  }

  /** A text made of pieces ends with its last piece. */
  lemma SuffixOfConcat(a: string, b: string, c: string)
    ensures |a + (b + c)| >= |c| && (a + (b + c))[|a + (b + c)| - |c|..] == c
  {
    assert a + (b + c) == (a + b) + c;
  }

  /** Whatever a piece contains, a text made from that piece contains too. */
  lemma ContainsTransitive(s: string, t: string, u: string)
    requires Contains(s, t) && Contains(t, u)
    ensures Contains(s, u)
  {
    var i, j :| 0 <= i <= j <= |s| && s[i..j] == t;
    var k, l :| 0 <= k <= l <= |t| && t[k..l] == u;
    forall m | 0 <= m < l - k ensures s[i + k..i + l][m] == u[m] {
      assert u[m] == t[k + m] == s[i..j][k + m] == s[i + k + m];
    }
    assert s[i + k..i + l] == u;
  }
}
