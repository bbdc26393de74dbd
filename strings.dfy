/** The JavaScript string operations the client and the task provider rely on:
    `trim`, `split` on a one-character separator, `lastIndexOf`, `toLowerCase`
    (ASCII letters only) and `filter(Boolean)` over a list of strings. */
module Strings {

  /** The characters `String.prototype.trim` removes: the ECMAScript WhiteSpace
      and LineTerminator code points. */
  predicate IsWhitespace(c: char) {
    c == '\t' || c == '\n' || c == '\U{B}' || c == '\U{C}' || c == '\r' || c == ' '
    || c == '\U{A0}' || c == '\U{1680}' || ('\U{2000}' <= c <= '\U{200A}')
    || c == '\U{2028}' || c == '\U{2029}' || c == '\U{202F}' || c == '\U{205F}'
    || c == '\U{3000}' || c == '\U{FEFF}'
  }

  predicate AllWhitespace(s: string) {
    forall i :: 0 <= i < |s| ==> IsWhitespace(s[i])
  }

  /** Neither end of `s` is whitespace. */
  predicate IsTrimmed(s: string) {
    s == [] || (!IsWhitespace(s[0]) && !IsWhitespace(s[|s| - 1]))
  }

  function TrimStart(s: string): string {
    if s != [] && IsWhitespace(s[0]) then TrimStart(s[1..]) else s
  }

  function TrimEnd(s: string): string {
    if s != [] && IsWhitespace(s[|s| - 1]) then TrimEnd(s[..|s| - 1]) else s
  }

  /** `s.trim()`: `s` without the whitespace at either end. */
  function Trim(s: string): string {
    TrimEnd(TrimStart(s))
  }

  /** `trimStart` drops whitespace only, and what it keeps does not start
      with whitespace. */
  lemma {:induction false} TrimStartProperties(s: string)
    ensures var r := TrimStart(s);
            && |r| <= |s| && r == s[|s| - |r|..]
            && AllWhitespace(s[..|s| - |r|])
            && (r != [] ==> !IsWhitespace(r[0]))
  {
    if s != [] && IsWhitespace(s[0]) {
      TrimStartProperties(s[1..]);
      var r := TrimStart(s);
      assert s[1..][|s| - 1 - |r|..] == s[|s| - |r|..];
      assert s[..|s| - |r|] == [s[0]] + s[1..][..|s| - 1 - |r|];
    } else {
      assert s[..0] == [];
    }
  }

  /** `trimEnd` drops whitespace only, and what it keeps does not end with
      whitespace. */
  lemma {:induction false} TrimEndProperties(s: string)
    ensures var r := TrimEnd(s);
            && |r| <= |s| && r == s[..|r|]
            && AllWhitespace(s[|r|..])
            && (r != [] ==> !IsWhitespace(r[|r| - 1]))
  {
    if s != [] && IsWhitespace(s[|s| - 1]) {
      var n := |s| - 1;
      TrimEndProperties(s[..n]);
      var r := TrimEnd(s);
      assert s[..n][..|r|] == s[..|r|];
      assert s[|r|..] == s[..n][|r|..] + [s[n]];
    } else {
      assert s[|s|..] == [];
    }
  }

  /** What `trim` keeps has whitespace at neither end and is no longer than `s`. */
  lemma TrimIsTrimmed(s: string)
    ensures IsTrimmed(Trim(s)) && |Trim(s)| <= |s|
  {
    var t := TrimStart(s);
    var r := TrimEnd(t);
    TrimStartProperties(s);
    TrimEndProperties(t);
    assert r != [] ==> r[0] == t[0];
  }

  /** What `trim` keeps is an infix of `s` and what it drops at either end
      is whitespace. */
  lemma TrimIsInfix(s: string)
    ensures exists i, j :: 0 <= i <= j <= |s| && Trim(s) == s[i..j]
                           && AllWhitespace(s[..i]) && AllWhitespace(s[j..])
  {
    var t := TrimStart(s);
    var r := TrimEnd(t);
    TrimStartProperties(s);
    TrimEndProperties(t);
    var i := |s| - |t|;
    assert r == s[i..i + |r|];
    assert s[i + |r|..] == t[|r|..];
  }

  /** `c.toLowerCase()` for the ASCII letters; every other character is kept. */
  function LowerChar(c: char): char {
    if 'A' <= c <= 'Z' then (c as int + 32) as char else c
  }

  predicate IsLower(s: string) {
    forall i :: 0 <= i < |s| ==> !('A' <= s[i] <= 'Z')
  }

  /** `s.toLowerCase()`, over ASCII letters. */
  function ToLower(s: string): (r: string)
    ensures |r| == |s|
    ensures forall i :: 0 <= i < |s| ==> r[i] == LowerChar(s[i])
    ensures IsLower(r)
  {
    if s == [] then [] else [LowerChar(s[0])] + ToLower(s[1..])
  }

  /** `parts.join(c)`: the pieces with one `c` between neighbours. */
  function Join(parts: seq<string>, c: char): string
    requires |parts| >= 1
  {
    if |parts| == 1 then parts[0] else parts[0] + [c] + Join(parts[1..], c)
  }

  /** `s.split(c)` for a one-character separator: the pieces between the
      occurrences of `c`; an empty string gives one empty piece. */
  function Split(s: string, c: char): (r: seq<string>)
    ensures |r| >= 1
    ensures Join(r, c) == s
    ensures forall k :: 0 <= k < |r| ==> c !in r[k]
  {
    if s == [] then [""]
    else if s[0] == c then [""] + Split(s[1..], c)
    else
      var rest := Split(s[1..], c);
      JoinExtendFirst(rest, [s[0]], c);
      [[s[0]] + rest[0]] + rest[1..]
  }

  /** Prefixing the first piece prefixes the joined string. */
  lemma {:induction false} JoinExtendFirst(parts: seq<string>, x: string, c: char)
    requires |parts| >= 1
    ensures Join([x + parts[0]] + parts[1..], c) == x + Join(parts, c)
  {
    var ps := [x + parts[0]] + parts[1..];
    assert ps[1..] == parts[1..];
  }

  /** The last piece of a join follows the last separator. */
  lemma {:induction false} JoinLast(parts: seq<string>, c: char)
    requires |parts| >= 2
    ensures Join(parts, c) == Join(parts[..|parts| - 1], c) + [c] + parts[|parts| - 1]
    decreases |parts|
  {
    if |parts| > 2 {
      JoinLast(parts[1..], c);
      assert parts[1..][..|parts| - 2] == parts[..|parts| - 1][1..];
    } else {
      assert parts[..1] == [parts[0]];
    }
  }

  /** `s.lastIndexOf(c)`: the index of the last `c` in `s`, or -1. */
  function LastIndexOf(s: string, c: char): (r: int)
    ensures -1 <= r < |s|
    ensures r >= 0 ==> s[r] == c
    ensures forall i :: r < i < |s| ==> s[i] != c
  {
    if s == [] then -1
    else if s[|s| - 1] == c then |s| - 1
    else LastIndexOf(s[..|s| - 1], c)
  }

  /** `s.slice(s.lastIndexOf(c) + 1)`: what follows the last `c`, or all of `s`. */
  function AfterLast(s: string, c: char): (r: string)
    ensures c !in r
  {
    s[LastIndexOf(s, c) + 1..]
  }

  /** What follows the last `c` is a suffix of `s`, preceded by a `c` unless
      it is all of `s`. */
  lemma AfterLastIsSuffix(s: string, c: char)
    ensures var r := AfterLast(s, c);
            && |r| <= |s| && r == s[|s| - |r|..]
            && (|r| < |s| ==> s[|s| - |r| - 1] == c)
  {
  }

  /** A suffix without `c` that starts at the beginning or right after a `c`
      is exactly what follows the last `c`. */
  lemma AfterLastUnique(s: string, c: char, t: string)
    requires |t| <= |s| && t == s[|s| - |t|..] && c !in t
    requires |t| < |s| ==> s[|s| - |t| - 1] == c
    ensures t == AfterLast(s, c)
  {
    var l := LastIndexOf(s, c);
    if l >= |s| - |t| {
      assert false;
    }
  }

  /** `s.split(c).pop()` is `s.slice(s.lastIndexOf(c) + 1)`. */
  lemma SplitLastIsAfterLast(s: string, c: char)
    ensures Split(s, c)[|Split(s, c)| - 1] == AfterLast(s, c)
  {
    var ps := Split(s, c);
    var last := ps[|ps| - 1];
    if |ps| == 1 {
      AfterLastUnique(s, c, last);
    } else {
      JoinLast(ps, c);
      var pre := Join(ps[..|ps| - 1], c);
      assert s == pre + [c] + last;
      assert s[|s| - |last|..] == last;
      assert s[|s| - |last| - 1] == c;
      AfterLastUnique(s, c, last);
    }
  }

  /** `s.split(c)[0]`: what precedes the first `c`, or all of `s`. */
  function BeforeFirst(s: string, c: char): (r: string)
    ensures c !in r
    ensures |r| <= |s| && r == s[..|r|]
    ensures |r| < |s| ==> s[|r|] == c
  {
    var ps := Split(s, c);
    assert ps == [ps[0]] + ps[1..];
    ps[0]
  }

  /** All characters of `s` that are not `c`, in order. */
  function Remove(s: string, c: char): (r: string)
    ensures c !in r
    ensures |r| <= |s|
  {
    if s == [] then [] else (if s[0] == c then [] else [s[0]]) + Remove(s[1..], c)
  }

  function Concat(parts: seq<string>): string {
    if parts == [] then [] else parts[0] + Concat(parts[1..])
  }

  /** `parts.filter(Boolean)`: the non-empty strings, in order. */
  function NonEmpty(parts: seq<string>): (r: seq<string>)
    ensures "" !in r
    ensures |r| <= |parts|
    ensures forall x :: x in r <==> x in parts && x != ""
    ensures Concat(r) == Concat(parts)
  {
    if parts == [] then []
    else if parts[0] == "" then NonEmpty(parts[1..])
    else [parts[0]] + NonEmpty(parts[1..])
  }

  /** Splitting drops exactly the separators: the pieces put back together
      are the input without its `c` characters. */
  lemma {:induction false} ConcatSplit(s: string, c: char)
    ensures Concat(Split(s, c)) == Remove(s, c)
  {
    if s == [] {
    } else if s[0] == c {
      ConcatSplit(s[1..], c);
      assert Split(s, c)[1..] == Split(s[1..], c);
    } else {
      ConcatSplit(s[1..], c);
      var rest := Split(s[1..], c);
      var ps := [[s[0]] + rest[0]] + rest[1..];
      assert ps[1..] == rest[1..];
      assert Concat(rest) == rest[0] + Concat(rest[1..]);
    }
  }

  /** `n` spaces. */
  function Spaces(n: nat): (r: string)
    ensures |r| == n && forall i :: 0 <= i < n ==> r[i] == ' '
  {
    if n == 0 then [] else [' '] + Spaces(n - 1)
  }

  /** The words with `gaps[i]` spaces before the i-th word and `gaps[|words|]`
      spaces after the last. */
  function Interleave(words: seq<string>, gaps: seq<nat>): string
    requires |gaps| == |words| + 1
  {
    Spaces(gaps[0]) + (if words == [] then [] else words[0] + Interleave(words[1..], gaps[1..]))
  }

  /** `s` is `words` separated by the given numbers of spaces, at least one
      between neighbours, and no word is empty or holds a space. */
  predicate WordsWithGaps(words: seq<string>, s: string, gaps: seq<nat>) {
    && (forall k :: 0 <= k < |words| ==> words[k] != "" && ' ' !in words[k])
    && |gaps| == |words| + 1
    && (forall k :: 0 < k < |words| ==> gaps[k] >= 1)
    && Interleave(words, gaps) == s
  }

  /** `words` are the maximal runs of characters other than ' ' in `s`, in
      order: `s` is the words separated by at least one space, with any
      number of spaces at either end. */
  ghost predicate AreWords(words: seq<string>, s: string) {
    exists gaps: seq<nat> :: WordsWithGaps(words, s, gaps)
  }

  /** The numbers of spaces around the words of joined parts. */
  function PartGaps(parts: seq<string>): (g: seq<nat>)
    requires |parts| >= 1
    ensures |g| >= 1
  {
    if |parts| == 1 then (if parts[0] == "" then [0] else [0, 0])
    else
      var g1 := PartGaps(parts[1..]);
      var h := g1[0 := g1[0] + 1];
      if parts[0] == "" then h else [0] + h
  }

  /** `s.split(' ').filter(Boolean)` gives the words of `s`. */
  lemma SplitNonEmptyAreWords(s: string)
    ensures AreWords(NonEmpty(Split(s, ' ')), s)
  {
    var parts := Split(s, ' ');
    PartsNonEmptyAreWords(parts);
    assert WordsWithGaps(NonEmpty(parts), s, PartGaps(parts));
  }

  /** One more leading space. */
  lemma InterleaveBump(words: seq<string>, gaps: seq<nat>)
    requires |gaps| == |words| + 1
    ensures Interleave(words, gaps[0 := gaps[0] + 1]) == [' '] + Interleave(words, gaps)
  {
    var h := gaps[0 := gaps[0] + 1];
    assert Spaces(gaps[0] + 1) == [' '] + Spaces(gaps[0]);
    if words != [] {
      assert h[1..] == gaps[1..];
    }
  }

  /** A word in front, with no space before it. */
  lemma InterleaveCons(w: string, words: seq<string>, gaps: seq<nat>)
    requires |gaps| == |words| + 1
    ensures Interleave([w] + words, [0] + gaps) == w + Interleave(words, gaps)
  {
    assert ([w] + words)[1..] == words;
    assert ([0] + gaps)[1..] == gaps;
  }

  /** An empty part in front adds one leading space and no word. */
  lemma WordsAfterSpace(r1: seq<string>, j: string, g1: seq<nat>)
    requires WordsWithGaps(r1, j, g1)
    ensures WordsWithGaps(r1, [' '] + j, g1[0 := g1[0] + 1])
  {
    InterleaveBump(r1, g1);
  }

  /** A non-empty part in front is one more word, followed by at least one space. */
  lemma WordBeforeSpace(w: string, r1: seq<string>, j: string, g1: seq<nat>)
    requires w != "" && ' ' !in w
    requires WordsWithGaps(r1, j, g1)
    ensures WordsWithGaps([w] + r1, w + [' '] + j, [0] + g1[0 := g1[0] + 1])
  {
    var h := g1[0 := g1[0] + 1];
    InterleaveBump(r1, g1);
    InterleaveCons(w, r1, h);
    var r := [w] + r1;
    forall k | 0 <= k < |r| ensures r[k] != "" && ' ' !in r[k] {
      if k > 0 {
        assert r[k] == r1[k - 1];
      }
    }
  }

  /** The words of the joined parts: the parts with a space between
      neighbours, empty ones dropped. */
  lemma {:induction false} PartsNonEmptyAreWords(parts: seq<string>)
    requires |parts| >= 1
    requires forall k :: 0 <= k < |parts| ==> ' ' !in parts[k]
    ensures WordsWithGaps(NonEmpty(parts), Join(parts, ' '), PartGaps(parts))
  {
    if |parts| == 1 {
      if parts[0] != "" {
        InterleaveCons(parts[0], [], [0]);
      }
    } else {
      var rest := parts[1..];
      assert forall k :: 0 <= k < |rest| ==> rest[k] == parts[k + 1];
      PartsNonEmptyAreWords(rest);
      var r1 := NonEmpty(rest);
      var g1 := PartGaps(rest);
      assert Join(parts, ' ') == parts[0] + [' '] + Join(rest, ' ');
      if parts[0] == "" {
        assert NonEmpty(parts) == r1;
        WordsAfterSpace(r1, Join(rest, ' '), g1);
      } else {
        assert NonEmpty(parts) == [parts[0]] + r1;
        WordBeforeSpace(parts[0], r1, Join(rest, ' '), g1);
      }
    }
  }

  /** Empty or starting with a space. */
  predicate SpaceOrEnd(x: string) {
    x == [] || x[0] == ' '
  }

  /** The index of the first ' ' in `s`, or `|s|`. */
  function FirstSpace(s: string): (r: nat)
    ensures r <= |s|
  {
    if s == [] || s[0] == ' ' then 0 else 1 + FirstSpace(s[1..])
  }

  /** The number of spaces `s` starts with. */
  function LeadingSpaceCount(s: string): (r: nat)
    ensures r <= |s|
  {
    if s != [] && s[0] == ' ' then 1 + LeadingSpaceCount(s[1..]) else 0
  }

  lemma {:induction false} FirstSpaceAfterWord(a: string, x: string)
    requires ' ' !in a && SpaceOrEnd(x)
    ensures FirstSpace(a + x) == |a|
  {
    if a != [] {
      assert a[0] in a;
      assert (a + x)[1..] == a[1..] + x;
      FirstSpaceAfterWord(a[1..], x);
    } else {
      assert a + x == x;
    }
  }

  lemma {:induction false} LeadingSpacesBeforeWord(m: nat, u: string)
    requires u != [] && u[0] != ' '
    ensures LeadingSpaceCount(Spaces(m) + u) == m
  {
    if m > 0 {
      assert (Spaces(m) + u)[1..] == Spaces(m - 1) + u;
      LeadingSpacesBeforeWord(m - 1, u);
    } else {
      assert Spaces(m) + u == u;
    }
  }

  /** A space-free word followed by a space or nothing is determined. */
  lemma LeadingWord(a: string, x: string, b: string, y: string)
    requires ' ' !in a && ' ' !in b && SpaceOrEnd(x) && SpaceOrEnd(y)
    requires a + x == b + y
    ensures a == b
  {
    FirstSpaceAfterWord(a, x);
    FirstSpaceAfterWord(b, y);
    assert a == (a + x)[..|a|] && b == (b + y)[..|b|];
  }

  /** The number of leading spaces before a non-space is determined. */
  lemma LeadingSpaces(m: nat, u: string, n: nat, v: string)
    requires u != [] && u[0] != ' ' && v != [] && v[0] != ' '
    requires Spaces(m) + u == Spaces(n) + v
    ensures m == n && u == v
  {
    LeadingSpacesBeforeWord(m, u);
    LeadingSpacesBeforeWord(n, v);
    assert u == (Spaces(m) + u)[m..] && v == (Spaces(n) + v)[n..];
  }

  /** A string has no words exactly when it is all spaces. */
  lemma NoWordsIffSpaces(words: seq<string>, s: string, gaps: seq<nat>)
    requires WordsWithGaps(words, s, gaps)
    ensures words == [] <==> forall i :: 0 <= i < |s| ==> s[i] == ' '
  {
    if words != [] {
      assert s[gaps[0]] == words[0][0];
      assert words[0][0] in words[0];
    }
  }

  /** What follows the first word is the rest separated likewise. */
  lemma WordsTail(words: seq<string>, s: string, gaps: seq<nat>)
    requires WordsWithGaps(words, s, gaps) && words != []
    ensures WordsWithGaps(words[1..], Interleave(words[1..], gaps[1..]), gaps[1..])
    ensures SpaceOrEnd(Interleave(words[1..], gaps[1..]))
  {
    var w := words[1..];
    var g := gaps[1..];
    forall k | 0 <= k < |w| ensures w[k] != "" && ' ' !in w[k] {
      assert w[k] == words[k + 1];
    }
    forall k | 0 < k < |w| ensures g[k] >= 1 {
      assert g[k] == gaps[k + 1];
    }
    if w != [] {
      assert g[0] == gaps[1] >= 1;
      assert Interleave(w, g)[0] == Spaces(g[0])[0];
    } else if g[0] > 0 {
      assert Interleave(w, g)[0] == Spaces(g[0])[0];
    }
  }

  /** The words of a string are unique: they are its maximal runs of
      characters other than ' '. */
  lemma {:induction false} WordsUnique(w1: seq<string>, g1: seq<nat>, w2: seq<string>, g2: seq<nat>, s: string)
    requires WordsWithGaps(w1, s, g1) && WordsWithGaps(w2, s, g2)
    ensures w1 == w2
    decreases |w1|
  {
    NoWordsIffSpaces(w1, s, g1);
    NoWordsIffSpaces(w2, s, g2);
    if w1 != [] {
      var t1 := Interleave(w1[1..], g1[1..]);
      var t2 := Interleave(w2[1..], g2[1..]);
      WordsTail(w1, s, g1);
      WordsTail(w2, s, g2);
      assert s == Spaces(g1[0]) + (w1[0] + t1);
      assert s == Spaces(g2[0]) + (w2[0] + t2);
      LeadingSpaces(g1[0], w1[0] + t1, g2[0], w2[0] + t2);
      LeadingWord(w1[0], t1, w2[0], t2);
      assert w1[0] + t1 == w2[0] + t2;
      assert t1 == (w1[0] + t1)[|w1[0]|..] && t2 == (w2[0] + t2)[|w2[0]|..];
      WordsUnique(w1[1..], g1[1..], w2[1..], g2[1..], t1);
      assert w1 == [w1[0]] + w1[1..] && w2 == [w2[0]] + w2[1..];
    }
  }
}
