/** ASCII string primitives standing for the Python `str` methods the source
    calls: `isdigit`, `startswith`, `lower`, `strip`, `title`, `split()` and
    `" ".join`. Unicode behaviour is not modelled: only ASCII digits, letters
    and whitespace are recognised. */
module Text {

  predicate IsDigit(c: char)
  {
    '0' <= c <= '9'
  }

  predicate AllDigits(s: string)
  {
    forall i :: 0 <= i < |s| ==> IsDigit(s[i])
  }

  /** Python `str.isdigit()`: false on the empty string. */
  predicate IsDigitString(s: string)
  {
    |s| > 0 && AllDigits(s)
  }

  predicate IsUpper(c: char)
  {
    'A' <= c <= 'Z'
  }

  predicate IsLower(c: char)
  {
    'a' <= c <= 'z'
  }

  predicate IsLetter(c: char)
  {
    IsUpper(c) || IsLower(c)
  }

  predicate AllLetters(s: string)
  {
    forall i :: 0 <= i < |s| ==> IsLetter(s[i])
  }

  /** Python `str.startswith`. */
  predicate StartsWith(s: string, prefix: string)
  {
    |prefix| <= |s| && s[..|prefix|] == prefix
  }

  function LowerChar(c: char): char
  {
    if IsUpper(c) then (c as int + 32) as char else c
  }

  function UpperChar(c: char): char
  {
    if IsLower(c) then (c as int - 32) as char else c
  }

  /** Python `str.lower()` on ASCII. */
  function Lower(s: string): (r: string)
    ensures |r| == |s|
    ensures forall i :: 0 <= i < |s| ==> r[i] == LowerChar(s[i])
  {
    seq(|s|, i requires 0 <= i < |s| => LowerChar(s[i]))
  }

  /** Lower-casing twice is lower-casing once. */
  lemma LowerIdempotent(s: string)
    ensures Lower(Lower(s)) == Lower(s)
  {
    assert forall i :: 0 <= i < |s| ==> LowerChar(LowerChar(s[i])) == LowerChar(s[i]);
  }

  /** The whitespace characters of Python's `str.split()` and `str.strip()`
      (ASCII part). */
  predicate IsSpace(c: char)
  {
    c == ' ' || c == '\t' || c == '\n' || c == '\r' || c == '\U{0B}' || c == '\U{0C}'
    || c == '\U{1C}' || c == '\U{1D}' || c == '\U{1E}' || c == '\U{1F}'
  }

  predicate NoSpace(s: string)
  {
    forall i :: 0 <= i < |s| ==> !IsSpace(s[i])
  }

  function TrimLeft(s: string): (r: string)
    ensures |r| <= |s| && r == s[|s| - |r|..]
    ensures r == [] || !IsSpace(r[0])
  {
    if s != [] && IsSpace(s[0]) then TrimLeft(s[1..]) else s
  }

  function TrimRight(s: string): (r: string)
    ensures |r| <= |s| && r == s[..|r|]
    ensures r == [] || !IsSpace(r[|r| - 1])
  {
    if s != [] && IsSpace(s[|s| - 1]) then TrimRight(s[..|s| - 1]) else s
  }

  /** Python `str.strip()`: drop leading and trailing whitespace. */
  function Strip(s: string): (r: string)
    ensures r == [] || (!IsSpace(r[0]) && !IsSpace(r[|r| - 1]))
  {
    TrimRight(TrimLeft(s))
  }

  /** A string without whitespace is its own strip. */
  lemma StripNoSpace(s: string)
    requires NoSpace(s)
    ensures Strip(s) == s
  {
  }

  /** Stripping only removes characters. */
  lemma StripKeepsOut(s: string, c: char)
    requires c !in s
    ensures c !in Strip(s)
  {
    var t := TrimLeft(s);
    var u := TrimRight(t);
    forall i | 0 <= i < |u| ensures u[i] != c {
      assert u[i] == t[i] == s[|s| - |t| + i];
    }
  }

  /** No whitespace at either end: what `str.strip()` leaves. */
  predicate Unpadded(s: string)
  {
    s == [] || (!IsSpace(s[0]) && !IsSpace(s[|s| - 1]))
  }

  /** Stripping one trailing space off an unpadded string gives the string. */
  lemma StripTrailingSpace(s: string)
    requires Unpadded(s)
    ensures Strip(s + " ") == s
  {
    if s == [] {
      assert TrimLeft(" ") == TrimLeft(" "[1..]);
    } else {
      assert (s + " ")[0] == s[0];
      assert TrimLeft(s + " ") == s + " ";
      assert (s + " ")[..|s + " "| - 1] == s;
      assert TrimRight(s + " ") == TrimRight(s);
    }
  }

  /** Stripping one leading space off an unpadded string gives the string. */
  lemma StripLeadingSpace(s: string)
    requires Unpadded(s)
    ensures Strip(" " + s) == s
  {
    assert (" " + s)[1..] == s;
    assert TrimLeft(" " + s) == TrimLeft(s);
  }

  /** Python `str.title()` on ASCII: a letter is upper-cased when the
      character before it is not a letter, lower-cased otherwise. */
  function TitleFrom(s: string, afterLetter: bool): (r: string)
    ensures |r| == |s|
  {
    if s == [] then []
    else
      var c := if !IsLetter(s[0]) then s[0]
               else if afterLetter then LowerChar(s[0]) else UpperChar(s[0]);
      [c] + TitleFrom(s[1..], IsLetter(s[0]))
  }

  function Title(s: string): (r: string)
    ensures |r| == |s|
  {
    TitleFrom(s, false)
  }

  /** Python `sep.join(parts)`, written so that appending a part is one step. */
  function Join(sep: string, parts: seq<string>): (r: string)
  {
    if parts == [] then ""
    else if |parts| == 1 then parts[0]
    else Join(sep, parts[..|parts| - 1]) + sep + parts[|parts| - 1]
  }

  function JoinSpace(parts: seq<string>): string
  {
    Join(" ", parts)
  }

  /** Index of the first occurrence of `c` in `s`, or -1. */
  function IndexOfChar(s: string, c: char): (k: int)
    ensures -1 <= k < |s|
    ensures k == -1 <==> c !in s
    ensures k >= 0 ==> s[k] == c && c !in s[..k]
  {
    if s == [] then -1
    else if s[0] == c then 0
    else
      var k := IndexOfChar(s[1..], c);
      assert s[1..][..if k < 0 then 0 else k] == s[1..if k < 0 then 1 else k + 1];
      if k < 0 then -1 else k + 1
  }

  /** The first occurrence of `c` in `a + b` is the start of `b` when `a`
      does not hold `c` and `b` starts with it. */
  lemma IndexOfCharAt(a: string, c: char, b: string)
    requires c !in a && b != [] && b[0] == c
    ensures IndexOfChar(a + b, c) == |a|
    decreases |a|
  {
    if a != [] {
      assert (a + b)[1..] == a[1..] + b;
      IndexOfCharAt(a[1..], c, b);
    }
  }

  /** A string is its text before position `k`, the character there, and the text after it. */
  lemma SplitAround(s: string, k: int)
    requires 0 <= k < |s|
    ensures s == s[..k] + [s[k]] + s[k + 1..]
  {
  }

  /** Index of the last occurrence of `c` in `s`, or -1. */
  function LastIndexOfChar(s: string, c: char): (k: int)
    ensures -1 <= k < |s|
    ensures k == -1 <==> c !in s
    ensures k >= 0 ==> s[k] == c && c !in s[k + 1..]
  {
    if s == [] then -1
    else if s[|s| - 1] == c then |s| - 1
    else
      var k := LastIndexOfChar(s[..|s| - 1], c);
      assert k >= 0 ==> s[k + 1..] == s[..|s| - 1][k + 1..] + [s[|s| - 1]];
      assert s == s[..|s| - 1] + [s[|s| - 1]];
      k
  }

  /** Python `str.split()` without arguments: the maximal runs of
      non-whitespace characters, in order. */
  function SplitWhitespace(s: string): (r: seq<string>)
    ensures forall i :: 0 <= i < |r| ==> r[i] != [] && NoSpace(r[i])
    decreases |s|
  {
    var t := TrimLeft(s);
    if t == [] then []
    else
      var w := Word(t);
      assert w != [] && NoSpace(w);
      var rest := SplitWhitespace(t[|w|..]);
      WordsCons(w, rest);
      [w] + rest
  }

  /** A word put in front of a list of words keeps every entry a word. */
  lemma WordsCons(w: string, rest: seq<string>)
    requires w != [] && NoSpace(w)
    requires forall i :: 0 <= i < |rest| ==> rest[i] != [] && NoSpace(rest[i])
    ensures forall i :: 0 <= i < |[w] + rest| ==> ([w] + rest)[i] != [] && NoSpace(([w] + rest)[i])
  {
    forall i | 0 <= i < |[w] + rest|
      ensures ([w] + rest)[i] != [] && NoSpace(([w] + rest)[i])
    {
      if i > 0 {
        assert ([w] + rest)[i] == rest[i - 1];
      }
    }
  }

  /** The leading run of non-whitespace characters. */
  function Word(s: string): (w: string)
    ensures |w| <= |s| && w == s[..|w|] && NoSpace(w)
    ensures |w| < |s| ==> IsSpace(s[|w|])
    ensures s != [] && !IsSpace(s[0]) ==> w != []
  {
    if s == [] || IsSpace(s[0]) then []
    else [s[0]] + Word(s[1..])
  }

  /** Joining words (non-empty, no whitespace) with single spaces and splitting
      again gives back the words. */
  lemma {:induction false} SplitJoin(words: seq<string>)
    requires forall i :: 0 <= i < |words| ==> words[i] != [] && NoSpace(words[i])
    ensures SplitWhitespace(JoinSpace(words)) == words
  {
    if words != [] {
      JoinFront(words);
      var rest := words[1..];
      if rest == [] {
        var w := words[0];
        assert JoinSpace(words) == w;
        SplitOneWord(w);
        assert words == [w];
      } else {
        assert words == [words[0]] + rest;
        var j := JoinSpace(rest);
        assert JoinSpace(words) == words[0] + (" " + j);
        SplitWordThen(words[0], " " + j);
        SplitLeadingSpace(j);
        SplitJoin(rest);
      }
    }
  }

  lemma SplitOneWord(w: string)
    requires w != [] && NoSpace(w)
    ensures SplitWhitespace(w) == [w]
  {
    SplitWordThen(w, "");
    assert w + "" == w;
    assert SplitWhitespace("") == [];
  }

  /** A word followed by whitespace (or nothing) splits off as the first token. */
  lemma SplitWordThen(w: string, rest: string)
    requires w != [] && NoSpace(w)
    requires rest == [] || IsSpace(rest[0])
    ensures SplitWhitespace(w + rest) == [w] + SplitWhitespace(rest)
  {
    WordOfPrefix(w, rest);
    assert (w + rest)[|w|..] == rest;
  }

  lemma SplitLeadingSpace(s: string)
    ensures SplitWhitespace(" " + s) == SplitWhitespace(s)
  {
    assert (" " + s)[1..] == s;
    assert TrimLeft(" " + s) == TrimLeft(s);
  }

  /** The joined string of words splits at the first word. */
  lemma {:induction false} JoinFront(words: seq<string>)
    requires words != []
    ensures JoinSpace(words) ==
      if |words| == 1 then words[0] else words[0] + " " + JoinSpace(words[1..])
    decreases |words|
  {
    if |words| > 2 {
      var init := words[..|words| - 1];
      JoinFront(init);
      assert init[1..] == words[1..][..|words[1..]| - 1];
      assert init[0] == words[0];
    } else if |words| == 2 {
      assert words[..1] == [words[0]];
      assert words[1..] == [words[1]];
      assert JoinSpace(words[..1]) == words[0];
      assert JoinSpace(words[1..]) == words[1];
    }
  }

  /** A joined string of non-empty words does not start with whitespace. */
  lemma JoinFirstNotSpace(words: seq<string>)
    requires words != []
    requires forall i :: 0 <= i < |words| ==> words[i] != [] && NoSpace(words[i])
    ensures JoinSpace(words) != [] && !IsSpace(JoinSpace(words)[0])
  {
    JoinFront(words);
  }

  /** Joining two non-empty lists puts one space between the two joined halves. */
  lemma {:induction false} JoinAppend(a: seq<string>, b: seq<string>)
    requires a != [] && b != []
    ensures JoinSpace(a + b) == JoinSpace(a) + " " + JoinSpace(b)
    decreases |b|
  {
    var ab := a + b;
    if |b| == 1 {
      assert ab[..|ab| - 1] == a;
    } else {
      var init := b[..|b| - 1];
      assert ab[..|ab| - 1] == a + init;
      JoinAppend(a, init);
    }
  }

  /** A character other than the space that no part holds is not in the joined string. */
  lemma {:induction false} JoinKeepsOut(parts: seq<string>, c: char)
    requires c != ' '
    requires forall i :: 0 <= i < |parts| ==> c !in parts[i]
    ensures c !in JoinSpace(parts)
    decreases |parts|
  {
    if |parts| > 1 {
      JoinKeepsOut(parts[..|parts| - 1], c);
    }
  }

  /** A joined string of non-empty words without whitespace is unpadded. */
  lemma JoinUnpadded(words: seq<string>)
    requires words != []
    requires forall i :: 0 <= i < |words| ==> words[i] != [] && NoSpace(words[i])
    ensures JoinSpace(words) != [] && Unpadded(JoinSpace(words))
  {
    JoinFirstNotSpace(words);
    var last := words[|words| - 1];
    assert !IsSpace(last[|last| - 1]);
  }

  lemma {:induction false} WordOfPrefix(w: string, rest: string)
    requires w != [] && NoSpace(w)
    requires rest == [] || IsSpace(rest[0])
    ensures TrimLeft(w + rest) == w + rest
    ensures Word(w + rest) == w
    decreases |w|
  {
    if |w| > 1 {
      WordOfPrefix(w[1..], rest);
      assert (w + rest)[1..] == w[1..] + rest;
    } else {
      assert (w + rest)[1..] == rest;
    }
  }

  /** Python string ordering (lexicographic by code point) as a `<=` test. */
  predicate StrLe(a: string, b: string)
  {
    a == [] || (b != [] && (a[0] < b[0] || (a[0] == b[0] && StrLe(a[1..], b[1..]))))
  }

  lemma {:induction false} StrLeTotal(a: string, b: string)
    ensures StrLe(a, b) || StrLe(b, a)
  {
    if a != [] && b != [] && a[0] == b[0] {
      StrLeTotal(a[1..], b[1..]);
    }
  }

  lemma {:induction false} StrLeTransitive(a: string, b: string, c: string)
    requires StrLe(a, b) && StrLe(b, c)
    ensures StrLe(a, c)
  {
    if a != [] && b != [] && c != [] && a[0] == b[0] && b[0] == c[0] {
      StrLeTransitive(a[1..], b[1..], c[1..]);
    }
  }

  lemma {:induction false} StrLeAntisymmetric(a: string, b: string)
    requires StrLe(a, b) && StrLe(b, a)
    ensures a == b
  {
    if a != [] && b != [] {
      StrLeAntisymmetric(a[1..], b[1..]);
      assert a == [a[0]] + a[1..];
      assert b == [b[0]] + b[1..];
    }
  }
}
