/** The string operations the converter uses from Python's standard library:
    str.split() without arguments, str.split(sep), and the base name and
    extension of a POSIX path. */
module Text {
  import opened Values

  /** The characters str.split() without arguments treats as separators. */
  predicate IsSpace(c: char)
  {
    || c == ' '
    || '\t' <= c <= '\r'
    || '\U{1C}' <= c <= '\U{1F}'
    || c == '\U{85}' || c == '\U{A0}' || c == '\U{1680}'
    || '\U{2000}' <= c <= '\U{200A}'
    || c == '\U{2028}' || c == '\U{2029}' || c == '\U{202F}'
    || c == '\U{205F}' || c == '\U{3000}'
  }

  /** The length of the run of non-separator characters that starts s. */
  function WordLength(s: string): (w: nat)
    ensures w <= |s|
    ensures forall k :: 0 <= k < w ==> !IsSpace(s[k])
    ensures w < |s| ==> IsSpace(s[w])
  {
    if s == [] || IsSpace(s[0]) then 0 else 1 + WordLength(s[1..])
  }

  /** A non-empty run of non-separator characters. */
  predicate IsWord(t: string)
  {
    t != [] && forall c :: c in t ==> !IsSpace(c)
  }

  /** str.split() without arguments: the maximal runs of non-separator
      characters, in order. */
  function Tokens(s: string): (r: seq<string>)
    ensures forall t :: t in r ==> IsWord(t)
    decreases |s|
  {
    if s == [] then []
    else if IsSpace(s[0]) then Tokens(s[1..])
    else
      var w := WordLength(s);
      [s[..w]] + Tokens(s[w..])
  }

  /** The words joined by single blanks. */
  function Unwords(words: seq<string>): string
  {
    if words == [] then []
    else if |words| == 1 then words[0]
    else words[0] + " " + Unwords(words[1..])
  }

  /** Splitting words that are non-empty and free of separators, after
      joining them with blanks, gives them back. */
  lemma {:induction false} TokensOfUnwords(words: seq<string>)
    requires forall t :: t in words ==> IsWord(t)
    ensures Tokens(Unwords(words)) == words
  {
    if words == [] {
    } else if |words| == 1 {
      assert words[0] in words;
      TokensOfWord(words[0], []);
      assert words[0] + [] == words[0];
    } else {
      var rest := " " + Unwords(words[1..]);
      assert words[0] in words;
      assert forall t :: t in words[1..] ==> t in words;
      TokensOfWord(words[0], rest);
      assert Unwords(words) == words[0] + rest;
      assert rest[1..] == Unwords(words[1..]);
      TokensOfUnwords(words[1..]);
      assert words == [words[0]] + words[1..];
    }
  }

  /** A separator cuts the text in two: the tokens of the whole are the
      tokens before it followed by the tokens after it. With `WordTokens`
      this fixes str.split() on every string, since any string is words
      and separators. */
  lemma {:induction false} TokensAtSeparator(a: string, c: char, b: string)
    requires IsSpace(c)
    ensures Tokens(a + [c] + b) == Tokens(a) + Tokens(b)
    decreases |a|
  {
    var s := a + [c] + b;
    if a == [] {
      assert s == [c] + b;
      assert s[1..] == b;
    } else if IsSpace(a[0]) {
      assert s[1..] == a[1..] + [c] + b;
      TokensAtSeparator(a[1..], c, b);
    } else {
      var word, tail := LeadingWord(a);
      TokensAtSeparator(tail, c, b);
      TokensAfterWord(word, tail, c, b);
    }
  }

  /** A string that starts with a non-separator is a word followed by
      nothing or by a separator. */
  lemma LeadingWord(a: string) returns (word: string, tail: string)
    requires a != [] && !IsSpace(a[0])
    ensures IsWord(word) && a == word + tail && (tail == [] || IsSpace(tail[0]))
  {
    var w := WordLength(a);
    word, tail := a[..w], a[w..];
    assert a[0] in word;
    forall ch | ch in word ensures !IsSpace(ch) {
      var k :| 0 <= k < |word| && word[k] == ch;
    }
    assert a == word + tail;
  }

  /** The step of `TokensAtSeparator` past a leading word. */
  lemma TokensAfterWord(word: string, tail: string, c: char, b: string)
    requires IsWord(word) && (tail == [] || IsSpace(tail[0])) && IsSpace(c)
    requires Tokens(tail + [c] + b) == Tokens(tail) + Tokens(b)
    ensures Tokens(word + tail + [c] + b) == Tokens(word + tail) + Tokens(b)
  {
    Regroup(word, tail, c, b);
    TokensOfWord(word, tail + [c] + b);
    TokensOfWord(word, tail);
    Reassociate(word, Tokens(tail), Tokens(b));
  }

  /** Regrouping steps of `TokensAfterWord`. */
  lemma Regroup(word: string, tail: string, c: char, b: string)
    ensures word + tail + [c] + b == word + (tail + [c] + b)
    ensures (tail + [c] + b)[0] == if tail == [] then c else tail[0]
  {
  }

  lemma Reassociate(word: string, p: seq<string>, q: seq<string>)
    ensures [word] + (p + q) == ([word] + p) + q
  {
  }

  /** A single word is its own only token. */
  lemma WordTokens(word: string)
    requires IsWord(word)
    ensures Tokens(word) == [word]
  {
    TokensOfWord(word, []);
    assert word + [] == word;
  }

  /** A word followed by a separator (or by nothing) is the first token. */
  lemma {:induction false} TokensOfWord(word: string, rest: string)
    requires IsWord(word)
    requires rest == [] || IsSpace(rest[0])
    ensures Tokens(word + rest) == [word] + Tokens(rest)
  {
    var s := word + rest;
    WordLengthOfWord(word, rest);
    assert s[..|word|] == word;
    assert s[|word|..] == rest;
  }

  lemma {:induction false} WordLengthOfWord(word: string, rest: string)
    requires forall c :: c in word ==> !IsSpace(c)
    requires rest == [] || IsSpace(rest[0])
    ensures WordLength(word + rest) == |word|
    decreases |word|
  {
    if word == [] {
      assert word + rest == rest;
    } else {
      assert word[0] in word;
      assert (word + rest)[1..] == word[1..] + rest;
      forall c | c in word[1..] ensures !IsSpace(c) {
        assert c in word;
      }
      WordLengthOfWord(word[1..], rest);
    }
  }

  /** str.split(sep) with a one-character separator: the pieces between the
      separators, empty ones included. */
  function SplitOn(s: string, sep: char): (r: seq<string>)
    ensures |r| >= 1
    ensures forall p :: p in r ==> sep !in p
    ensures sep in s <==> |r| >= 2
  {
    if s == [] then [""]
    else
      var rest := SplitOn(s[1..], sep);
      if s[0] == sep then [""] + rest
      else [[s[0]] + rest[0]] + rest[1..]
  }

  /** sep.join(pieces). */
  function JoinWith(pieces: seq<string>, sep: char): string
    requires |pieces| >= 1
  {
    if |pieces| == 1 then pieces[0] else pieces[0] + [sep] + JoinWith(pieces[1..], sep)
  }

  /** Splitting and joining again gives back the text. */
  lemma {:induction false} JoinSplit(s: string, sep: char)
    ensures JoinWith(SplitOn(s, sep), sep) == s
  {
    if s != [] {
      var rest := SplitOn(s[1..], sep);
      JoinSplit(s[1..], sep);
      Uncons(s, []);
      if s[0] == sep {
        HeadTail("", rest);
        JoinSep(sep, s[1..]);
      } else if |rest| == 1 {
        HeadTail([s[0]] + rest[0], rest[1..]);
      } else {
        HeadTail([s[0]] + rest[0], rest[1..]);
        JoinCons(s[0], rest[0], sep, JoinWith(rest[1..], sep));
      }
    }
  }

  /** Joining separator-free pieces and splitting again gives back the pieces. */
  lemma {:induction false} SplitJoin(pieces: seq<string>, sep: char)
    requires |pieces| >= 1
    requires forall p :: p in pieces ==> sep !in p
    ensures SplitOn(JoinWith(pieces, sep), sep) == pieces
  {
    if |pieces| == 1 {
      SplitFree(pieces[0], sep);
    } else {
      SplitJoin(pieces[1..], sep);
      SplitAfterFree(pieces[0], JoinWith(pieces[1..], sep), sep);
      assert pieces[0] + [sep] + JoinWith(pieces[1..], sep) == pieces[0] + ([sep] + JoinWith(pieces[1..], sep));
      assert pieces == [pieces[0]] + pieces[1..];
    }
  }

  lemma {:induction false} SplitFree(s: string, sep: char)
    requires sep !in s
    ensures SplitOn(s, sep) == [s]
  {
    if s != [] {
      assert s[1..] == s[|s| - (|s| - 1)..];
      SplitFree(s[1..], sep);
      assert s == [s[0]] + s[1..];
    }
  }

  lemma {:induction false} SplitAfterFree(a: string, b: string, sep: char)
    requires sep !in a
    ensures SplitOn(a + ([sep] + b), sep) == [a] + SplitOn(b, sep)
  {
    var s := a + ([sep] + b);
    if a == [] {
      HeadTail(sep, b);
      assert s == [sep] + b;
    } else {
      Uncons(a, [sep] + b);
      SplitAfterFree(a[1..], b, sep);
      HeadTail(a[1..], SplitOn(b, sep));
    }
  }

  /** Regrouping steps of `JoinSplit`. */
  lemma JoinSep(sep: char, t: string)
    ensures "" + [sep] + t == [sep] + t
  {
  }

  lemma JoinCons(x: char, p: string, sep: char, q: string)
    ensures [x] + p + [sep] + q == [x] + (p + [sep] + q)
  {
  }

  /** The head and the tail of a sequence built by a cons. */
  lemma HeadTail<T>(x: T, q: seq<T>)
    ensures ([x] + q)[0] == x && ([x] + q)[1..] == q
  {
  }

  /** The head and the tail of a concatenation whose left part is not empty. */
  lemma Uncons<T>(a: seq<T>, b: seq<T>)
    requires a != []
    ensures (a + b)[0] == a[0] && (a + b)[1..] == a[1..] + b && [a[0]] + a[1..] == a
  {
  }

  /** The last position of c in s. */
  function LastIndexOf(s: string, c: char): (r: Option<nat>)
    ensures r.None? <==> c !in s
    ensures r.Some? ==> r.value < |s| && s[r.value] == c && c !in s[r.value + 1..]
  {
    if s == [] then None
    else if s[|s| - 1] == c then Some(|s| - 1)
    else
      var r := LastIndexOf(s[..|s| - 1], c);
      assert s == s[..|s| - 1] + [s[|s| - 1]];
      r
  }

  /** posixpath.basename: the text after the last '/'. */
  function BaseName(p: string): (r: string)
    ensures '/' !in r
    ensures |r| <= |p| && r == p[|p| - |r|..]
    ensures |r| < |p| ==> p[|p| - |r| - 1] == '/'
  {
    if '/' in p then BaseName(p[1..]) else p
  }

  /** The extension posixpath.splitext reports for a base name: the text from
      the last '.' on, provided some character before that dot is not a '.'
      (a name made of leading dots only has no extension); otherwise empty. */
  function Extension(base: string): (r: string)
    ensures '.' !in base ==> r == []
    ensures r != [] ==> r[0] == '.' && '.' !in r[1..]
    ensures r != [] ==> |r| < |base| && r == base[|base| - |r|..]
    ensures r != [] ==> exists k :: 0 <= k < |base| - |r| && base[k] != '.'
  {
    match LastIndexOf(base, '.')
    case None => []
    case Some(d) => if exists k :: 0 <= k < d && base[k] != '.' then base[d..] else []
  }

  /** A base name has the extension ".xml" exactly when it ends in ".xml"
      after at least one character that is not a dot. */
  lemma XmlExtension(base: string)
    ensures Extension(base) == ".xml" <==>
      |base| > 4 && base[|base| - 4..] == ".xml" && exists k :: 0 <= k < |base| - 4 && base[k] != '.'
  {
    var d := LastIndexOf(base, '.');
    if |base| > 4 && base[|base| - 4..] == ".xml" {
      assert base[|base| - 4] == '.';
      assert forall k :: |base| - 3 <= k < |base| ==> base[k] != '.';
      assert d.Some? && base[d.value] == '.';
      assert d.value == |base| - 4;
    }
    if Extension(base) == ".xml" {
      assert d.Some? && base[d.value..] == ".xml";
      assert |base| - d.value == 4;
    }
  }
}
