/**
 * String primitives the source relies on from Python's `str` and
 * JavaScript's `String`: whitespace classes, ASCII case mapping, prefix and
 * substring tests, strip/trim, Python's `split()`/`split(" ")`, JavaScript's
 * `split(/\s+/)`, `join`, Python's `int(str)` and `str(int)`.
 */
module Text {
  import opened Wrappers

  /** Which language's notion of whitespace applies. */
  datatype Flavor = Python | JavaScript

  /**
   * Python's `str.isspace()` and JavaScript's `\s` (also what `trim()` removes).
   * They agree except on U+001C..U+001F and U+0085 (Python only) and U+FEFF
   * (JavaScript only).
   */
  predicate IsSpace(f: Flavor, c: char) {
    || ('\t' <= c <= '\r')
    || c == ' ' || c == '\U{A0}' || c == '\U{1680}' || ('\U{2000}' <= c <= '\U{200A}')
    || c == '\U{2028}' || c == '\U{2029}' || c == '\U{202F}' || c == '\U{205F}' || c == '\U{3000}'
    || (f == Python && (('\U{1C}' <= c <= '\U{1F}') || c == '\U{85}'))
    || (f == JavaScript && c == '\U{FEFF}')
  }

  predicate IsAscii(c: char) { c < '\U{80}' }

  predicate IsDigit(c: char) { '0' <= c <= '9' }

  /** ASCII upper-casing of one character; every other character is kept. */
  function UpperChar(c: char): (u: char)
    ensures IsSpace(Python, u) == IsSpace(Python, c) && IsSpace(JavaScript, u) == IsSpace(JavaScript, c)
    ensures u == c || ('a' <= c <= 'z' && 'A' <= u <= 'Z')
  {
    if 'a' <= c <= 'z' then (c as int - 32) as char else c
  }

  /** ASCII lower-casing of one character; every other character is kept. */
  function LowerChar(c: char): (l: char)
    ensures IsSpace(Python, l) == IsSpace(Python, c) && IsSpace(JavaScript, l) == IsSpace(JavaScript, c)
    ensures l == c || ('A' <= c <= 'Z' && 'a' <= l <= 'z')
  {
    if 'A' <= c <= 'Z' then (c as int + 32) as char else c
  }

  function Upper(s: string): (r: string)
    ensures |r| == |s| && forall i :: 0 <= i < |s| ==> r[i] == UpperChar(s[i])
  {
    seq(|s|, i requires 0 <= i < |s| => UpperChar(s[i]))
  }

  function Lower(s: string): (r: string)
    ensures |r| == |s| && forall i :: 0 <= i < |s| ==> r[i] == LowerChar(s[i])
  {
    seq(|s|, i requires 0 <= i < |s| => LowerChar(s[i]))
  }

  predicate StartsWith(s: string, prefix: string) {
    |prefix| <= |s| && s[..|prefix|] == prefix
  }

  /** `sub in s` (Python) / `s.includes(sub)` (JavaScript). */
  predicate Contains(s: string, sub: string)
    decreases |s|
  {
    StartsWith(s, sub) || (|s| > 0 && Contains(s[1..], sub))
  }

  predicate NoSpace(f: Flavor, s: string) {
    forall i :: 0 <= i < |s| ==> !IsSpace(f, s[i])
  }

  // ---------------------------------------------------------------------------
  // strip / trim

  function TrimStart(f: Flavor, s: string): (r: string)
    ensures |r| <= |s| && r == s[|s| - |r|..]
    ensures r == [] || !IsSpace(f, r[0])
    decreases |s|
  {
    if |s| > 0 && IsSpace(f, s[0]) then TrimStart(f, s[1..]) else s
  }

  function TrimEnd(f: Flavor, s: string): (r: string)
    ensures |r| <= |s| && r == s[..|r|]
    ensures r == [] || !IsSpace(f, r[|r| - 1])
    decreases |s|
  {
    if |s| > 0 && IsSpace(f, s[|s| - 1]) then TrimEnd(f, s[..|s| - 1]) else s
  }

  /** Python `s.strip()` / JavaScript `s.trim()`. */
  function Trim(f: Flavor, s: string): (r: string)
    ensures r == [] || (!IsSpace(f, r[0]) && !IsSpace(f, r[|r| - 1]))
  {
    TrimEnd(f, TrimStart(f, s))
  }

  /** The string is blank: `not s.strip()` / `!s.trim()`. */
  predicate IsBlank(f: Flavor, s: string) {
    Trim(f, s) == []
  }

  lemma TrimEndStart(f: Flavor, s: string)
    requires s != [] && !IsSpace(f, s[0])
    ensures TrimEnd(f, s) != [] && TrimEnd(f, s)[0] == s[0]
    decreases |s|
  {
    if IsSpace(f, s[|s| - 1]) {
      TrimEndStart(f, s[..|s| - 1]);
    }
  }

  /** Stripping an already stripped string changes nothing. */
  lemma TrimClean(f: Flavor, s: string)
    requires s == [] || (!IsSpace(f, s[0]) && !IsSpace(f, s[|s| - 1]))
    ensures Trim(f, s) == s
  {
  }

  /** Every character of `s` is whitespace. */
  predicate AllSpace(f: Flavor, s: string) {
    forall i :: 0 <= i < |s| ==> IsSpace(f, s[i])
  }

  /** Whitespace around a string does not change what stripping it gives. */
  lemma TrimPadded(f: Flavor, pre: string, s: string, post: string)
    requires AllSpace(f, pre) && AllSpace(f, post)
    ensures Trim(f, pre + s + post) == Trim(f, s)
  {
    assert pre + s + post == pre + (s + post);
    TrimStartSkips(f, pre, s + post);
    if TrimStart(f, s) == [] {
      BlankPadded(f, s, post);
    } else {
      WordPadded(f, s, post);
    }
  }

  lemma BlankPadded(f: Flavor, s: string, post: string)
    requires AllSpace(f, post) && TrimStart(f, s) == []
    ensures TrimStart(f, s + post) == []
  {
    TrimStartOfBlankPrefix(f, s, post);
    TrimStartSkips(f, post, []);
    assert post + [] == post;
  }

  lemma WordPadded(f: Flavor, s: string, post: string)
    requires AllSpace(f, post) && TrimStart(f, s) != []
    ensures TrimEnd(f, TrimStart(f, s + post)) == Trim(f, s)
  {
    TrimStartAppend(f, s, post);
    TrimEndSkips(f, TrimStart(f, s), post);
  }

  lemma {:induction false} TrimStartSkips(f: Flavor, pre: string, x: string)
    requires AllSpace(f, pre)
    ensures TrimStart(f, pre + x) == TrimStart(f, x)
    decreases |pre|
  {
    if pre != [] {
      assert (pre + x)[0] == pre[0] && IsSpace(f, pre[0]);
      assert (pre + x)[1..] == pre[1..] + x;
      TrimStartSkips(f, pre[1..], x);
    } else {
      assert pre + x == x;
    }
  }

  lemma {:induction false} TrimEndSkips(f: Flavor, y: string, post: string)
    requires AllSpace(f, post)
    ensures TrimEnd(f, y + post) == TrimEnd(f, y)
    decreases |post|
  {
    if post != [] {
      var p := post[..|post| - 1];
      assert (y + post)[|y + post| - 1] == post[|post| - 1] && IsSpace(f, post[|post| - 1]);
      assert (y + post)[..|y + post| - 1] == y + p;
      TrimEndSkips(f, y, p);
    } else {
      assert y + post == y;
    }
  }

  lemma {:induction false} TrimStartAppend(f: Flavor, s: string, post: string)
    requires TrimStart(f, s) != []
    ensures TrimStart(f, s + post) == TrimStart(f, s) + post
    decreases |s|
  {
    if IsSpace(f, s[0]) {
      assert (s + post)[1..] == s[1..] + post;
      TrimStartAppend(f, s[1..], post);
    }
  }

  lemma {:induction false} TrimStartOfBlankPrefix(f: Flavor, s: string, post: string)
    requires TrimStart(f, s) == []
    ensures TrimStart(f, s + post) == TrimStart(f, post)
    decreases |s|
  {
    if s != [] {
      assert (s + post)[1..] == s[1..] + post;
      TrimStartOfBlankPrefix(f, s[1..], post);
    } else {
      assert s + post == post;
    }
  }

  /** Lower-casing keeps whitespace where it is, so it commutes with stripping. */
  lemma TrimLower(f: Flavor, s: string)
    ensures Trim(f, Lower(s)) == Lower(Trim(f, s))
  {
    TrimStartLower(f, s);
    TrimEndLower(f, TrimStart(f, s));
  }

  lemma {:induction false} TrimStartLower(f: Flavor, s: string)
    ensures TrimStart(f, Lower(s)) == Lower(TrimStart(f, s))
    decreases |s|
  {
    if |s| > 0 && IsSpace(f, s[0]) {
      assert Lower(s)[1..] == Lower(s[1..]);
      TrimStartLower(f, s[1..]);
    }
  }

  lemma {:induction false} TrimEndLower(f: Flavor, s: string)
    ensures TrimEnd(f, Lower(s)) == Lower(TrimEnd(f, s))
    decreases |s|
  {
    if |s| > 0 && IsSpace(f, s[|s| - 1]) {
      assert Lower(s)[..|s| - 1] == Lower(s[..|s| - 1]);
      TrimEndLower(f, s[..|s| - 1]);
    }
  }

  /** Upper-casing forgets whether letters were lower-cased first. */
  lemma UpperOfLower(s: string)
    ensures Upper(Lower(s)) == Upper(s)
  {
  }

  lemma BlankIffAllSpace(f: Flavor, s: string)
    ensures IsBlank(f, s) <==> forall i :: 0 <= i < |s| ==> IsSpace(f, s[i])
  {
    if !IsBlank(f, s) {
      var t := TrimStart(f, s);
      if t == [] {
      } else {
        TrimEndStart(f, t);
        assert !IsSpace(f, s[|s| - |t|]);
      }
    } else {
      AllSpaceOfBlank(f, s);
    }
  }

  lemma AllSpaceOfBlank(f: Flavor, s: string)
    requires IsBlank(f, s)
    ensures forall i :: 0 <= i < |s| ==> IsSpace(f, s[i])
    decreases |s|
  {
    var t := TrimStart(f, s);
    if t != [] {
      TrimEndStart(f, t);
      assert false;
    }
    if |s| > 0 {
      assert IsSpace(f, s[0]);
      AllSpaceOfBlank(f, s[1..]);
      forall i | 0 <= i < |s| ensures IsSpace(f, s[i]) {
        if i > 0 { assert s[i] == s[1..][i - 1]; }
      }
    }
  }

  // ---------------------------------------------------------------------------
  // Python str.split() and JavaScript split(/\s+/)

  /** Length of the leading run of non-whitespace characters. */
  function WordLen(f: Flavor, s: string): (n: nat)
    ensures n <= |s|
    ensures forall i :: 0 <= i < n ==> !IsSpace(f, s[i])
    ensures n < |s| ==> IsSpace(f, s[n])
    decreases |s|
  {
    if s == [] || IsSpace(f, s[0]) then 0 else 1 + WordLen(f, s[1..])
  }

  /** Length of the leading run of whitespace characters. */
  function SpaceLen(f: Flavor, s: string): (n: nat)
    ensures n <= |s|
    ensures forall i :: 0 <= i < n ==> IsSpace(f, s[i])
    ensures n < |s| ==> !IsSpace(f, s[n])
    decreases |s|
  {
    if s != [] && IsSpace(f, s[0]) then 1 + SpaceLen(f, s[1..]) else 0
  }

  /** Python `s.split()`: the maximal runs of non-whitespace, in order. */
  function Words(f: Flavor, s: string): (ws: seq<string>)
    decreases |s|
  {
    if s == [] then []
    else if IsSpace(f, s[0]) then Words(f, s[1..])
    else
      var n := WordLen(f, s);
      [s[..n]] + Words(f, s[n..])
  }

  /** Every word is non-empty and free of whitespace. */
  lemma {:induction false} WordsClean(f: Flavor, s: string)
    ensures forall k :: 0 <= k < |Words(f, s)| ==> Words(f, s)[k] != [] && NoSpace(f, Words(f, s)[k])
    decreases |s|
  {
    if s != [] {
      if IsSpace(f, s[0]) {
        WordsClean(f, s[1..]);
      } else {
        WordsClean(f, s[WordLen(f, s)..]);
      }
    }
  }

  /** JavaScript `s.split(/\s+/)`: the pieces between maximal whitespace runs. */
  function SplitRuns(f: Flavor, s: string): (parts: seq<string>)
    ensures |parts| >= 1
    decreases |s|
  {
    var i := WordLen(f, s);
    if i == |s| then [s]
    else
      var j := i + SpaceLen(f, s[i..]);
      [s[..i]] + SplitRuns(f, s[j..])
  }

  /** `sep.join(parts)` (Python) / `parts.join(sep)` (JavaScript). */
  function Join(parts: seq<string>, sep: string): string
  {
    if parts == [] then []
    else if |parts| == 1 then parts[0]
    else parts[0] + sep + Join(parts[1..], sep)
  }

  /** Python `s.split(c)` for a one-character separator. */
  function SplitOn(s: string, c: char): (fields: seq<string>)
    ensures |fields| >= 1
    ensures c in s ==> |fields| >= 2
    decreases |s|
  {
    var i := IndexOf(s, c);
    if i == |s| then [s] else [s[..i]] + SplitOn(s[i + 1..], c)
  }

  /** Index of the first `c` in `s`, or `|s|` when there is none. */
  function IndexOf(s: string, c: char): (i: nat)
    ensures i <= |s|
    ensures i < |s| <==> c in s
    ensures i < |s| ==> s[i] == c
    ensures c !in s[..i]
    decreases |s|
  {
    if s == [] then 0 else if s[0] == c then 0 else 1 + IndexOf(s[1..], c)
  }

  /** First character upper-case, the rest lower-case (ASCII). */
  function Capitalized(w: string): (r: string)
    ensures |r| == |w|
    ensures NoSpace(Python, w) ==> NoSpace(Python, r)
    ensures NoSpace(JavaScript, w) ==> NoSpace(JavaScript, r)
  {
    if w == [] then [] else [UpperChar(w[0])] + Lower(w[1..])
  }

  lemma CapitalizedIdempotent(w: string)
    ensures Capitalized(Capitalized(w)) == Capitalized(w)
  {
    if w != [] {
      var c := Capitalized(w);
      assert c[1..] == Lower(w[1..]);
      assert Lower(c[1..]) == c[1..];
    }
  }

  /** Python's `str.capitalize` on the words of `s`, joined by single spaces. */
  function TitleWords(ws: seq<string>): (r: seq<string>)
    ensures |r| == |ws|
    ensures forall k :: 0 <= k < |ws| ==> r[k] == Capitalized(ws[k])
  {
    if ws == [] then [] else [Capitalized(ws[0])] + TitleWords(ws[1..])
  }

  // ---------------------------------------------------------------------------
  // Properties of word splitting

  lemma {:induction false} WordLenPrefix(f: Flavor, w: string, rest: string)
    requires NoSpace(f, w)
    requires rest == [] || IsSpace(f, rest[0])
    ensures WordLen(f, w + rest) == |w|
    decreases |w|
  {
    if w != [] {
      assert (w + rest)[1..] == w[1..] + rest;
      WordLenPrefix(f, w[1..], rest);
    } else {
      assert w + rest == rest;
    }
  }

  lemma {:induction false} WordsCons(f: Flavor, w: string, rest: string)
    requires w != [] && NoSpace(f, w)
    requires rest == [] || IsSpace(f, rest[0])
    ensures Words(f, w + rest) == [w] + Words(f, rest)
  {
    WordLenPrefix(f, w, rest);
    var s := w + rest;
    assert s[..|w|] == w;
    assert s[|w|..] == rest;
  }

  /**
   * Splitting words joined by single spaces gives the words back, provided
   * none is empty or contains whitespace.
   */
  lemma {:induction false} WordsOfJoin(f: Flavor, ws: seq<string>)
    requires forall k :: 0 <= k < |ws| ==> ws[k] != [] && NoSpace(f, ws[k])
    ensures Words(f, Join(ws, " ")) == ws
    decreases |ws|
  {
    if |ws| == 1 {
      WordsCons(f, ws[0], []);
      assert ws[0] + [] == ws[0];
    } else if |ws| > 1 {
      WordsOfJoin(f, ws[1..]);
      WordsOfJoinCons(f, ws[0], ws[1..]);
      assert ws == [ws[0]] + ws[1..];
    }
  }

  lemma WordsOfJoinCons(f: Flavor, w: string, rest: seq<string>)
    requires w != [] && NoSpace(f, w) && rest != []
    requires Words(f, Join(rest, " ")) == rest
    ensures Words(f, Join([w] + rest, " ")) == [w] + rest
  {
    var tail := Join(rest, " ");
    var spaced := " " + tail;
    assert IsSpace(f, spaced[0]);
    WordsCons(f, w, spaced);
    WordsSpaceCons(f, tail);
    JoinCons(w, rest, " ");
    assert w + " " + tail == w + spaced;
  }

  lemma JoinCons(w: string, rest: seq<string>, sep: string)
    requires rest != []
    ensures Join([w] + rest, sep) == w + sep + Join(rest, sep)
  {
    assert ([w] + rest)[1..] == rest;
  }

  lemma WordsSpaceCons(f: Flavor, t: string)
    ensures Words(f, " " + t) == Words(f, t)
  {
    assert (" " + t)[1..] == t;
  }

  /** The only whitespace in a single-space join of clean words is the separators. */
  lemma {:induction false} JoinShape(f: Flavor, ws: seq<string>)
    requires forall k :: 0 <= k < |ws| ==> ws[k] != [] && NoSpace(f, ws[k])
    ensures var j := Join(ws, " ");
      && (j == [] <==> ws == [])
      && (j != [] ==> !IsSpace(f, j[0]) && !IsSpace(f, j[|j| - 1]))
      && (forall i :: 0 <= i < |j| && IsSpace(f, j[i]) ==> j[i] == ' ')
      && (forall i :: 0 <= i < |j| - 1 ==> !(IsSpace(f, j[i]) && IsSpace(f, j[i + 1])))
    decreases |ws|
  {
    if |ws| > 1 {
      JoinShape(f, ws[1..]);
      var w, t := ws[0], Join(ws[1..], " ");
      var j := Join(ws, " ");
      var n := |w|;
      assert j == w + " " + t;
      assert forall i :: 0 <= i < n ==> j[i] == w[i];
      assert j[n] == ' ';
      assert forall i :: n < i < |j| ==> j[i] == t[i - n - 1];
    }
  }

  /** On a stripped, non-empty string, `split(/\s+/)` is Python's `split()`. */
  lemma {:induction false} SplitRunsIsWords(f: Flavor, s: string)
    requires s != [] && !IsSpace(f, s[0]) && !IsSpace(f, s[|s| - 1])
    ensures SplitRuns(f, s) == Words(f, s)
    decreases |s|
  {
    var i := WordLen(f, s);
    if i < |s| {
      var k := SpaceLen(f, s[i..]);
      var rest := s[i + k..];
      assert rest != [] && !IsSpace(f, rest[0]) && !IsSpace(f, rest[|rest| - 1]) by {
        GapInside(f, s);
        assert rest[0] == s[i..][k];
        assert rest[|rest| - 1] == s[|s| - 1];
      }
      SplitRunsIsWords(f, rest);
      SplitRunsIsWordsStep(f, s, rest);
    } else {
      WordsWhole(f, s);
      SplitRunsLast(f, s);
    }
  }

  /** The inductive step: the first piece is the first word, and the rest agrees. */
  lemma SplitRunsIsWordsStep(f: Flavor, s: string, rest: string)
    requires s != [] && !IsSpace(f, s[0]) && WordLen(f, s) < |s|
    requires WordLen(f, s) + SpaceLen(f, s[WordLen(f, s)..]) <= |s|
    requires rest == s[WordLen(f, s) + SpaceLen(f, s[WordLen(f, s)..])..]
    requires SplitRuns(f, rest) == Words(f, rest)
    ensures SplitRuns(f, s) == Words(f, s)
  {
    var i := WordLen(f, s);
    var k := SpaceLen(f, s[i..]);
    WordsSkipSpace(f, s[i..], k);
    assert s[i..][k..] == rest;
    SplitRunsStep(f, s);
    WordsStep(f, s);
    var first := [s[..i]];
    assert SplitRuns(f, s) == first + Words(f, rest);
    assert Words(f, s) == first + Words(f, rest);
  }

  /** The whitespace after the first piece of a stripped string is followed by more text. */
  lemma GapInside(f: Flavor, s: string)
    requires s != [] && !IsSpace(f, s[|s| - 1]) && WordLen(f, s) < |s|
    ensures WordLen(f, s) + SpaceLen(f, s[WordLen(f, s)..]) < |s|
  {
  }

  /** A string with no whitespace is one word. */
  lemma WordsWhole(f: Flavor, s: string)
    requires s != [] && WordLen(f, s) == |s|
    ensures Words(f, s) == [s]
  {
    assert !IsSpace(f, s[0]);
    WordsStep(f, s);
    assert s[..|s|] == s && s[|s|..] == [];
  }

  /** One step of `split()` on a string that starts with a word. */
  lemma WordsStep(f: Flavor, s: string)
    requires s != [] && !IsSpace(f, s[0])
    ensures Words(f, s) == [s[..WordLen(f, s)]] + Words(f, s[WordLen(f, s)..])
  {
  }

  /** `split(/\s+/)` of a string without whitespace is the string alone. */
  lemma SplitRunsLast(f: Flavor, s: string)
    requires WordLen(f, s) == |s|
    ensures SplitRuns(f, s) == [s]
  {
  }

  /** One step of `split(/\s+/)` on a string that has whitespace after its first piece. */
  lemma SplitRunsStep(f: Flavor, s: string)
    requires WordLen(f, s) < |s|
    ensures var i := WordLen(f, s);
      SplitRuns(f, s) == [s[..i]] + SplitRuns(f, s[i + SpaceLen(f, s[i..])..])
  {
  }

  lemma {:induction false} WordsSkipSpace(f: Flavor, s: string, n: nat)
    requires n <= |s| && forall i :: 0 <= i < n ==> IsSpace(f, s[i])
    ensures Words(f, s) == Words(f, s[n..])
    decreases n
  {
    if n > 0 {
      WordsSkipSpace(f, s[1..], n - 1);
      assert s[1..][n - 1..] == s[n..];
    }
  }

  /** Word splitting only depends on which characters are whitespace. */
  lemma {:induction false} WordsAgree(s: string)
    requires forall i :: 0 <= i < |s| ==> (IsSpace(Python, s[i]) <==> IsSpace(JavaScript, s[i]))
    ensures Words(Python, s) == Words(JavaScript, s)
    decreases |s|
  {
    if s != [] {
      WordLenAgree(s);
      var n := WordLen(Python, s);
      if IsSpace(Python, s[0]) {
        WordsAgree(s[1..]);
      } else {
        WordsAgree(s[n..]);
      }
    }
  }

  lemma {:induction false} WordLenAgree(s: string)
    requires forall i :: 0 <= i < |s| ==> (IsSpace(Python, s[i]) <==> IsSpace(JavaScript, s[i]))
    ensures WordLen(Python, s) == WordLen(JavaScript, s)
    decreases |s|
  {
    if s != [] { WordLenAgree(s[1..]); }
  }

  lemma {:induction false} TrimAgree(s: string)
    requires forall i :: 0 <= i < |s| ==> (IsSpace(Python, s[i]) <==> IsSpace(JavaScript, s[i]))
    ensures Trim(Python, s) == Trim(JavaScript, s)
  {
    TrimStartAgree(s);
    TrimEndAgree(TrimStart(Python, s));
  }

  lemma {:induction false} TrimStartAgree(s: string)
    requires forall i :: 0 <= i < |s| ==> (IsSpace(Python, s[i]) <==> IsSpace(JavaScript, s[i]))
    ensures TrimStart(Python, s) == TrimStart(JavaScript, s)
    decreases |s|
  {
    if s != [] { TrimStartAgree(s[1..]); }
  }

  lemma {:induction false} TrimEndAgree(s: string)
    requires forall i :: 0 <= i < |s| ==> (IsSpace(Python, s[i]) <==> IsSpace(JavaScript, s[i]))
    ensures TrimEnd(Python, s) == TrimEnd(JavaScript, s)
    decreases |s|
  {
    if s != [] { TrimEndAgree(s[..|s| - 1]); }
  }

  // ---------------------------------------------------------------------------
  // Python int(str) and str(int), ASCII digits

  function DigitValue(c: char): nat
    requires IsDigit(c)
  {
    c as int - '0' as int
  }

  function DigitChar(d: nat): (c: char)
    requires d < 10
    ensures IsDigit(c) && DigitValue(c) == d
  {
    ('0' as int + d) as char
  }

  /** The value of a string of decimal digits, most significant first. */
  function DecimalValue(ds: string): nat
    requires forall i :: 0 <= i < |ds| ==> IsDigit(ds[i])
  {
    if ds == [] then 0 else DecimalValue(ds[..|ds| - 1]) * 10 + DigitValue(ds[|ds| - 1])
  }

  /** Digits with single underscores between them, as Python's `int()` accepts. */
  predicate DigitGroups(s: string) {
    && |s| > 0 && IsDigit(s[0]) && IsDigit(s[|s| - 1])
    && (forall i :: 0 <= i < |s| ==> IsDigit(s[i]) || s[i] == '_')
    && (forall i :: 0 < i < |s| - 1 && s[i] == '_' ==> IsDigit(s[i - 1]) && IsDigit(s[i + 1]))
  }

  function DropUnderscores(s: string): (r: string)
    requires forall i :: 0 <= i < |s| ==> IsDigit(s[i]) || s[i] == '_'
    ensures forall i :: 0 <= i < |r| ==> IsDigit(r[i])
  {
    if s == [] then [] else (if s[0] == '_' then [] else [s[0]]) + DropUnderscores(s[1..])
  }

  /**
   * Python `int(s)` for a `str` argument in base 10: surrounding whitespace is
   * ignored, one optional sign, then digit groups. `None` is the ValueError.
   */
  function ParseInt(s: string): (r: Option<int>)
  {
    var t := Trim(Python, s);
    if |t| > 0 && t[0] == '-' then
      match ParseDigitGroups(t[1..])
      case Some(n) => Some(0 - n as int)
      case None => None
    else if |t| > 0 && t[0] == '+' then ParseDigitGroups(t[1..])
    else ParseDigitGroups(t)
  }

  /** The value of digit groups, or `None` when `s` is not digit groups. */
  function ParseDigitGroups(s: string): (r: Option<nat>)
    ensures r.Some? <==> DigitGroups(s)
  {
    if DigitGroups(s) then
      Some(DecimalValue(DropUnderscores(s)))
    else None
  }

  /** Python `str(n)` for a non-negative integer. */
  function NatToString(n: nat): (s: string)
    ensures |s| > 0 && forall i :: 0 <= i < |s| ==> IsDigit(s[i])
  {
    if n < 10 then [DigitChar(n)] else NatToString(n / 10) + [DigitChar(n % 10)]
  }

  /** Python `str(n)`. */
  function IntToString(n: int): string
  {
    if n < 0 then "-" + NatToString(-n) else NatToString(n)
  }

  lemma {:induction false} NatToStringValue(n: nat)
    ensures DecimalValue(NatToString(n)) == n
  {
    if n >= 10 {
      NatToStringValue(n / 10);
      var s := NatToString(n);
      assert s[..|s| - 1] == NatToString(n / 10);
    }
  }

  lemma {:induction false} DropUnderscoresOfDigits(s: string)
    requires forall i :: 0 <= i < |s| ==> IsDigit(s[i])
    ensures DropUnderscores(s) == s
  {
    if s != [] { DropUnderscoresOfDigits(s[1..]); }
  }

  /** A plain run of digits parses to its decimal value. */
  lemma DigitsParse(m: nat)
    ensures ParseDigitGroups(NatToString(m)) == Some(m)
  {
    var d := NatToString(m);
    DropUnderscoresOfDigits(d);
    NatToStringValue(m);
  }

  lemma IntToStringStripped(n: int)
    ensures Trim(Python, IntToString(n)) == IntToString(n)
  {
    var s := IntToString(n);
    var d := NatToString(if n < 0 then -n else n);
    assert s[|s| - 1] == d[|d| - 1];
    TrimClean(Python, s);
  }

  /** `int(str(n)) == n`: the subject written into a token parses back. */
  lemma {:induction false} ParseIntOfIntToString(n: int)
    ensures ParseInt(IntToString(n)) == Some(n)
  {
    IntToStringStripped(n);
    if n < 0 {
      DigitsParse(-n);
      assert IntToString(n)[1..] == NatToString(-n);
    } else {
      DigitsParse(n);
    }
  }
}
