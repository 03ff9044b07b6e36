/**
 * `capitalizeName` (frontend/src/lib/utils.ts), the frontend twin of the
 * backend's `capitalize_name`: trim, `split(/\s+/)`, upper-case the first
 * character and lower-case the rest of every piece, join with single spaces.
 * `null` and `undefined` are both `None`.
 */
module TsUtils {
  import opened Wrappers
  import opened Text
  import CoreUtils

  /** `!name || !name.trim()`. */
  predicate NameBlank(name: Option<string>) {
    name.None? || IsBlank(JavaScript, name.value)
  }

  /** The `map` callback: an empty piece is kept, otherwise `charAt(0).toUpperCase() + slice(1).toLowerCase()`. */
  function CapitalizeWord(word: string): (r: string)
    ensures r == Capitalized(word)
  {
    if word == [] then word else [UpperChar(word[0])] + Lower(word[1..])
  }

  function CapitalizeWords(words: seq<string>): (r: seq<string>)
    ensures |r| == |words| && forall k :: 0 <= k < |words| ==> r[k] == CapitalizeWord(words[k])
  {
    seq(|words|, k requires 0 <= k < |words| => CapitalizeWord(words[k]))
  }

  /** What `capitalizeName` returns. */
  function CapitalizeName(name: Option<string>): (r: Option<string>)
    ensures NameBlank(name) ==> r == name
    ensures r.None? <==> name.None?
  {
    if NameBlank(name) then name
    else Some(Join(CapitalizeWords(SplitRuns(JavaScript, Trim(JavaScript, name.value))), " "))
  }

  // ---------------------------------------------------------------------------
  // Properties

  /** On a trimmed, non-blank string the pieces of `split(/\s+/)` are its words, capitalised here. */
  lemma PiecesAreWords(name: Option<string>)
    requires !NameBlank(name)
    ensures var t := Trim(JavaScript, name.value);
      && Words(JavaScript, t) != []
      && CapitalizeWords(SplitRuns(JavaScript, t)) == TitleWords(Words(JavaScript, t))
      && forall k :: 0 <= k < |Words(JavaScript, t)| ==>
           TitleWords(Words(JavaScript, t))[k] != [] && NoSpace(JavaScript, TitleWords(Words(JavaScript, t))[k])
  {
    var t := Trim(JavaScript, name.value);
    assert !IsSpace(JavaScript, t[0]);
    SplitRunsIsWords(JavaScript, t);
    WordsClean(JavaScript, t);
  }

  /**
   * A name with something in it comes back non-empty, with no whitespace at
   * either end, and with single spaces as its only whitespace.
   */
  lemma CapitalizedNameShape(name: Option<string>)
    requires !NameBlank(name)
    ensures var r := CapitalizeName(name).value;
      && r != []
      && !IsSpace(JavaScript, r[0]) && !IsSpace(JavaScript, r[|r| - 1])
      && (forall i :: 0 <= i < |r| && IsSpace(JavaScript, r[i]) ==> r[i] == ' ')
      && (forall i :: 0 <= i < |r| - 1 ==> !(IsSpace(JavaScript, r[i]) && IsSpace(JavaScript, r[i + 1])))
  {
    var t := Trim(JavaScript, name.value);
    PiecesAreWords(name);
    JoinShape(JavaScript, TitleWords(Words(JavaScript, t)));
  }

  /** The output has as many words as the trimmed input, each capitalised. */
  lemma CapitalizedNameWords(name: Option<string>)
    requires !NameBlank(name)
    ensures Words(JavaScript, CapitalizeName(name).value) == TitleWords(Words(JavaScript, Trim(JavaScript, name.value)))
    ensures |Words(JavaScript, CapitalizeName(name).value)| == |Words(JavaScript, Trim(JavaScript, name.value))|
  {
    var t := Trim(JavaScript, name.value);
    PiecesAreWords(name);
    WordsOfJoin(JavaScript, TitleWords(Words(JavaScript, t)));
  }

  /** Capitalising an already capitalised name changes nothing. */
  lemma CapitalizeNameIdempotent(name: Option<string>)
    ensures CapitalizeName(CapitalizeName(name)) == CapitalizeName(name)
  {
    if !NameBlank(name) {
      var t := Trim(JavaScript, name.value);
      var tw := TitleWords(Words(JavaScript, t));
      var j := Join(tw, " ");
      PiecesAreWords(name);
      assert CapitalizeName(name) == Some(j);
      CapitalizedNameShape(name);
      CapitalizedNameWords(name);
      TrimClean(JavaScript, j);
      assert !IsBlank(JavaScript, j);
      PiecesAreWords(Some(j));
      assert CapitalizeName(Some(j)) == Some(Join(TitleWords(tw), " "));
      assert TitleWords(tw) == tw by {
        forall k | 0 <= k < |tw| ensures TitleWords(tw)[k] == tw[k] {
          CapitalizedIdempotent(Words(JavaScript, t)[k]);
        }
      }
    }
  }

  /** Both languages classify every character of `s` alike as whitespace or not. */
  predicate SpacesAgree(s: string) {
    forall i :: 0 <= i < |s| ==> (IsSpace(Python, s[i]) <==> IsSpace(JavaScript, s[i]))
  }

  /**
   * Where Python's `isspace` and JavaScript's `\s` agree on every character
   * of the name, the frontend and the backend capitalise it identically.
   */
  lemma AgreesWithBackend(name: Option<string>)
    requires name.Some? ==> SpacesAgree(name.value)
    ensures CapitalizeName(name) == CoreUtils.CapitalizeNameSpec(name)
  {
    if name.Some? {
      var s := name.value;
      TrimAgree(s);
      if !NameBlank(name) {
        var t := Trim(JavaScript, s);
        PiecesAreWords(name);
        assert Words(Python, t) == Words(JavaScript, t) by {
          TrimKeepsAgreement(s);
          WordsAgree(t);
        }
      }
    }
  }

  /** The stripped string is a slice of the original, so the two languages still agree on it. */
  lemma TrimKeepsAgreement(s: string)
    requires SpacesAgree(s)
    ensures SpacesAgree(Trim(Python, s))
  {
    var ts := TrimStart(Python, s);
    SliceAgrees(s, |s| - |ts|, |s|);
    assert ts == s[|s| - |ts|..|s|];
    var t := Trim(Python, s);
    SliceAgrees(ts, 0, |t|);
    assert t == ts[0..|t|];
  }

  lemma SliceAgrees(s: string, lo: nat, hi: nat)
    requires SpacesAgree(s) && lo <= hi <= |s|
    ensures SpacesAgree(s[lo..hi])
  {
    forall i | 0 <= i < hi - lo ensures IsSpace(Python, s[lo..hi][i]) <==> IsSpace(JavaScript, s[lo..hi][i]) {
      assert s[lo..hi][i] == s[lo + i];
    }
  }

  /** Every ASCII character outside U+001C..U+001F is whitespace to both languages or to neither. */
  lemma AsciiAgrees(name: Option<string>)
    requires name.Some? ==> forall i :: 0 <= i < |name.value| ==>
      IsAscii(name.value[i]) && !('\U{1C}' <= name.value[i] <= '\U{1F}')
    ensures CapitalizeName(name) == CoreUtils.CapitalizeNameSpec(name)
  {
    AgreesWithBackend(name);
  }

  /**
   * The twins part on U+001C..U+001F, which Python's `split()` breaks on and
   * JavaScript's `\s` does not.
   */
  lemma TwinsDisagreeOnSeparators()
    ensures CoreUtils.CapitalizeNameSpec(Some("a\U{1C}b")) == Some("A B")
    ensures CapitalizeName(Some("a\U{1C}b")) == Some("A\U{1C}b")
  {
    BackendOnSeparator();
    FrontendOnSeparator();
  }

  lemma BackendOnSeparator()
    ensures CoreUtils.CapitalizeNameSpec(Some("a\U{1C}b")) == Some("A B")
  {
    assert "a\U{1C}b" == "a" + ['\U{1C}'] + "b";
    assert NoSpace(Python, "a") && NoSpace(Python, "b") by {
      assert !IsSpace(Python, "a"[0]) && !IsSpace(Python, "b"[0]);
    }
    assert IsSpace(Python, '\U{1C}');
    BackendSplitsAt("a", "b", '\U{1C}');
    assert Capitalized("a") == "A" && Capitalized("b") == "B";
    assert "A" + " " + "B" == "A B";
  }

  lemma FrontendOnSeparator()
    ensures CapitalizeName(Some("a\U{1C}b")) == Some("A\U{1C}b")
  {
    var s := "a\U{1C}b";
    assert NoSpace(JavaScript, s) by {
      assert !IsSpace(JavaScript, s[0]) && !IsSpace(JavaScript, s[1]) && !IsSpace(JavaScript, s[2]);
    }
    assert Capitalized(s) == "A\U{1C}b" by {
      assert Lower(s[1..]) == s[1..];
    }
    FrontendSingleWord(s);
  }

  /** Two words around one whitespace character become two capitalised words in the backend. */
  lemma BackendSplitsAt(a: string, b: string, c: char)
    requires a != [] && b != [] && NoSpace(Python, a) && NoSpace(Python, b) && IsSpace(Python, c)
    ensures CoreUtils.CapitalizeNameSpec(Some(a + [c] + b)) == Some(Capitalized(a) + " " + Capitalized(b))
  {
    var s := a + [c] + b;
    assert s[0] == a[0] && s[|s| - 1] == b[|b| - 1];
    TrimClean(Python, s);
    WordsAround(a, b, c);
    var tw := TitleWords([a, b]);
    assert tw[0] == Capitalized(a) && tw[1] == Capitalized(b);
    assert tw == [Capitalized(a), Capitalized(b)];
    assert Join([Capitalized(b)], " ") == Capitalized(b);
  }

  lemma WordsAround(a: string, b: string, c: char)
    requires a != [] && b != [] && NoSpace(Python, a) && NoSpace(Python, b) && IsSpace(Python, c)
    ensures Words(Python, a + [c] + b) == [a, b]
  {
    var cb := [c] + b;
    assert a + [c] + b == a + cb;
    WordsCons(Python, a, cb);
    assert Words(Python, cb) == Words(Python, cb[1..]);
    assert cb[1..] == b;
    WordsCons(Python, b, []);
    assert b + [] == b;
  }

  /** A name with no whitespace at all is one word to the frontend. */
  lemma FrontendSingleWord(s: string)
    requires s != [] && NoSpace(JavaScript, s)
    ensures CapitalizeName(Some(s)) == Some(Capitalized(s))
  {
    TrimClean(JavaScript, s);
    WordLenPrefix(JavaScript, s, []);
    assert s + [] == s;
    assert SplitRuns(JavaScript, s) == [s];
  }
}
