/**
 * `capitalize_name` (backend/app/core/utils.py): split a name on whitespace,
 * capitalise each word with `str.capitalize`, join with single spaces. A
 * missing or blank name is handed back as it came.
 */
module CoreUtils {
  import opened Wrappers
  import opened Text

  /** Falsy or whitespace-only: `not name or not name.strip()`. */
  predicate NameBlank(name: Option<string>) {
    name.None? || IsBlank(Python, name.value)
  }

  /** What `capitalize_name` returns. */
  function CapitalizeNameSpec(name: Option<string>): (r: Option<string>)
    ensures r.None? <==> name.None?
  {
    if NameBlank(name) then name
    else Some(Join(TitleWords(Words(Python, Trim(Python, name.value))), " "))
  }

  /** `capitalize_name`, with its loop over the words of the stripped name. */
  method CapitalizeName(name: Option<string>) returns (r: Option<string>)
    ensures r == CapitalizeNameSpec(name)
  {
    if name.None? || IsBlank(Python, name.value) {
      return name;
    }
    var words := Words(Python, Trim(Python, name.value));
    WordsClean(Python, Trim(Python, name.value));
    var capitalizedWords: seq<string> := [];
    var i := 0;
    while i < |words|
      invariant 0 <= i <= |words|
      invariant capitalizedWords == TitleWords(words[..i])
    {
      var word := words[i];
      if word != [] {
        capitalizedWords := capitalizedWords + [Capitalized(word)];
      }
      assert words[..i + 1] == words[..i] + [word];
      TitleWordsSnoc(words[..i], word);
      i := i + 1;
    }
    assert words[..i] == words;
    r := Some(Join(capitalizedWords, " "));
  }

  lemma {:induction false} TitleWordsSnoc(ws: seq<string>, w: string)
    ensures TitleWords(ws + [w]) == TitleWords(ws) + [Capitalized(w)]
  {
    var l, r := TitleWords(ws + [w]), TitleWords(ws) + [Capitalized(w)];
    assert |l| == |r|;
    forall k | 0 <= k < |l| ensures l[k] == r[k] {
      if k < |ws| { assert (ws + [w])[k] == ws[k]; }
    }
  }

  // ---------------------------------------------------------------------------
  // Properties

  /** Capitalising clean words keeps them clean: non-empty and free of whitespace. */
  lemma TitleWordsClean(ws: seq<string>)
    requires forall k :: 0 <= k < |ws| ==> ws[k] != [] && NoSpace(Python, ws[k])
    ensures forall k :: 0 <= k < |ws| ==> TitleWords(ws)[k] != [] && NoSpace(Python, TitleWords(ws)[k])
  {
  }

  /** A stripped string with something in it has at least one word. */
  lemma WordsOfStripped(s: string)
    requires !IsBlank(Python, s)
    ensures Words(Python, Trim(Python, s)) != []
  {
    var t := Trim(Python, s);
    assert !IsSpace(Python, t[0]);
  }

  /**
   * A name with something in it comes back non-empty, with no whitespace at
   * either end, and with single spaces as its only whitespace.
   */
  lemma CapitalizedNameShape(name: Option<string>)
    requires !NameBlank(name)
    ensures var r := CapitalizeNameSpec(name).value;
      && r != []
      && !IsSpace(Python, r[0]) && !IsSpace(Python, r[|r| - 1])
      && (forall i :: 0 <= i < |r| && IsSpace(Python, r[i]) ==> r[i] == ' ')
      && (forall i :: 0 <= i < |r| - 1 ==> !(IsSpace(Python, r[i]) && IsSpace(Python, r[i + 1])))
  {
    var t := Trim(Python, name.value);
    WordsOfStripped(name.value);
    WordsClean(Python, t);
    TitleWordsClean(Words(Python, t));
    JoinShape(Python, TitleWords(Words(Python, t)));
  }

  /** The output has as many words as the input, each the input's word capitalised. */
  lemma CapitalizedNameWords(name: Option<string>)
    requires !NameBlank(name)
    ensures Words(Python, CapitalizeNameSpec(name).value) == TitleWords(Words(Python, Trim(Python, name.value)))
    ensures |Words(Python, CapitalizeNameSpec(name).value)| == |Words(Python, Trim(Python, name.value))|
  {
    var t := Trim(Python, name.value);
    WordsClean(Python, t);
    TitleWordsClean(Words(Python, t));
    WordsOfJoin(Python, TitleWords(Words(Python, t)));
  }

  /** Capitalising an already capitalised name changes nothing. */
  lemma CapitalizeNameIdempotent(name: Option<string>)
    ensures CapitalizeNameSpec(CapitalizeNameSpec(name)) == CapitalizeNameSpec(name)
  {
    if !NameBlank(name) {
      var t := Trim(Python, name.value);
      var tw := TitleWords(Words(Python, t));
      var j := Join(tw, " ");
      CapitalizedNameShape(name);
      CapitalizedNameWords(name);
      TrimClean(Python, j);
      assert !IsBlank(Python, j);
      assert TitleWords(tw) == tw by {
        forall k | 0 <= k < |tw| ensures TitleWords(tw)[k] == tw[k] {
          CapitalizedIdempotent(Words(Python, t)[k]);
        }
      }
    }
  }

  /** The examples the function documents. */
  lemma CapitalizeNameJohnDoe()
    ensures CapitalizeNameSpec(Some("john" + " " + "doe")) == Some("John" + " " + "Doe")
  {
    assert UpperChar('j') == 'J' && UpperChar('d') == 'D';
    CleanWord("john", "John");
    CleanWord("doe", "Doe");
    TwoWordName("john", "doe", "John", "Doe");
  }

  lemma CapitalizeNameMaryJane()
    ensures CapitalizeNameSpec(Some("MARY" + " " + "JANE")) == Some("Mary" + " " + "Jane")
  {
    MaryJaneWords();
    TwoWordName("MARY", "JANE", "Mary", "Jane");
  }


  lemma MaryJaneWords()
    ensures NoSpace(Python, "MARY") && Capitalized("MARY") == "Mary"
    ensures NoSpace(Python, "JANE") && Capitalized("JANE") == "Jane"
  {
    assert LowerChar('A') == 'a' && LowerChar('R') == 'r' && LowerChar('Y') == 'y';
    assert "MARY"[1] == 'A' && "MARY"[2] == 'R' && "MARY"[3] == 'Y';
    CleanWord("MARY", "Mary");
    assert LowerChar('A') == 'a' && LowerChar('N') == 'n' && LowerChar('E') == 'e';
    assert "JANE"[1] == 'A' && "JANE"[2] == 'N' && "JANE"[3] == 'E';
    CleanWord("JANE", "Jane");
  }

  /** An ASCII letter word, capitalised. */
  lemma CleanWord(w: string, c: string)
    requires w != [] && forall i :: 0 <= i < |w| ==> 'a' <= w[i] <= 'z' || 'A' <= w[i] <= 'Z'
    requires |c| == |w| && c[0] == UpperChar(w[0]) && forall i :: 1 <= i < |w| ==> c[i] == LowerChar(w[i])
    ensures NoSpace(Python, w) && Capitalized(w) == c
  {
    assert NoSpace(Python, w) by {
      forall i | 0 <= i < |w| ensures !IsSpace(Python, w[i]) {
        assert 'A' <= w[i] <= 'z';
      }
    }
    assert Capitalized(w) == c by {
      var r := Capitalized(w);
      assert r[1..] == Lower(w[1..]);
      forall i | 0 <= i < |w| ensures r[i] == c[i] {
        if i > 0 { assert r[i] == Lower(w[1..])[i - 1]; }
      }
    }
  }

  /** A name of two clean words separated by one space capitalises word by word. */
  lemma TwoWordName(a: string, b: string, a': string, b': string)
    requires a != [] && b != [] && NoSpace(Python, a) && NoSpace(Python, b)
    requires Capitalized(a) == a' && Capitalized(b) == b'
    ensures CapitalizeNameSpec(Some(a + " " + b)) == Some(a' + " " + b')
  {
    var s := a + " " + b;
    JoinTwo(a, b, " ");
    assert Words(Python, s) == [a, b] by {
      WordsOfJoin(Python, [a, b]);
    }
    assert Trim(Python, s) == s by {
      assert s[0] == a[0] && s[|s| - 1] == b[|b| - 1];
      TrimClean(Python, s);
    }
    assert !NameBlank(Some(s)) by {
      assert Trim(Python, s) != [];
    }
    assert TitleWords([a, b]) == [a', b'] by {
      assert TitleWords([a, b])[0] == a' && TitleWords([a, b])[1] == b';
    }
    JoinTwo(a', b', " ");
    assert CapitalizeNameSpec(Some(s)) == Some(Join(TitleWords(Words(Python, Trim(Python, s))), " "));
  }

  lemma JoinTwo(a: string, b: string, sep: string)
    ensures Join([a, b], sep) == a + sep + b
  {
    assert [a, b][1..] == [b];
  }

}
