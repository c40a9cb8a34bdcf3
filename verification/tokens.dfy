/**
 * Tokenisation for the BM25 index (`preprocess_text` in backend/server.py):
 * clean the text, split it on whitespace, drop the language's stop words and
 * stem what is left. Lower-casing and the `[^\w\s]` regex are one opaque
 * `clean` function; the NLTK stop-word lists and Snowball stemmers are inputs.
 */
module Tokens {
  import opened Wrappers
  import opened Languages

  /** The characters Python's `str.isspace` accepts, on which `str.split()` splits. */
  predicate IsSpace(c: char)
  {
    c == ' ' || ('\t' <= c <= '\r') || ('\U{1C}' <= c <= '\U{1F}') || c == '\U{85}' || c == '\U{A0}'
    || c == '\U{1680}' || ('\U{2000}' <= c <= '\U{200A}') || c == '\U{2028}' || c == '\U{2029}'
    || c == '\U{202F}' || c == '\U{205F}' || c == '\U{3000}'
  }

  predicate NoSpace(w: string)
  {
    forall i :: 0 <= i < |w| ==> !IsSpace(w[i])
  }

  /** The longest prefix of `s` that holds no whitespace. */
  function Word(s: string): (w: string)
    ensures w <= s && NoSpace(w)
    ensures |w| < |s| ==> IsSpace(s[|w|])
  {
    if s == [] || IsSpace(s[0]) then [] else [s[0]] + Word(s[1..])
  }

  /** Python's `str.split()` with no separator: maximal runs of non-whitespace, in order. */
  function Split(s: string): (r: seq<string>)
    ensures forall k :: 0 <= k < |r| ==> r[k] != [] && NoSpace(r[k])
    decreases |s|
  {
    if s == [] then []
    else if IsSpace(s[0]) then Split(s[1..])
    else
      var w := Word(s);
      [w] + Split(s[|w|..])
  }

  /** The characters of `s` that are not whitespace, in order. */
  function RemoveSpaces(s: string): string
  {
    if s == [] then [] else (if IsSpace(s[0]) then [] else [s[0]]) + RemoveSpaces(s[1..])
  }

  /** The concatenation of a list of tokens. */
  function Concat(ts: seq<string>): string
  {
    if ts == [] then [] else ts[0] + Concat(ts[1..])
  }

  lemma {:induction false} RemoveSpacesWord(s: string)
    ensures RemoveSpaces(s) == Word(s) + RemoveSpaces(s[|Word(s)|..])
    decreases |s|
  {
    if s == [] {
    } else if IsSpace(s[0]) {
      assert Word(s) == [] && s[0..] == s;
    } else {
      var w1 := Word(s[1..]);
      RemoveSpacesWord(s[1..]);
      assert Word(s) == [s[0]] + w1;
      assert s[1..][|w1|..] == s[|Word(s)|..];
      calc {
        RemoveSpaces(s);
        [s[0]] + RemoveSpaces(s[1..]);
        [s[0]] + (w1 + RemoveSpaces(s[|Word(s)|..]));
        Word(s) + RemoveSpaces(s[|Word(s)|..]);
      }
    }
  }

  /** Splitting loses exactly the whitespace: the tokens put back together are the text without it. */
  lemma {:induction false} SplitConcat(s: string)
    ensures Concat(Split(s)) == RemoveSpaces(s)
    decreases |s|
  {
    if s != [] {
      if IsSpace(s[0]) {
        SplitConcat(s[1..]);
      } else {
        var w := Word(s);
        SplitConcat(s[|w|..]);
        RemoveSpacesWord(s);
        assert Split(s) == [w] + Split(s[|w|..]);
        assert ([w] + Split(s[|w|..]))[1..] == Split(s[|w|..]);
      }
    }
  }

  /** A word ends at the first whitespace: text after it does not change it. */
  lemma {:induction false} WordAppend(a: string, t: string)
    requires t != [] && IsSpace(t[0])
    ensures Word(a + t) == Word(a)
    decreases |a|
  {
    if a != [] && !IsSpace(a[0]) {
      assert (a + t)[1..] == a[1..] + t;
      WordAppend(a[1..], t);
    } else if a == [] {
      assert a + t == t;
    }
  }

  /** Whitespace separates tokens: splitting at a whitespace character splits the token list there. */
  lemma SplitAtSpace(a: string, c: char, b: string)
    requires IsSpace(c)
    ensures Split(a + [c] + b) == Split(a) + Split(b)
  {
    var t := [c] + b;
    assert t[0] == c && t[1..] == b;
    SplitBeforeSpace(a, t);
    assert a + [c] + b == a + t;
  }

  /** Text that starts with whitespace splits apart from whatever precedes it. */
  lemma {:induction false} SplitBeforeSpace(a: string, t: string)
    requires t != [] && IsSpace(t[0])
    ensures Split(a + t) == Split(a) + Split(t)
    decreases |a|
  {
    if a == [] {
      assert a + t == t;
    } else if IsSpace(a[0]) {
      SplitBeforeSpace(a[1..], t);
      SplitFirstSpace(a, t);
    } else {
      WordAppend(a, t);
      SplitBeforeSpace(a[|Word(a)|..], t);
      SplitFirstWord(a, t);
    }
  }

  lemma SplitFirstSpace(a: string, t: string)
    requires a != [] && IsSpace(a[0])
    ensures Split(a + t) == Split(a[1..] + t)
    ensures Split(a) == Split(a[1..])
  {
    assert (a + t)[0] == a[0];
    assert (a + t)[1..] == a[1..] + t;
  }

  lemma SplitFirstWord(a: string, t: string)
    requires a != [] && !IsSpace(a[0]) && Word(a + t) == Word(a)
    ensures Split(a + t) == [Word(a)] + Split(a[|Word(a)|..] + t)
    ensures Split(a) == [Word(a)] + Split(a[|Word(a)|..])
  {
    var w := Word(a);
    assert (a + t)[0] == a[0];
    assert (a + t)[|w|..] == a[|w|..] + t;
  }

  /** A run of non-whitespace characters is one token, whole. */
  lemma {:induction false} SplitWord(w: string)
    requires w != [] && NoSpace(w)
    ensures Split(w) == [w]
  {
    WordWhole(w);
    assert w[|w|..] == [];
  }

  lemma {:induction false} WordWhole(w: string)
    requires NoSpace(w)
    ensures Word(w) == w
    decreases |w|
  {
    if w != [] {
      WordWhole(w[1..]);
    }
  }

  /** `tok` is the maximal run of non-whitespace starting at index i: i is the text's start or follows whitespace. */
  predicate RunAt(s: string, i: int, tok: string)
  {
    0 <= i < |s| && (i == 0 || IsSpace(s[i - 1])) && tok == Word(s[i..])
  }

  /** Every token is a maximal run of non-whitespace of the text. */
  lemma SplitWords(s: string)
    ensures forall tok :: tok in Split(s) ==> exists i :: RunAt(s, i, tok)
  {
    forall tok | tok in Split(s)
      ensures exists i :: RunAt(s, i, tok)
    {
      var k :| 0 <= k < |Split(s)| && Split(s)[k] == tok;
      var i := SplitWordAt(s, k);
    }
  }

  lemma {:induction false} SplitWordAt(s: string, k: nat) returns (i: nat)
    requires k < |Split(s)|
    ensures RunAt(s, i, Split(s)[k])
    decreases |s|
  {
    if IsSpace(s[0]) {
      var j := SplitWordAt(s[1..], k);
      i := RunShift(s, 1, j, Split(s)[k]);
    } else if k == 0 {
      assert s[0..] == s;
      i := 0;
    } else {
      var w := Word(s);
      var t := s[|w|..];
      assert Split(s) == [w] + Split(t);
      assert Split(s)[k] == Split(t)[k - 1];
      var j := SplitWordAt(t, k - 1);
      i := RunShift(s, |w|, j, Split(s)[k]);
    }
  }

  lemma RunShift(s: string, d: nat, j: nat, tok: string) returns (i: nat)
    requires 0 < d <= |s| && RunAt(s[d..], j, tok) && (j > 0 || IsSpace(s[d - 1]))
    ensures i == d + j && RunAt(s, i, tok)
  {
    i := d + j;
    assert s[d..][j..] == s[i..];
    if j > 0 {
      assert s[d..][j - 1] == s[i - 1];
    }
  }

  /** A text splits into no tokens exactly when it is all whitespace. */
  lemma {:induction false} SplitEmpty(s: string)
    ensures Split(s) == [] <==> forall i :: 0 <= i < |s| ==> IsSpace(s[i])
    decreases |s|
  {
    if s != [] {
      if IsSpace(s[0]) {
        SplitEmpty(s[1..]);
        assert forall i :: 1 <= i < |s| ==> s[i] == s[1..][i - 1];
      }
    }
  }

  /** The stop-word lists and stemmers loaded at start-up (backend/server.py:35-45). */
  datatype NlpResources = NlpResources(
    englishStopWords: set<string>,
    spanishStopWords: set<string>,
    englishStemmer: string -> string,
    spanishStemmer: string -> string)

  /** `stop_words[lang]`: NLTK's lists for English and Spanish, the empty set for Hindi. */
  function StopWords(res: NlpResources, lang: Lang): (stop: set<string>)
    ensures lang == En ==> stop == res.englishStopWords
    ensures lang == Es ==> stop == res.spanishStopWords
    ensures lang == Hi ==> stop == {}
  {
    match lang
    case En => res.englishStopWords
    case Es => res.spanishStopWords
    case Hi => {}
  }

  /** `stemmers.get(lang)`: a Snowball stemmer for English and Spanish, none for Hindi. */
  function Stemmer(res: NlpResources, lang: Lang): (stem: Option<string -> string>)
    ensures lang == En ==> stem == Some(res.englishStemmer)
    ensures lang == Es ==> stem == Some(res.spanishStemmer)
    ensures stem.None? <==> lang == Hi
  {
    match lang
    case En => Some(res.englishStemmer)
    case Es => Some(res.spanishStemmer)
    case Hi => None
  }

  /** The tokens that are not stop words, in order. */
  function RemoveStopWords(tokens: seq<string>, stop: set<string>): (r: seq<string>)
    ensures |r| <= |tokens|
    ensures forall k :: 0 <= k < |r| ==> r[k] in tokens && r[k] !in stop
    ensures forall k :: 0 <= k < |tokens| && tokens[k] !in stop ==> tokens[k] in r
    ensures stop == {} ==> r == tokens
    ensures |tokens| == 1 ==> r == if tokens[0] in stop then [] else tokens
  {
    if tokens == [] then []
    else
      var rest := RemoveStopWords(tokens[1..], stop);
      assert forall k :: 1 <= k < |tokens| ==> tokens[k] == tokens[1..][k - 1];
      if tokens[0] in stop then rest else [tokens[0]] + rest
  }

  /** Stop-word removal works token by token: it distributes over concatenation, so order is kept. */
  lemma {:induction false} RemoveStopWordsAppend(a: seq<string>, b: seq<string>, stop: set<string>)
    ensures RemoveStopWords(a + b, stop) == RemoveStopWords(a, stop) + RemoveStopWords(b, stop)
    decreases |a|
  {
    if a != [] {
      var ab := a + b;
      assert ab[0] == a[0] && ab[1..] == a[1..] + b;
      RemoveStopWordsAppend(a[1..], b, stop);
      RemoveStopWordsCons(ab, stop);
      RemoveStopWordsCons(a, stop);
    } else {
      assert a + b == b;
    }
  }

  lemma RemoveStopWordsCons(tokens: seq<string>, stop: set<string>)
    requires tokens != []
    ensures RemoveStopWords(tokens, stop)
      == (if tokens[0] in stop then [] else [tokens[0]]) + RemoveStopWords(tokens[1..], stop)
  {
  }

  /** `preprocess_text(text, lang)`. */
  function Preprocess(res: NlpResources, clean: string -> string, text: string, lang: Lang): (r: seq<string>)
    ensures |r| <= |Split(clean(text))|
    ensures lang == Hi ==> r == Split(clean(text))
  {
    var tokens := Split(clean(text));
    var kept := RemoveStopWords(tokens, StopWords(res, lang));
    match Stemmer(res, lang)
    case None => kept
    case Some(stem) => seq(|kept|, k requires 0 <= k < |kept| => stem(kept[k]))
  }

  /** With a stemmer, each output token is the stem of the kept token at the same position. */
  lemma PreprocessStems(res: NlpResources, clean: string -> string, text: string, lang: Lang)
    requires lang != Hi
    ensures var kept := RemoveStopWords(Split(clean(text)), StopWords(res, lang));
      var r := Preprocess(res, clean, text, lang);
      |r| == |kept| && forall k :: 0 <= k < |r| ==> r[k] == Stemmer(res, lang).value(kept[k])
  {
  }
}
