/**
 * The view logic of the search page (frontend/src/App.jsx): the pure display
 * helpers, the "no results" condition, and the state slots that
 * `handleSearch`, `openModal` and `closeModal` update.
 *
 * Strings are sequences of Unicode scalar values; JavaScript's `.length` and
 * `substring` count UTF-16 code units, which differ only outside the Basic
 * Multilingual Plane. The `fetch` round trip is an input to `Settle`.
 */
module App {
  import opened Wrappers
  import Languages

  /** One result as the page receives it; `summary` and `text` may be absent. */
  datatype Document = Document(title: string, url: string, lang: string,
                               summary: Option<string>, text: Option<string>,
                               score: real, semanticScore: real, bm25Score: real)

  /** The decoded JSON body of a successful reply. */
  datatype SearchResponse = SearchResponse(queryDetectedLang: string, results: seq<Document>)

  // ---------------------------------------------------------------------------
  // getFlag and getLangName
  // ---------------------------------------------------------------------------

  const FlagUnitedStates: string := "\U{1F1FA}\U{1F1F8}"
  const FlagSpain: string := "\U{1F1EA}\U{1F1F8}"
  const FlagIndia: string := "\U{1F1EE}\U{1F1F3}"
  const Globe: string := "\U{1F310}"

  /** One of the codes the page has a flag and a name for. */
  predicate KnownCode(lang: string)
  {
    lang == "en" || lang == "es" || lang == "hi"
  }

  /** `getFlag`: a national flag for the three known codes, the globe for any other. */
  function GetFlag(lang: string): (flag: string)
    ensures lang == "en" ==> flag == FlagUnitedStates
    ensures lang == "es" ==> flag == FlagSpain
    ensures lang == "hi" ==> flag == FlagIndia
    ensures flag == Globe <==> !KnownCode(lang)
    ensures flag in {FlagUnitedStates, FlagSpain, FlagIndia, Globe}
  {
    if lang == "en" then FlagUnitedStates
    else if lang == "es" then FlagSpain
    else if lang == "hi" then FlagIndia
    else Globe
  }

  /** `String.prototype.toUpperCase` on one character, for the ASCII letters. */
  function UpperChar(c: char): (u: char)
    ensures !('a' <= u <= 'z')
    ensures 'a' <= c <= 'z' ==> 'A' <= u <= 'Z' && u as int - 'A' as int == c as int - 'a' as int
    ensures !('a' <= c <= 'z') ==> u == c
  {
    if 'a' <= c <= 'z' then c - 'a' + 'A' else c
  }

  /** `String.prototype.toUpperCase`, character by character. */
  function UpperCase(s: string): (r: string)
    ensures |r| == |s|
    ensures forall i :: 0 <= i < |r| ==> r[i] == UpperChar(s[i]) && !('a' <= r[i] <= 'z')
  {
    seq(|s|, i requires 0 <= i < |s| => UpperChar(s[i]))
  }

  /**
   * `getLangName`: the English name of a known code, the upper-cased code
   * otherwise. A fallback name never coincides with a known language's name.
   */
  function GetLangName(lang: string): (name: string)
    ensures lang == "en" ==> name == "English"
    ensures lang == "es" ==> name == "Spanish"
    ensures lang == "hi" ==> name == "Hindi"
    ensures KnownCode(lang) <==> name in {"English", "Spanish", "Hindi"}
    ensures !KnownCode(lang) ==> name == UpperCase(lang)
  {
    if lang == "en" then "English"
    else if lang == "es" then "Spanish"
    else if lang == "hi" then "Hindi"
    else
      var up := UpperCase(lang);
      assert up != "English" && up != "Spanish" && up != "Hindi" by {
        if |up| > 1 { assert !('a' <= up[1] <= 'z'); }
      }
      up
  }

  /**
   * The flag and the name agree on which codes are known: the globe is shown
   * exactly when the name falls back to the upper-cased code.
   */
  lemma FlagMatchesName(lang: string)
    ensures GetFlag(lang) == Globe <==> GetLangName(lang) == UpperCase(lang)
  {
    if KnownCode(lang) {
      assert |UpperCase(lang)| == 2;
    }
  }

  /**
   * The language the search service reports for a query is always one of
   * its corpora, so its badge shows a national flag and a language name.
   */
  lemma DetectedLangBadge(l: Languages.Lang)
    ensures GetFlag(l.Code()) != Globe
    ensures GetLangName(l.Code()) in {"English", "Spanish", "Hindi"}
  {
  }

  // ---------------------------------------------------------------------------
  // Snippet and modal text
  // ---------------------------------------------------------------------------

  /** The number of characters a result card shows before the ellipsis. */
  const SnippetLength: nat := 100

  /** JavaScript truthiness of an optional string: present and non-empty. */
  predicate Truthy(s: Option<string>)
  {
    s.Some? && s.value != ""
  }

  /** `doc.summary || doc.text || ""`: the text a card and the modal show. */
  function Content(doc: Document): (c: string)
    ensures Truthy(doc.summary) ==> c == doc.summary.value
    ensures !Truthy(doc.summary) && Truthy(doc.text) ==> c == doc.text.value
    ensures c == "" <==> !Truthy(doc.summary) && !Truthy(doc.text)
  {
    if Truthy(doc.summary) then doc.summary.value
    else if Truthy(doc.text) then doc.text.value
    else ""
  }

  /**
   * The card snippet: the content itself when it is at most 100 characters,
   * otherwise its first 100 characters followed by "...".
   */
  function Snippet(content: string): (r: string)
    ensures |content| <= SnippetLength ==> r == content
    ensures |content| > SnippetLength ==> |r| == SnippetLength + 3 && r[SnippetLength..] == "..."
    ensures |r| <= SnippetLength + 3
    ensures r[..Min(|content|, SnippetLength)] == content[..Min(|content|, SnippetLength)]
  {
    if |content| > SnippetLength then content[..SnippetLength] + "..." else content
  }

  function Min(a: nat, b: nat): nat
  {
    if a <= b then a else b
  }

  /**
   * `selectedDoc.summary || selectedDoc.text`, as rendered: an absent value
   * renders as nothing, so the modal shows the same text the card starts from.
   */
  function ModalText(doc: Document): (t: string)
  {
    if Truthy(doc.summary) then doc.summary.value
    else match doc.text case Some(s) => s case None => ""
  }

  /**
   * A card's snippet is an abbreviation of what the modal shows in full: the
   * modal text starts with the snippet's first up-to-100 characters, and the
   * two agree whenever the text is at most 100 characters long.
   */
  lemma SnippetAbbreviatesModal(doc: Document)
    ensures var t := ModalText(doc);
      var s := Snippet(Content(doc));
      && t == Content(doc)
      && s[..Min(|t|, SnippetLength)] == t[..Min(|t|, SnippetLength)]
      && (|t| <= SnippetLength ==> s == t)
  {
  }

  // ---------------------------------------------------------------------------
  // The results area
  // ---------------------------------------------------------------------------

  /** What the results container shows. */
  datatype ResultsArea = ResultList(docs: seq<Document>) | NoResults | Nothing

  /**
   * The conditional at frontend/src/App.jsx:116-224: the list when there are
   * results, the "no results" message when a settled reply is empty, and
   * nothing otherwise.
   */
  function ResultsAreaOf(resultsData: Option<SearchResponse>, loading: bool): (v: ResultsArea)
    ensures v == NoResults <==>
      resultsData.Some? && |resultsData.value.results| == 0 && !loading
    ensures v.ResultList? <==> resultsData.Some? && |resultsData.value.results| > 0
    ensures v.ResultList? ==> v.docs == resultsData.value.results
  {
    if resultsData.Some? && |resultsData.value.results| > 0 then ResultList(resultsData.value.results)
    else if !loading && resultsData.Some? then NoResults
    else Nothing
  }

  // ---------------------------------------------------------------------------
  // The query guard
  // ---------------------------------------------------------------------------

  /** The characters `String.prototype.trim` removes: ECMAScript WhiteSpace and LineTerminator. */
  predicate IsJsSpace(c: char)
  {
    c == '\t' || c == '\n' || c == '\U{B}' || c == '\U{C}' || c == '\r' || c == ' '
    || c == '\U{A0}' || c == '\U{1680}' || ('\U{2000}' <= c <= '\U{200A}')
    || c == '\U{2028}' || c == '\U{2029}' || c == '\U{202F}' || c == '\U{205F}'
    || c == '\U{3000}' || c == '\U{FEFF}'
  }

  /** `s` with its leading whitespace removed. */
  function TrimStart(s: string): (r: string)
    ensures r == [] || !IsJsSpace(r[0])
    ensures |r| <= |s| && r == s[|s| - |r|..]
    ensures Blank(s[..|s| - |r|])
  {
    if s != [] && IsJsSpace(s[0]) then
      var r := TrimStart(s[1..]);
      assert s[1..][..|s| - 1 - |r|] == s[1..|s| - |r|];
      r
    else s
  }

  /** `s` with its trailing whitespace removed. */
  function TrimEnd(s: string): (r: string)
    ensures r == [] || !IsJsSpace(r[|r| - 1])
    ensures r <= s
    ensures Blank(s[|r|..])
  {
    if s != [] && IsJsSpace(s[|s| - 1]) then
      var r := TrimEnd(s[..|s| - 1]);
      assert s[..|s| - 1][|r|..] == s[|r|..|s| - 1];
      r
    else s
  }

  /** `String.prototype.trim`: the middle of `s` between a blank prefix and a blank suffix. */
  function Trim(s: string): (r: string)
    ensures r == [] || (!IsJsSpace(r[0]) && !IsJsSpace(r[|r| - 1]))
    ensures exists i, j :: 0 <= i <= j <= |s| && r == s[i..j] && Blank(s[..i]) && Blank(s[j..])
  {
    var t := TrimStart(s);
    var r := TrimEnd(t);
    TrimMiddle(s, t, r);
    r
  }

  lemma TrimMiddle(s: string, t: string, r: string)
    requires |t| <= |s| && t == s[|s| - |t|..] && Blank(s[..|s| - |t|])
    requires r <= t && Blank(t[|r|..])
    ensures exists i, j :: 0 <= i <= j <= |s| && r == s[i..j] && Blank(s[..i]) && Blank(s[j..])
  {
    var i := |s| - |t|;
    var j := i + |r|;
    assert r == s[i..j];
    assert s[j..] == t[|r|..];
  }

  /** A query is blank, so `!query.trim()` holds, exactly when every character is whitespace. */
  predicate Blank(query: string)
  {
    forall i :: 0 <= i < |query| ==> IsJsSpace(query[i])
  }

  lemma {:induction false} TrimStartEmpty(s: string)
    ensures TrimStart(s) == [] <==> Blank(s)
  {
    if s != [] && IsJsSpace(s[0]) {
      TrimStartEmpty(s[1..]);
      assert forall i :: 1 <= i < |s| ==> s[i] == s[1..][i - 1];
    }
  }

  lemma {:induction false} TrimEndEmpty(s: string)
    ensures TrimEnd(s) == [] <==> Blank(s)
  {
    if s != [] && IsJsSpace(s[|s| - 1]) {
      TrimEndEmpty(s[..|s| - 1]);
    }
  }

  /** The guard of `handleSearch`: trimming leaves nothing exactly when the query is all whitespace. */
  lemma TrimEmpty(s: string)
    ensures Trim(s) == [] <==> Blank(s)
  {
    TrimStartEmpty(s);
    TrimEndEmpty(TrimStart(s));
    if Blank(s) {
      assert TrimStart(s) == [];
    } else if TrimStart(s) != [] {
      assert !Blank(TrimStart(s));
    }
  }

  // ---------------------------------------------------------------------------
  // The page state
  // ---------------------------------------------------------------------------

  /** The message shown for any failed search. */
  const ConnectionError: string := "Error connecting to the search server."

  /**
   * How the request issued by `handleSearch` settles: an HTTP reply with its
   * `ok` flag and its body decoded as JSON (`None` when decoding fails), or a
   * network failure.
   */
  datatype FetchOutcome = Reply(ok: bool, body: Option<SearchResponse>) | NetworkFailure

  /** The reply that `setResultsData` receives, if the request succeeded. */
  function Received(outcome: FetchOutcome): (data: Option<SearchResponse>)
    ensures data.Some? <==> outcome.Reply? && outcome.ok && outcome.body.Some?
    ensures data.Some? ==> data == outcome.body
  {
    match outcome
    case Reply(ok, body) => if ok then body else None
    case NetworkFailure => None
  }

  /** The phase the search slots are in. */
  datatype Phase = Idle | Loading | Succeeded(data: SearchResponse) | Failed(message: string)

  /** The five `useState` slots of the page. */
  class SearchView {
    var query: string
    var resultsData: Option<SearchResponse>
    var loading: bool
    var error: Option<string>
    var selectedDoc: Option<Document>

    /** Loading excludes stale results and errors; results and an error never coexist. */
    ghost predicate Valid()
      reads this
    {
      && (loading ==> resultsData.None? && error.None?)
      && (resultsData.Some? ==> error.None?)
    }

    /** The search phase the slots encode. */
    ghost function PhaseOf(): Phase
      reads this
    {
      if loading then Loading
      else if resultsData.Some? then Succeeded(resultsData.value)
      else if error.Some? then Failed(error.value)
      else Idle
    }

    /** The initial state of every slot. */
    constructor ()
      ensures Valid() && PhaseOf() == Idle
      ensures query == "" && resultsData == None && !loading && error == None && selectedDoc == None
    {
      query, resultsData, loading, error, selectedDoc := "", None, false, None, None;
    }

    /** The input's `onChange`: `setQuery(e.target.value)`. */
    method SetQuery(q: string)
      requires Valid()
      modifies this`query
      ensures Valid()
      ensures query == q
    {
      query := q;
    }

    /**
     * The synchronous part of `handleSearch` (frontend/src/App.jsx:15-19): a
     * blank query changes nothing and sends nothing; any other query clears
     * the previous outcome, starts loading and is sent.
     */
    method Submit() returns (request: Option<string>)
      requires Valid()
      modifies this`loading, this`error, this`resultsData
      ensures Valid()
      ensures Blank(query) ==> request == None && unchanged(this)
      ensures !Blank(query) ==>
        && request == Some(query)
        && loading && error == None && resultsData == None && PhaseOf() == Loading
    {
      TrimEmpty(query);
      if Trim(query) == [] {
        return None;
      }
      loading := true;
      error := None;
      resultsData := None;
      request := Some(query);
    }

    /**
     * The continuation of `handleSearch` once the request settles
     * (frontend/src/App.jsx:21-37): the decoded reply is stored on success;
     * on a non-ok status, a network failure or an undecodable body the fixed
     * message is stored and no results; loading ends in every case.
     */
    method Settle(outcome: FetchOutcome)
      requires Valid() && loading
      modifies this`loading, this`error, this`resultsData
      ensures Valid() && !loading
      ensures Received(outcome).Some? ==>
        resultsData == Received(outcome) && error == None && PhaseOf() == Succeeded(Received(outcome).value)
      ensures Received(outcome).None? ==>
        resultsData == None && error == Some(ConnectionError) && PhaseOf() == Failed(ConnectionError)
    {
      var data := Received(outcome);
      if data.Some? {
        resultsData := data;
      } else {
        error := Some(ConnectionError);
      }
      loading := false;
    }

    /** `handleSearch` as one sequential step, with the request's outcome given. */
    method HandleSearch(outcome: FetchOutcome) returns (request: Option<string>)
      requires Valid()
      modifies this`loading, this`error, this`resultsData
      ensures Valid()
      ensures request.None? <==> Blank(query)
      ensures request.None? ==> unchanged(this)
      ensures request.Some? ==> request.value == query && !loading
      ensures request.Some? && Received(outcome).Some? ==>
        resultsData == Received(outcome) && error == None
      ensures request.Some? && Received(outcome).None? ==>
        resultsData == None && error == Some(ConnectionError)
    {
      request := Submit();
      if request.Some? {
        Settle(outcome);
      }
    }

    /** `openModal(doc, e)`: the modal shows `doc`. */
    method OpenModal(doc: Document)
      requires Valid()
      modifies this`selectedDoc
      ensures Valid()
      ensures selectedDoc == Some(doc)
      ensures query == old(query) && resultsData == old(resultsData)
      ensures loading == old(loading) && error == old(error)
    {
      selectedDoc := Some(doc);
    }

    /** `closeModal()`: the modal closes; the search slots are untouched. */
    method CloseModal()
      requires Valid()
      modifies this`selectedDoc
      ensures Valid()
      ensures selectedDoc == None
      ensures query == old(query) && resultsData == old(resultsData)
      ensures loading == old(loading) && error == old(error)
    {
      selectedDoc := None;
    }
  }
}
