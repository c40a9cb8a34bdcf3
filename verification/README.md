# NeuralHybrid Search: ranking pipeline and search-page view logic

This project models the core of a multilingual search engine in Dafny. The
backend (`backend/server.py`) holds English, Spanish and Hindi corpora. For a
query it scores every document twice: once with a sentence-embedding cosine
similarity (the semantic score) and once with BM25 (the keyword score). It
min–max normalises both score vectors and fuses them with a per-language weight
alpha. It drops documents whose fused score is below 0.2. It then merges the
three languages, sorts the hits by score, highest first, and returns the first
twelve. The frontend (`frontend/src/App.jsx`) is a single page. It submits
the query, stores the reply or an error in its state slots, and renders result
cards (language flag and name, and a snippet: the first 100 characters of the
text, followed by "..." when the text is longer) and a detail modal.

Modules:

- `Wrappers` (wrappers.dfy): `Option` and `Result`.
- `Languages` (languages.dfy): the three corpus languages and their codes.
- `Normalize` (normalize.dfy): `normalize_scores`.
- `Tokens` (tokens.dfy): `preprocess_text`, including Python's `str.split()`.
- `Ranking` (ranking.dfy): `hybrid_search`. This covers the fusion, the
  threshold loop and the result objects. The loop is the method `HybridSearch`,
  proved equal to the function `HybridHits`.
- `Search` (search.dfy): the `/search` route. This covers the language fallback,
  the weights, the en → es → hi accumulation loop (`SearchRoute`), the stable
  descending sort and the cut to twelve.
- `App` (app.dfy): `getFlag`, `getLangName`, the snippet, the results-area
  condition, the `trim` guard, and the class `SearchView`. That class has the
  five state slots and the `handleSearch`, `openModal` and `closeModal`
  transitions.

Inputs that come from foreign code are parameters:

- the raw cosine and BM25 score vectors (`Ranking.Scored`);
- the language detector's answer (`Option<string>`, with `None` when it raised);
- the NLTK stop-word sets and Snowball stemmers (`Tokens.NlpResources`);
- the lower-case-and-strip-punctuation step (`clean`);
- how the browser's `fetch` settled (`App.FetchOutcome`).

The card uses JavaScript truthiness (`doc.summary || doc.text || ""`), so an
empty `summary` falls through to `text`; `App.Content` models that.

## Model

| member | source | states |
|---|---|---|
| `Normalize.Min` | backend/server.py:86 | the minimum is an element of the vector and no element is below it |
| `Normalize.Max` | backend/server.py:87 | the maximum is an element of the vector and no element is above it |
| `Normalize.Scale` | backend/server.py:90 | a score scaled into [min, max] lies in [0,1]; it is 0 exactly at the minimum and 1 exactly at the maximum |
| `Normalize.ScaleValue` | backend/server.py:90 | the scaled score r satisfies r·(max − min) = x − min, so it is (x − min)/(max − min) |
| `Normalize.NormalizeScores` | backend/server.py:82-90 | output has the input's length (so empty gives empty); every normalised score lies in [0,1] |
| `Normalize.NormalizeAt` | backend/server.py:86-90 | with a non-zero spread, the i-th output is the i-th score scaled into [min, max], that is (s[i] − min)/(max − min) |
| `Normalize.NormalizeAllZero` | backend/server.py:88-89 | the output is all zeros if and only if all input scores are equal |
| `Normalize.NormalizeExtremes` | backend/server.py:86-90 | with a non-zero spread, a score maps to 0 iff it is the minimum and to 1 iff it is the maximum, and both 0 and 1 occur |
| `Normalize.NormalizeMonotone` | backend/server.py:88-90 | s[i] ≤ s[j] implies out[i] ≤ out[j] |
| `Normalize.NormalizeStrict` | backend/server.py:90 | with a non-zero spread, s[i] < s[j] iff out[i] < out[j] |
| `Tokens.Word` | backend/server.py:49 | the longest whitespace-free prefix: a prefix with no whitespace, followed by whitespace or the end |
| `Tokens.Split` | backend/server.py:49 | every token of `str.split()` is non-empty and holds no whitespace |
| `Tokens.SplitWords` | backend/server.py:49 | every token is a maximal run: the longest whitespace-free word starting at the text's start or just after whitespace |
| `Tokens.SplitAtSpace` | backend/server.py:49 | splitting at a whitespace character splits the token list there: split(a + c + b) = split(a) + split(b) |
| `Tokens.SplitWord` | backend/server.py:49 | a non-empty whitespace-free text is one token, whole (so "ab" gives ["ab"]) |
| `Tokens.SplitConcat` | backend/server.py:49 | the tokens concatenated are the text with its whitespace removed, so splitting loses nothing else |
| `Tokens.SplitEmpty` | backend/server.py:49 | a text yields no tokens iff it is all whitespace |
| `Tokens.StopWords` | backend/server.py:41-45 | English and Spanish use their NLTK lists; Hindi has the empty stop-word set |
| `Tokens.Stemmer` | backend/server.py:35-39 | English and Spanish use their Snowball stemmers; only Hindi has no stemmer |
| `Tokens.RemoveStopWords` | backend/server.py:50-51 | keeps exactly the tokens not in the stop set, never more tokens than given, and all of them for an empty set; a single token is kept iff it is not a stop word |
| `Tokens.RemoveStopWordsAppend` | backend/server.py:50-51 | filtering distributes over concatenation, so order and duplicates are kept token by token |
| `Tokens.Preprocess` | backend/server.py:47-54 | never more tokens than the whitespace split of the cleaned text; for Hindi exactly that split |
| `Tokens.PreprocessStems` | backend/server.py:52-53 | for English and Spanish each output token is the stem of the kept token at the same position |
| `Ranking.FuseInUnit` | backend/server.py:109 | for alpha in [0,1], fusing normalised scores gives scores in [0,1] |
| `Ranking.Kept` | backend/server.py:112-115 | the surviving document indices are strictly increasing and in range; each has fused score ≥ 0.2; every index with score ≥ 0.2 is among them |
| `Ranking.HybridHits` | backend/server.py:92-132 | empty corpus gives []; no more results than documents; every result has the queried language, score ≥ 0.2 and score = alpha·semantic + (1−alpha)·bm25 with both parts in [0,1] |
| `Ranking.HybridHitsExact` | backend/server.py:105-130 | the k-th result is built from the k-th surviving document (title or "No Title", url or "#", text, normalised scores), so there is at most one result per document; a document survives iff its fused score is ≥ 0.2 |
| `Ranking.HybridHitsSemanticOnly` | backend/server.py:109 | with alpha 1.0 every result's score equals its semantic score |
| `Ranking.HybridSearch` | backend/server.py:92-132 | the threshold loop returns exactly `HybridHits` |
| `Search.Insert` | backend/server.py:157 | insertion adds exactly the one hit to the multiset of hits |
| `Search.InsertSorted` | backend/server.py:157 | inserting into a descending sequence keeps it descending |
| `Search.InsertWithScore` | backend/server.py:157 | an inserted hit goes before the hits of equal score already present |
| `Search.SortByScoreDesc` | backend/server.py:157 | the sort is a permutation of its input, of the same length, ordered by non-increasing score |
| `Search.SortStable` | backend/server.py:157 | the sort is stable: for every score value, hits with that score keep their input order |
| `Search.Take` | backend/server.py:160 | `[:12]` is a prefix of length min(12, n) |
| `Search.PrimaryLang` | backend/server.py:142-146 | the primary language is es iff the detector said "es", hi iff it said "hi", and en otherwise, including on a detector exception |
| `Search.AlphaFor` | backend/server.py:152 | alpha is in (0,1], and it is 1.0 exactly for the non-primary languages |
| `Search.AlphaForValue` | backend/server.py:152 | the primary language is searched with 0.6 and the others with 1.0 |
| `Search.HitScoredIn` | backend/server.py:151-153 | a hit of language t carries t, passed the threshold and was weighted with t's alpha |
| `Search.AccumulatedInOrder` | backend/server.py:148-154 | `all_results` after the loop is the English hits, then the Spanish, then the Hindi |
| `Search.AccumulatedSound` | backend/server.py:148-154 | every accumulated hit belongs to a visited language and comes from that language's hits |
| `Search.AccumulatedComplete` | backend/server.py:148-154 | every hit of every visited language is accumulated |
| `Search.SearchResult` | backend/server.py:136-165 | a missing or empty query, and only that, is rejected with 400 "Empty query"; a success reports the primary language |
| `Search.SearchRoute` | backend/server.py:135-165 | the route's loop, sort and slice return exactly `SearchResult` |
| `Search.SearchRanking` | backend/server.py:148-160 | a success ranks the en, es and hi hits together: min(12, n) of them, highest score first, a sub-multiset (all of them when n ≤ 12), none left out scoring above a returned one, and hits of equal score in en, es, hi and document order |
| `Search.TopRanked` | backend/server.py:156-160 | the answer has at most 12 hits, sorted non-increasingly; it is a prefix of the stable sort of all hits, of length min(12, n), and a sub-multiset of them (all of them when n ≤ 12) |
| `Search.TopKeepsBest` | backend/server.py:156-160 | every hit cut off scores no higher than any hit returned |
| `Search.TopTiesInOrder` | backend/server.py:149-160 | for each score value, the returned hits with that score are a prefix of the accumulated hits with that score, in accumulation order |
| `Search.AccumulatedScoredFor` | backend/server.py:148-154 | every accumulated hit has score ≥ 0.2 and normalised parts in [0,1]; primary-language hits score 0.6·sem + 0.4·bm25 and the others score exactly sem |
| `Search.WeightedByConstant` | backend/server.py:152 | a hit weighted with 0.6 scores 0.6·sem + 0.4·bm25; one weighted with 1.0 scores its semantic score |
| `Search.SearchHitScores` | backend/server.py:149-160 | every hit in a successful answer satisfies the score facts of `AccumulatedScoredFor` relative to the reported language |
| `App.GetFlag` | frontend/src/App.jsx:49-60 | en gets 🇺🇸, es 🇪🇸, hi 🇮🇳; the globe exactly for any other code |
| `App.UpperChar` | frontend/src/App.jsx:71 | a lower-case ASCII letter becomes the upper-case letter at the same alphabet position; other characters are unchanged |
| `App.UpperCase` | frontend/src/App.jsx:71 | upper-casing keeps the length and upper-cases each character in place, leaving no lower-case ASCII letter |
| `App.GetLangName` | frontend/src/App.jsx:62-73 | en is "English", es "Spanish", hi "Hindi"; any other code is upper-cased, which never equals one of those names |
| `App.FlagMatchesName` | frontend/src/App.jsx:49-73 | the globe is shown exactly when the name falls back to the upper-cased code |
| `App.DetectedLangBadge` | frontend/src/App.jsx:104-108 | every language the backend can report gets a national flag and a language name |
| `App.Content` | frontend/src/App.jsx:152-153 | content is summary if truthy, else text if truthy, and empty exactly when neither is |
| `App.Snippet` | frontend/src/App.jsx:156-159 | content of ≤ 100 chars is shown unchanged; longer content becomes 103 chars ending in "..."; the first min(n,100) chars always agree |
| `App.SnippetAbbreviatesModal` | frontend/src/App.jsx:150-160 | the modal shows the same text the card abbreviates; the snippet agrees with it on the first 100 chars and is identical when it is short |
| `App.ResultsAreaOf` | frontend/src/App.jsx:116-224 | "no results" shows iff resultsData is present with an empty list and loading is false; the list shows iff the list is non-empty |
| `App.TrimStart` | frontend/src/App.jsx:15 | the result is a suffix of the input that does not start with whitespace, and what was removed is all whitespace |
| `App.TrimEnd` | frontend/src/App.jsx:15 | the result is a prefix of the input that does not end with whitespace, and what was removed is all whitespace |
| `App.Trim` | frontend/src/App.jsx:15 | the result is a slice of the input between a blank prefix and a blank suffix, and neither starts nor ends with whitespace |
| `App.TrimEmpty` | frontend/src/App.jsx:15 | `query.trim()` is empty iff every character of the query is whitespace |
| `App.Received` | frontend/src/App.jsx:26-31 | data is stored iff the reply was ok and its body decoded, and it is that decoded body |
| `App.SearchView.constructor` | frontend/src/App.jsx:5-11 | all slots start empty, not loading, phase Idle |
| `App.SearchView.SetQuery` | frontend/src/App.jsx:91 | the query slot takes the input's value |
| `App.SearchView.Submit` | frontend/src/App.jsx:13-19 | a blank query sends nothing and changes no slot; otherwise the query is sent with loading true and error and results null (phase Loading) |
| `App.SearchView.Settle` | frontend/src/App.jsx:21-37 | loading ends on every outcome; success stores the reply with no error; failure stores the fixed message and no results |
| `App.SearchView.HandleSearch` | frontend/src/App.jsx:13-38 | a request is sent iff the query is not blank; after it settles the slots hold the outcome as in `Settle` |
| `App.SearchView.OpenModal` | frontend/src/App.jsx:40-43 | selectedDoc becomes the document; the other slots are unchanged |
| `App.SearchView.CloseModal` | frontend/src/App.jsx:45-47 | selectedDoc becomes null; the other slots are unchanged |

## Left out

- Startup is not modelled: loading from MongoDB, building embeddings and BM25 indices, and the `nltk.download` call (backend/server.py:14-79). These are I/O and library setup. Each document's `text` is assumed present, because building `flat_docs` indexes `d['text']` directly. `title` and `url` are optional, with the defaults "No Title" and "#".
- The embedding model, `util.cos_sim`, `BM25Okapi.get_scores`, `langdetect.detect` and the Snowball stemmers are foreign library code. Their outputs are inputs to the model: one raw score per document, the detector's answer or `None`, and stemming functions. Tokenising the query for BM25 therefore does not feed into the ranking model.
- The lower-casing and the `[^\w\s]` regex in `preprocess_text` are not modelled. They are one opaque `clean` function, because Unicode word classes and case mapping are not modelled.
- Scores are exact reals. Floating-point rounding, NaN and infinities are not modelled.
- Search.SortByScoreDesc: Python's in-place `list.sort` (Timsort) is library code. The model uses a value function with the same guarantees: stable, descending and a permutation. `all_results` is a local sequence that the route reassigns.
- Flask routing, CORS, JSON serialisation of the reply and `app.run` are not modelled (backend/server.py:17-18, 135, 162-174). `SearchRoute` returns the response value instead.
- The JSX rendering tree, CSS bar widths, `toFixed` percentage labels, `e.preventDefault()`, `e.stopPropagation()` and `console.error` are display and DOM details.
- App.SearchView.HandleSearch: `fetch`/`await` is not modelled as concurrent. The request's outcome is an input, and the two halves (`Submit`, `Settle`) run in sequence. A superseded in-flight request that settles late is not modelled. While loading, the submit button is disabled.
- App.UpperCase: only ASCII a–z are upper-cased. JavaScript's `toUpperCase` also maps other Unicode letters, some to several characters.
- App.Snippet: lengths and `substring` count Unicode scalar values, whereas JavaScript counts UTF-16 code units. The two differ only for characters outside the Basic Multilingual Plane.
