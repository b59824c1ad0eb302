# Song search: query classifier, search request and dataset cleaning

This project models the search-relevance core of a song search backend and proves properties of that model. The core has three parts:

- **Query-intent classifier** (`is_lyric_query`). It strips a query's punctuation, lower-cases it and splits it into words. A query is then a *lyric* query when it has four or more words, or when more than 30% of its words are stopwords. Otherwise it is a *title/artist* query.
- **Search request and results** (`search_songs`). Three modes are tried in priority order: artist search, then lyric, then title/artist. The mode picks the field boosts, the minimum-should-match rule and the score cutoff. These go into an Elasticsearch request body: at most 20 hits, six boosted fields, and a popularity script combined by multiplication. Each returned hit becomes a result record: the hit's source with `id` and `score` added, in the backend's order. Any failure gives an empty list.
- **Dataset cleaning** (`generate_actions`). Blank lines are skipped. A truthy `year` is converted to an int: the first element when it is a list, and `None` when conversion fails. Four junk keys are dropped. Each document becomes a bulk action for the `songs` index.

Modules:

- `Wrappers`: `Option`.
- `JsonValue`: decoded JSON values and Python truthiness.
- `Text`: the Python string builtins the core uses. These are `str.isspace`, `str.split()`, `str.strip()`, `int()` on a string, and the text of a one-decimal float in an f-string.
- `Classifier`: `backend/utils.py`.
- `SearchEngine`: `backend/search_engine.py`.
- `Dataset`: `backend/load_dataset.py`.

How the Python maps onto the model:

- The classifier is pure, so it is written as functions.
- Result assembly and document cleaning are loops that update a dict, a list or a generator. They are written as methods whose `while` loops update a local `map` or `seq`. Each method is proved against a specification function.
- The Elasticsearch call is a function parameter from the request body to a reply. The reply is either `Raised` or a decoded response.
- Floats with one decimal place (boosts 1.0/1.5/2.0/3.0, cutoffs 0.5/1.0) are held as counts of tenths.

## Model

| member | source | states |
|---|---|---|
| `Text.Split` | backend/utils.py:20 | `str.split()` yields only non-empty words without white space. Laid end to end, the words are exactly the non-white-space characters of the input. |
| `Text.SplitBlankThenWord` | backend/utils.py:20 | After blank text, a non-empty word without white space, followed by nothing or by white space, is the first word `str.split()` returns; the rest is the split of what follows. With `SplitEmptyIffBlank`, this fixes the result on every string. |
| `Text.SplitJoined` | backend/utils.py:20 | Non-empty words without white space, joined by non-empty white-space separators, with white space before and after, split back into exactly those words. |
| `Text.SplitEmptyIffBlank` | backend/utils.py:20 | `str.split()` yields no word exactly when the text is blank. |
| `Text.Strip` | backend/load_dataset.py:108-109 | `str.strip()` returns a slice of the input with only white space before and after it, and the slice neither starts nor ends with white space: the input minus its leading and trailing white space. |
| `Text.StripEmptyIffBlank` | backend/load_dataset.py:108 | `line.strip()` is empty exactly when every character of the line is white space, so the blank-line test is `IsBlank`. |
| `Text.ParseInt` | backend/load_dataset.py:116 | `int()` of a string succeeds exactly when what remains after stripping `int()`'s white space is one or more ASCII digits, optionally after a single sign. |
| `Text.ParseIntSigned` | backend/load_dataset.py:116 | White space that `int()` strips, then `+`, `-` or no sign, then leading zeros, then the digits of `n`, converts to `n` or `-n` (`int(" +007 ") == 7`, `int("-02020") == -2020`). |
| `Text.ParseIntOfIntToString` | backend/load_dataset.py:116 | `int(str(n)) == n` for every integer `n`. |
| `Text.ParseIntPadded` | backend/load_dataset.py:116 | `int()` ignores any white space it strips before and after `str(n)`: the padded text still converts to `n`. |
| `Text.FileSeparatorNotStripped` | backend/load_dataset.py:116 | `\x1c` is white space to `str.isspace()` but not to `int()`: a numeral preceded by it does not convert. |
| `Text.TenthsRoundTrip` | backend/search_engine.py:68-73 | The text an f-string gives for a one-decimal float reads back as that float. |
| `Classifier.StripPunctuation` | backend/utils.py:19 | Removing `string.punctuation` leaves no punctuation and never lengthens the text. `StripAppend` and `StripPlainWord` give the result on joined text and on plain words. |
| `Classifier.StripPunctuationKeeps` | backend/utils.py:19 | A character survives the removal exactly when it occurs in the query and is not punctuation. |
| `Classifier.Lower` | backend/utils.py:19 | Lower-casing keeps the length and maps each character on its own: ASCII capitals to their small letters, everything else unchanged. |
| `Classifier.LowerAppend` | backend/utils.py:19 | Lower-casing distributes over concatenation. |
| `Classifier.Tokens` | backend/utils.py:19-20 | Every token is non-empty and holds no white space, no punctuation and no ASCII capital. |
| `Classifier.StopwordCount` | backend/utils.py:30 | The stopword count is at most the token count. It is positive exactly when some token is a stopword. |
| `Classifier.ShortDensity` | backend/utils.py:31 | With 1 to 3 tokens, a stopword fraction above 0.3 means exactly that at least one token is a stopword. |
| `Classifier.DensityAsIntegers` | backend/utils.py:31 | For any non-zero token count, `count / len > 0.3` holds exactly when `10*count > 3*len`. |
| `Classifier.DensityRule` | backend/utils.py:30-32 | With fewer than 4 tokens, the guarded fraction test holds exactly when some token is a stopword. A zero-token query fails it without dividing. |
| `Classifier.IsLyricQuery` | backend/utils.py:10-34 | Defined for every string. The result is true exactly when the query has at least 4 tokens or at least one stopword token. This covers the empty query and the zero-token case. |
| `Classifier.EmptyQueryIsTitleArtist` | backend/utils.py:15-16 | The empty query is a title/artist query. |
| `Classifier.PunctuationOnlyQuery` | backend/utils.py:19-31 | A query made only of punctuation and white space has no token, so it is a title/artist query and the division is never reached. |
| `Classifier.PunctuationIgnored` | backend/utils.py:19 | Inserting a punctuation character anywhere in a query changes none of its tokens. |
| `Classifier.CaseIgnored` | backend/utils.py:19-20 | Two queries that agree up to ASCII letter case have the same tokens and the same class. |
| `Classifier.SingleWordQuery` | backend/utils.py:22-34 | A one-word query (such as "Havana", or "The") has its lower-cased form as its only token. It is a lyric query exactly when that form is a stopword. |
| `Classifier.TwoWordTokens` | backend/utils.py:19-20 | A two-word query (such as "Taylor Swift") has its two lower-cased words as tokens. |
| `Classifier.TwoWordQuery` | backend/utils.py:27-34 | A two-word query is a lyric query exactly when one of its lower-cased words is a stopword. |
| `SearchEngine.SelectSettings` | backend/search_engine.py:40-55 | Artist search: boosts title 1.5, artist 3.0, lyrics 1.5, rule "2<-1", cutoff 1.0, whatever the query. Otherwise, for a lyric query (at least 4 tokens or a stopword): boosts 1.5/1.5/3.0, rule "65%", cutoff 0.5. Otherwise: boosts 3.0/2.0/1.0, rule "2<-1", cutoff 1.0. |
| `SearchEngine.ModeWeighting` | backend/search_engine.py:40-55 | Each mode gives its strictly highest boost to the field it is about. The cutoff falls below 1.0 exactly in lyric mode, which is also exactly when the rule is "65%". |
| `SearchEngine.ArtistOverrideIgnoresQuery` | backend/search_engine.py:40-43 | With artist search on, the settings do not depend on the query. |
| `SearchEngine.BoostedFields` | backend/search_engine.py:67-74 | Exactly six field entries. The first three are the base fields with their boosts. The last three are the `.th` sub-fields, each with the same boost as its base field. |
| `SearchEngine.FieldSpecRoundTrip` | backend/search_engine.py:68-73 | A `name^boost` entry, read back by the model's reader (the inverse of the f-string), gives back the name and the boost. |
| `SearchEngine.BoostedFieldsReadBack` | backend/search_engine.py:67-74 | Read back by the model's reader, each base field carries its mode's boost, and each `.th` sub-field carries the same boost as its base field. |
| `SearchEngine.BuildBody` | backend/search_engine.py:58-96 | The body asks for at most 20 hits. `min_score` is the selected cutoff, the query text is passed through, the match rule is the selected one, the field list is the boosted list, and the popularity script is combined by `multiply`. |
| `SearchEngine.HitResult` | backend/search_engine.py:104-107 | A result record has the source's keys plus `id` and `score`. `id` is the hit's `_id` and `score` is its `_score`. Every other key keeps its source value. |
| `SearchEngine.AssembleResults` | backend/search_engine.py:99-114 | For a reply whose `hits.hits` list holds only well-formed hits: one record per hit, in the backend's order. For a raised call, a wrong response shape or any malformed hit: the empty list. |
| `SearchEngine.SearchSongs` | backend/search_engine.py:27-114 | The same result, for the reply the backend gives to the body built from the selected settings. |
| `Dataset.ToInt` | backend/load_dataset.py:116 | `int()` keeps ints, maps `True`/`False` to 1/0, truncates floats toward zero, parses strings, and fails on `None`, lists and dicts. |
| `Dataset.CleanYear` | backend/load_dataset.py:112-118 | A truthy year becomes an int or `None`. It is an int exactly when its first element (for a list) or the value itself converts, and then it is the int that `int()` gives for that element or value. |
| `Dataset.CleanDoc` | backend/load_dataset.py:111-122 | No junk key remains. Every other key is present exactly when it was. Keys other than `year` keep their values. A truthy `year` is normalised, and a falsy one is left unchanged. |
| `Dataset.CleanDocument` | backend/load_dataset.py:111-122 | The in-place conversion and the `pop` loop compute `CleanDoc`. Popping an absent key is a no-op. |
| `Dataset.Documents` | backend/load_dataset.py:107-109 | The documents handed on are at most as many as the lines. |
| `Dataset.DocumentsNoBlank` | backend/load_dataset.py:107-109 | With no blank line, every line gives its decoded value as a document, in file order. |
| `Dataset.DocumentsAllBlank` | backend/load_dataset.py:107-108 | A file of blank lines gives no document. |
| `Dataset.DocumentsFromLines` | backend/load_dataset.py:107-109 | Every document handed on is the decoded value of some non-blank line. |
| `Dataset.GenerateActions` | backend/load_dataset.py:105-127 | One action per non-blank line, in file order. Each targets `songs` with the cleaned document. Generation stops, flagged, at the first non-blank line that does not decode to a dict. |
| `Dataset.BlankLineIgnored` | backend/load_dataset.py:108 | Adding a blank line anywhere in the file changes none of the documents handed on. |
| `Dataset.YearFromList` | backend/load_dataset.py:115-116 | A year list whose first element spells an integer (`["2020"]`) becomes that integer. |
| `Dataset.YearFromString` | backend/load_dataset.py:115-116 | A year string that spells an integer (`"2020"`) is truthy and becomes that integer. |
| `Dataset.UnusableYearBecomesNone` | backend/load_dataset.py:117-118 | A truthy year whose value cannot be converted becomes `None`. |

Notes on fidelity:

- The classifier's threshold test is stated on exact reals. Python divides floats and compares with the float nearest 0.3. With at most three tokens, the possible fractions are 0, 1/3, 1/2, 2/3 and 1, and none is near 0.3, so both give the same answers.
- `Lower` lower-cases only ASCII letters. Python's `lower()` also maps non-ASCII letters. Only two non-ASCII characters lower-case to text with an ASCII letter. The Kelvin sign becomes `k`, and no stopword contains `k`. `İ` (U+0130) becomes `i` followed by the combining dot U+0307, and that mark keeps the token out of the stopword set. Lower-casing never creates white space. So a token is a stopword, and the token count is what it is, under both definitions.
- `IsSpace` is Python's `str.isspace()` over all of Unicode. It is used for `split()`, `strip()` and the blank-line test.
- A hit is well formed when it is a dict with a dict `_source`, an `_id` and a `_score`. Anything else raises inside the `try` at backend/search_engine.py:99-114, so it gives `[]`. A `hits.hits` value that is not a list also always ends in `[]`: iterating a non-list raises, and iterating an empty string or dict yields nothing.
- `search_songs` hard-codes `boost_mode: "multiply"` and leaves filtering by the cutoff to the backend through `min_score`.

## Left out

- The Elasticsearch client, `ping`, index existence and creation, `helpers.bulk` and its chunking: network I/O over a foreign library. The backend is a function parameter of `SearchSongs`, and `GenerateActions` stops at the actions it yields.
- Relevance scoring inside the backend: fuzziness, `most_fields`, `min_score` filtering, and evaluating the popularity script `log10(views + 1) + 1`. The body is modelled as data, and the script as its text.
- The index mapping literal: static configuration.
- File opening and `json.loads`. Each line carries its text and its decoded value. A non-blank line that `json.loads` rejects also aborts generation; the model expresses it only as a line whose decoded value is not a dict. A `Float` holds the exact value of the finite double that `json.loads` rounds the number to.
- Dict key order: Python dicts keep insertion order, while `map` does not.
- In-place aliasing: `search_songs` mutates the response's own `_source` dicts. The model builds new maps, which no later code can tell apart.
- Logging (`print`), environment variables, dotenv and warning suppression.
- `backend/main.py` and `backend/schemas.py`: HTTP routing and response serialisation.
- `Text.ParseInt`: models `int()` on strings only for optional surrounding white space, an optional sign and ASCII digits. Digit-group underscores (`"1_000"`) and non-ASCII decimal digits are treated as conversion failures, although Python accepts them. Python 3.11 and later also reject a string of more than 4300 digits with a `ValueError`; the model converts it, so such a year becomes that integer instead of `None`.
- `Classifier.Lower`: lower-cases ASCII letters only. On other letters the token text differs from Python's `lower()` (which maps `É` to `é` and `İ` to two characters), but the token count and every stopword match are the same (see Notes on fidelity).
- `Dataset.ToInt`: a `Float` always holds a finite value, so two cases are not modelled. A JSON number beyond the double range (`1e400`), or the literal `Infinity`, decodes to `inf`; `int(inf)` raises `OverflowError`, which the source does not catch, so generation aborts. The literal `NaN` decodes to `nan`, which is truthy; `int(nan)` raises `ValueError`, which is caught at backend/load_dataset.py:117, so `year` becomes `None`.
- `SearchEngine.SearchSongs`: does not promise at most 20 results. The cap is a request in the body (`size`) that the backend honours.
- Idempotence of `search_songs` holds by construction: every member is a function of its inputs, and the backend is a function parameter.
