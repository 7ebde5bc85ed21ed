# jivesearch !bangs and stock-quote answer, modelled in Dafny

This project models two parts of jivesearch.

The first is the **!bang dispatcher** (`bangs/bangs.go`):
- `Detect` splits a query into fields and finds the first field marked with `!` (in front, behind, or both) whose key is one of a bang's triggers.
- It joins the other fields into the remainder and runs the bang's transformations on it.
- It picks the template for the lower-cased region, falling back to `default`.
- It fills in `{{{term}}}` and `{{{lang}}}`.
- `Suggest` fills in the names of autocomplete suggestions.
- `New` builds the registry of ten bangs.
- The Wikipedia transformation canonicalises a title.

The second is the **stock-quote instant answer** (`instant/stock.go`):
- a `StockQuote` answerer whose setters, pattern installer and `solve` update its fields in place;
- the trigger and ticker grammar its two patterns denote;
- the `$`-stripping, upper-casing normalisation of the ticker sent to the fetcher.

Layout, one module per file:
- `wrappers.dfy`: `Option`.
- `text.dfy`: the Go `strings`/`unicode` behaviour the code relies on.
  - `Fields` uses the exact `unicode.IsSpace` set.
  - `Trim`, `Join` and non-recursive `Replace(..., -1)`.
  - `Title`'s word separators.
  - ASCII case mapping.
- `bangs.dfy`: the data types, `Detect` and `Suggest` as methods, and the pure functions that specify them.
- `registry.dfy`: `New()`, its invariants, and concrete dispatch scenarios.
- `stock.dfy`: the answerer class, the grammar and the normalisation.

Patterns are modelled by the remainder they capture under the leftmost-first rule of Go's `regexp`. An optional group is tried before it is skipped, alternatives are tried in the order written, and `[s]?` tries the `s` first. Regex `\s` is tab, newline, form feed, carriage return and space.

Behaviour worth noting:
- `Suggest` never leaves its loops early, so the **last** bang owning a trigger names the suggestion. `Detect` uses the first. With `New()` the two agree, because its triggers are pairwise distinct.
- `solve` removes **every** `$` from the remainder, wherever it stands. A ticker can only carry a leading one, so on a ticker this removes that `$` (`Stock.NormaliseTicker`).
- A URL can still contain a placeholder: the remainder is pasted in literally, so `!g {{{term}}}` keeps `{{{term}}}` in the URL (`Registry.PlaceholderInQuery`). `{{{lang}}}` is filled after the term, but a Wikipedia title capitalises it to `{{{Lang}}}`, so `hello !w {{{lang}}}` keeps it too (`Registry.WikipediaLangHoleKept`). Placeholders are gone whenever the query and the language hold no `{` (`Bangs.FullSubstitution`, `Registry.NewSubstitutionComplete`).
- The ticker fragment carries its own `^`, so the trigger-first pattern accepts only a bare ticker (see Findings).

## Model

| member | source | states |
|---|---|---|
| Text.Fields | bangs/bangs.go:69 | every field is non-empty and space-free, and all its characters come from the query |
| Text.FieldsAfterSpaces | bangs/bangs.go:69 | white space before the text starts no field: the fields are those of the rest |
| Text.FieldsOfWordThen | bangs/bangs.go:69 | a non-empty space-free word followed by white space or the end is the first field, and the fields of the rest follow it; with `FieldsAfterSpaces` this fixes the fields of every text |
| Text.FieldsOfJoin | bangs/bangs.go:69 | splitting a space-joined list of fields gives the list back |
| Text.Trim | bangs/bangs.go:76 | the result neither starts nor ends with the trimmed character; it is empty exactly when the input is all that character |
| Text.TrimIsSlice | bangs/bangs.go:76 | the result is the slice of the input left between a leading and a trailing run of the trimmed character |
| Text.TrimRuns | bangs/bangs.go:76 | a word that neither starts nor ends with the character, between runs of it, trims to the word |
| Text.ToLowerIsLowerCase | bangs/bangs.go:76 | lower-casing yields lower case, and leaves exactly the lower-case strings unchanged |
| Text.ReplaceAllAbsent | bangs/bangs.go:90-91 | replacing a pattern that does not occur leaves the string as it is |
| Text.ReplaceAllChar | bangs/bangs.go:105 | replacing one character by another is a length-preserving character map |
| Bangs.WikipediaCanonical | bangs/bangs.go:104-106 | the canonical title has the query's length and no space |
| Bangs.WikipediaCanonicalAt | bangs/bangs.go:104-106 | each space becomes `_`; a letter starting a word is upper-cased and every other letter lower-cased |
| Bangs.CanonicalAtChar | bangs/bangs.go:104-106 | the canonical title's character at each position is determined by the query's character there and the one before it: `_` for a space, upper case after a word separator, lower case otherwise |
| Bangs.CanonicalSpelled | bangs/bangs.go:104-106 | a string that has `_` for each space of the query, the upper-cased letter where a word starts and the lower-cased character elsewhere is the canonical title |
| Bangs.WikipediaCanonicalNotIdempotent | bangs/bangs.go:101-106 | `bob maRLey` gives `Bob_Marley`, and canonicalising that again gives `Bob_marley` |
| Bangs.WikipediaCanonicalBraceFree | bangs/bangs.go:104-106 | canonicalising brings in no `{` |
| Bangs.WikipediaCanonicalNoLangHole | bangs/bangs.go:104-106 | a canonical title never contains `{{{lang}}}`: a letter after `{` is upper-cased |
| Bangs.CanonicalKeepsLangHole | bangs/bangs.go:104-106 | `hello {{{lang}}}` canonicalises to `Hello_{{{Lang}}}`, which no longer holds `{{{lang}}}` |
| Bangs.Key | bangs/bangs.go:76 | the key has no leading or trailing `!` and is lower case; it is empty exactly when the field is all `!` |
| Bangs.KeyStripsBangs | bangs/bangs.go:72-76 | `!!w`, `w!` and `!W!` all have key `w` |
| Bangs.KeyOfRuns | bangs/bangs.go:72-76 | a word that neither starts nor ends with `!`, between any runs of `!`, is keyed by the lower-cased word, and is a candidate exactly when at least one run is non-empty |
| Bangs.KeyOfMarked | bangs/bangs.go:72-76 | a word with one `!` before or after it is a candidate keyed by the lower-cased word |
| Bangs.CandidateExamples | bangs/bangs.go:72-74 | a lone `!` and an unmarked word are not candidates; `!!` is a candidate with the empty key |
| Bangs.Trigger | bangs/bangs.go:108-115 | the search hits exactly when the key is among the triggers |
| Bangs.RegionTemplate | bangs/bangs.go:88-93 | the lower-cased region's template if present, else `default`'s, else none |
| Bangs.FullSubstitution | bangs/bangs.go:90-91 | in a template whose only `{` open placeholders, a brace-free term and language leave no `{` and no placeholder |
| Bangs.ApplyAllBraceFree | bangs/bangs.go:84-86 | the transformations keep a remainder free of `{` |
| Bangs.ExpandBraceFree | bangs/bangs.go:82-91 | a bang whose templates have no `{` outside their placeholders expands the fields of a query without `{` into a URL without `{` |
| Bangs.DetectPlaceholderFree | bangs/bangs.go:68-97 | for any registry whose templates have no `{` outside their placeholders and a `default` each, a query and a language tag without `{` give a URL without `{` and without either placeholder |
| Bangs.SubstituteLangInTerm | bangs/bangs.go:90-91 | the term is put in before the language tag, so a `{{{lang}}}` that the term brings in is replaced too: `a{{{term}}}` with term `{{{lang}}}` gives `a lang` |
| Bangs.SubstituteLangTerm | bangs/bangs.go:90-91 | filling `a{{{lang}}}b{{{term}}}` gives `a lang b term` for any term without `{{{lang}}}`, the term `{{{term}}}` included |
| Bangs.TermHoleLacksLangHole | bangs/bangs.go:90-91 | `{{{term}}}` does not contain `{{{lang}}}` |
| Bangs.RemoveBetween | bangs/bangs.go:82 | dropping the bang field keeps the other fields in order |
| Bangs.ShiftedRemainder | bangs/bangs.go:82 | as written, registry X, Y both triggered by `x` (only Y with a template): `!x a b c` expands to `b c c` where the unshifted reading gives `a b c` |
| Bangs.ShiftedRemainderUnintended | bangs/bangs.go:82 | that `b c c` is not the expansion of any bang field of the query by any bang |
| Bangs.IntendedRemainder | bangs/bangs.go:71-96 | for any registry, the corrected scan's URL is some triggering bang's expansion of the query minus one candidate field; with no match the URL is empty |
| Bangs.ScanFieldsAsIntended | bangs/bangs.go:71-96 | when every bang has a `default` template, the as-written scan equals the corrected one |
| Bangs.DetectAsWrittenIsIntended | bangs/bangs.go:68-97 | when every bang has a `default` template, detection as written equals detection as intended |
| Bangs.NoBangFieldNoMatch | bangs/bangs.go:71-96 | with no candidate field that a bang triggers on, the result is `("", false)` |
| Bangs.FirstOwner | bangs/bangs.go:77-80 | the first bang in registry order whose triggers hold the key; none before it holds it |
| Bangs.FirstBangField | bangs/bangs.go:71-80 | the first field that is a candidate and triggers some bang; none before it does |
| Bangs.ScanFieldsIsDispatch | bangs/bangs.go:71-96 | with `default` templates everywhere, the scan is the first bang field expanded by its first owner |
| Bangs.DetectField | bangs/bangs.go:68-97 | in any registry, with or without `default` templates: given the first bang field, its first owner and that bang's template for the region, the URL is the template filled with the transformed remainder of the other fields |
| Bangs.UnmarkedQuery | bangs/bangs.go:72-74 | a query whose only `!`s are lone `!` fields matches no bang, in any registry |
| Bangs.DetectIsDispatch | bangs/bangs.go:68-97 | with `default` templates, detection is first-field/first-owner dispatch; it succeeds exactly when some field is a bang field, and a miss returns an empty URL |
| Bangs.RemoveInPlace | bangs/bangs.go:82 | the in-place `append` shifts the tail left in the fields array; the first n-1 cells are the fields without the removed one |
| Bangs.Transform | bangs/bangs.go:84-86 | the loop applies the bang's transformations left to right |
| Bangs.ChooseTemplate | bangs/bangs.go:88-93 | the loop over the lower-cased region then `default` returns the region template |
| Bangs.Detect | bangs/bangs.go:68-97 | the method's URL and flag are detection as written, and first-field/first-owner dispatch when every bang has a default |
| Bangs.TryBangs | bangs/bangs.go:77-95 | the loop over the bangs for one candidate field returns the scan's URL when a bang dispatches; otherwise the scan goes on at the next field of the array as the loop left it |
| Bangs.ExpandInPlace | bangs/bangs.go:82-93 | the array is left shifted by the in-place `append`, and the URL is the bang's expansion of the fields without the removed one |
| Bangs.EnrichedName | bangs/bangs.go:53-61 | a suggestion no bang owns keeps its name; otherwise it takes the name of a bang owning its trigger, with none after it owning it (the last owner) |
| Bangs.Enrich | bangs/bangs.go:53-62 | every suggestion, in order, keeps its trigger |
| Bangs.EnrichedNameIsFirstOwner | bangs/bangs.go:53-61 | with pairwise distinct triggers the name is the first (and only) owner's |
| Bangs.SharedTriggerNames | bangs/bangs.go:53-61 | with two owners of one trigger, detection picks the first and the suggestion names the last |
| Bangs.Suggest | bangs/bangs.go:46-65 | a suggester error is passed through with its results; otherwise the results are the enriched suggestions |
| Bangs.NameSuggestion | bangs/bangs.go:54-61 | the loops over the bangs and their triggers give one suggestion its enriched name and keep its trigger |
| Bangs.NameFromBang | bangs/bangs.go:55-60 | one bang renames the suggestion exactly when one of its triggers is the suggestion's trigger |
| Registry.New | bangs/bangs.go:128-216 | the registry holds ten bangs |
| Registry.NewWellFormed | bangs/bangs.go:132-213 | every bang has a trigger, lower-case non-empty triggers, a `default` template, and every template holds `{{{term}}}` and no other `{` |
| Registry.NewHasDefaults | bangs/bangs.go:132-213 | every bang has a `default` template |
| Registry.NewTriggersDistinct | bangs/bangs.go:132-213 | no trigger occurs twice, within a bang or across bangs |
| Registry.AmazonWellFormed | bangs/bangs.go:133-142 | the Amazon bang is well formed |
| Registry.BingWellFormed | bangs/bangs.go:143-149 | the Bing bang is well formed |
| Registry.GitHubWellFormed | bangs/bangs.go:150-156 | the GitHub bang is well formed |
| Registry.GoogleWellFormed | bangs/bangs.go:157-166 | the Google bang is well formed |
| Registry.GoogleFranceWellFormed | bangs/bangs.go:167-173 | the Google France bang is well formed |
| Registry.GoogleImagesWellFormed | bangs/bangs.go:174-180 | the Google Images bang is well formed |
| Registry.GoogleRussiaWellFormed | bangs/bangs.go:181-187 | the Google Russia bang is well formed |
| Registry.RedditWellFormed | bangs/bangs.go:188-194 | the Reddit bang is well formed |
| Registry.StackOverflowWellFormed | bangs/bangs.go:195-201 | the Stack Overflow bang is well formed |
| Registry.WikipediaWellFormed | bangs/bangs.go:202-212 | the Wikipedia bang is well formed |
| Registry.GoogleOwnsG | bangs/bangs.go:157-166 | `g` is first owned by Google |
| Registry.AmazonOwnsA | bangs/bangs.go:133-142 | `a` is first owned by Amazon |
| Registry.WikipediaOwnsW | bangs/bangs.go:202-212 | `w` is first owned by Wikipedia |
| Registry.GoogleDefaultSearch | bangs/bangs.go:157-166 | `!g` then words without `{{{lang}}}`, outside ca/fr/ru and for any language tag, gives `https://encrypted.google.com/search?hl=<lang>&q=<words>` |
| Registry.GoogleSearch | bangs/bangs.go:68-97 | `!g hello world` in region US, language en gives `https://encrypted.google.com/search?hl=en&q=hello world` |
| Registry.AmazonTemplateFor | bangs/bangs.go:133-142 | regions ca, fr and uk get their own Amazon host; every other region gets amazon.com |
| Registry.AmazonSearch | bangs/bangs.go:133-142 | `!a` then brace-free words gives the region's Amazon search URL ending in the words |
| Registry.WikipediaSearch | bangs/bangs.go:202-212 | `!w` anywhere after unmarked words gives `https://en.wikipedia.org/wiki/` plus the canonical title of the other words, whatever they hold, outside es/de/fr |
| Registry.WikipediaFill | bangs/bangs.go:90-91 | filling a Wikipedia template puts the canonical title in and leaves it alone, since it never holds `{{{lang}}}` |
| Registry.WikipediaLangHoleKept | bangs/bangs.go:202-212 | `hello !w {{{lang}}}` gives `https://en.wikipedia.org/wiki/Hello_{{{Lang}}}` |
| Registry.WikipediaArticle | bangs/bangs.go:204-211 | `hello !w bob marley` gives `https://en.wikipedia.org/wiki/Hello_Bob_Marley` |
| Registry.NoBangInQuery | bangs/bangs.go:72-74 | `just a ! standalone` gives `("", false)` |
| Registry.MarksOnlyNeverBang | bangs/bangs.go:72-78 | a field made only of `!` never dispatches in the registry |
| Registry.NewSubstitutionComplete | bangs/bangs.go:82-91 | with the default registry, a query and a language tag without `{` give a URL with neither placeholder |
| Registry.PlaceholderInQuery | bangs/bangs.go:90-91 | `!g {{{term}}}` dispatches, and its URL still contains `{{{term}}}` |
| Stock.TickerSound | instant/stock.go:49 | every accepted ticker is one the fragment's four atoms spell, 1 to 8 characters long |
| Stock.TickerComplete | instant/stock.go:49 | every string the four atoms spell is accepted |
| Stock.TickerIff | instant/stock.go:49 | the recogniser accepts exactly the strings of `[$]?[a-zA-Z]{1,5}[.]?[a-zA-Z]?` |
| Stock.TickerChars | instant/stock.go:49 | a ticker holds only letters, `$` and `.` |
| Stock.AlternativesAre | instant/stock.go:40-47 | the alternation of `w[s]?` holds each word and each word plus `s`, and nothing else |
| Stock.TriggerOrder | instant/stock.go:40-47 | the alternatives are tried as quotes, quote, stocks, stock, stock quotes, stock quote |
| Stock.TriggerSet | instant/stock.go:40-47 | the triggers are exactly quote(s), stock(s), stock quote(s) |
| Stock.AlternationOfTriggers | instant/stock.go:40-48 | the loop's pluralised trigger words, joined by a vertical bar, give the alternation of `quote[s]?`, `stock[s]?` and `stock quote[s]?` in that order |
| Stock.TriggerFirstSound | instant/stock.go:51 | what the trigger-first pattern captures is the ticker of one of its matches |
| Stock.TriggerFirstComplete | instant/stock.go:51 | whenever the trigger-first pattern can match, it captures a remainder |
| Stock.TriggerFirstAsWritten | instant/stock.go:49-51 | with the fragment's own `^`, the trigger-first pattern captures a query exactly when it is a bare ticker, and captures all of it |
| Stock.TickerFirstIff | instant/stock.go:52 | the ticker-first pattern captures `r` exactly when the query is `r`, one whitespace character and an optional trigger |
| Stock.PatternsDisjoint | instant/stock.go:49-52 | no query is accepted by both patterns as written |
| Stock.FirstRemainderAppend | instant/stock.go:51-52 | trying two pattern lists in turn is trying their concatenation |
| Stock.RecogniseTwice | instant/stock.go:51-52 | installing the patterns twice changes no query's remainder |
| Stock.RecogniseIff | instant/stock.go:49-52 | a query yields `r` exactly when it is the bare ticker `r`, or `r`, one whitespace character and an optional trigger |
| Stock.RecogniseAsWritten | instant/stock.go:49-52 | a bare ticker yields itself; any other query yields what the ticker-first pattern captures |
| Stock.TriggerBeforeTicker | instant/stock.go:49-52 | a trigger, a space and a ticker never yield that ticker; at most the trigger is taken as the ticker, and only if the ticker spells a trigger |
| Stock.QuoteThenTickerRejected | instant/stock.go:49-51 | `quote AAPL` yields nothing |
| Stock.TickerThenQuote | instant/stock.go:84 | `AAPL quote` yields `AAPL` |
| Stock.BareDottedTicker | instant/stock.go:110 | `brk.a` yields `brk.a` |
| Stock.TriggerBeforeTickerIntended | instant/stock.go:51 | without the inner `^`, a trigger, one whitespace character and a ticker yield that ticker |
| Stock.QuoteThenTickerIntended | instant/stock.go:51 | without the inner `^`, `quote AAPL` yields `AAPL` |
| Stock.TickerThenQuoteIntended | instant/stock.go:52 | without the inner `^`, `AAPL quote` still yields `AAPL` |
| Stock.ReplaceAllDeletes | instant/stock.go:58 | replacing a character by nothing removes every occurrence and keeps the rest in order |
| Stock.NormaliseProperties | instant/stock.go:58 | the fetched ticker is the remainder without `$`, upper-cased; it holds no `$` and no lower-case letter; normalising twice is normalising once |
| Stock.NormaliseTicker | instant/stock.go:58 | on a ticker, removing every `$` is removing the leading one, and the result is again a ticker |
| Stock.NormaliseDotted | instant/stock.go:58 | `brk.a` is fetched as `BRK.A` |
| Stock.NormaliseDollar | instant/stock.go:58 | `$aapl` is fetched as `AAPL` |
| Stock.StockQuote.constructor | instant/stock.go:14-17 | a new answer holds its fetcher and zero values everywhere else |
| Stock.StockQuote.SetUserAgent | instant/stock.go:24-27 | returns the answer and changes nothing |
| Stock.StockQuote.SetLanguage | instant/stock.go:29-32 | stores the language; every other field is unchanged |
| Stock.StockQuote.SetType | instant/stock.go:34-37 | sets the type to `stock quote`; every other field is unchanged |
| Stock.StockQuote.SetCache | instant/stock.go:72-75 | sets the cache flag; every other field is unchanged |
| Stock.StockQuote.SetRegex | instant/stock.go:39-55 | the loop pluralises the trigger words; the trigger-first then the ticker-first pattern are appended after the existing ones; every other field is unchanged |
| Stock.StockQuote.Solve | instant/stock.go:57-70 | fetches the normalised remainder; an error is stored and the solution kept, a quote is sorted and stored and the error kept; every other field is unchanged |

## Left out

- The Elasticsearch suggester (`IndexExists`, `DeleteIndex`, `Setup`, `suggest`) is network I/O. `suggest` is a function parameter of `Suggest` that returns results and possibly an error.
- The `Bangs` struct and its embedded `Suggester` become plain parameters: `Detect` and `Suggest` read the bang list and never update it.
- `language.Region` and `language.Tag` are taken as their rendered strings. BCP-47 parsing and canonical rendering are not modelled.
- Case mapping (`ToLower`, `ToUpper`, `Title`) is ASCII-only. Non-ASCII letters are left unchanged, unlike Go's full Unicode mapping.
- `Fetcher.Fetch` and `Quote.SortHistorical` are in a package outside this model. Both are opaque function values, and the quote type is a type parameter. Sorting the history by date is therefore not stated.
- Stock.StockQuote.Solve: the fetch error is kept as its message string rather than as the Go error value.
- `setQuery`, `http.Request` and the answer pipeline that runs the patterns are not part of this model. `FirstRemainder` models first-match-wins over the installed list, and only the `remainder` capture is modelled, not `trigger`.
- The correspondence between a pattern's source text and the grammar it denotes (`Stock.Match`) comes from reading the pattern. No regular-expression engine is modelled.
- The `tests()` fixtures' prices, times and time zones are floating point and clock data. Only their queries and tickers appear here.
- `frontend/cmd/frontend.go` (configuration, clients, HTTP server) is not part of this model.

## Findings

| source | as written | input that shows it | evidently intended | confidence | as-written member | corrected member |
|---|---|---|---|---|---|---|
| bangs/bangs.go:82 | `append(fields[:i], fields[i+1:]...)` writes into the backing array of `fields`. When a triggered bang has no template for the region, the scan goes on over shifted fields. | Bangs X and Y both triggered by `x`; only Y has a (`default`) template `{{{term}}}`; query `!x a b c` gives `b c c` | the other fields unchanged, giving `a b c`. Unreachable with `New()`, where every bang has a `default` template | not executed | Bangs.ShiftedRemainder | Bangs.IntendedRemainder |
| instant/stock.go:49 | The ticker fragment starts with its own `^`. Inside the trigger-first pattern it forces the remainder to begin the text, so the trigger group and the optional space can never match. | `quote AAPL` yields nothing | `quote AAPL` yields `AAPL`, as the pattern's `(?P<trigger>...)?\s?` prefix is there to allow | not executed | Stock.QuoteThenTickerRejected | Stock.TriggerBeforeTickerIntended |
