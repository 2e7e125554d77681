# openrouter-launch model catalogue, in Dafny

This project models the model-catalogue part of openrouter-launch (`src/models.ts`) and proves properties of it. That part decides which OpenRouter models the launcher knows about, how a user's model name is resolved, and what the interactive picker offers:

- **Identifier resolution.** A fixed alias table maps shorthands such as `sonnet` to full `provider/model` identifiers. An identifier is accepted when it is in the loaded list, is in the ten-entry built-in list, or merely has the shape `provider/model`. The pricing label of a record is looked up by identifier.
- **The cache file.** Each line is `id|prompt|completion`. Reading it trims the text, splits it into lines, drops empty lines and skips lines whose first three `|`-fields are not all non-empty. It then returns the records coding models first (identifier prefix allow-list), keeping file order inside each group. It returns nothing rather than an empty list.
- **The fetch.** The API's model list is filtered: entries without an id or either price are dropped, `:free` ids are dropped, and entries whose scaled price is NaN are dropped. Each survivor becomes a line `id|p|c`. The lines are sorted and joined by newlines, and the result overwrites the cache file. When nothing survives, the fetch fails and the file is untouched.
- **The loader.** A cache file younger than one hour is fresh. A load tries four tiers in order:
  1. the fresh cache, unless a refresh is forced;
  2. a fetch followed by re-reading the file;
  3. the cache whatever its age;
  4. the built-in list.
- **The picker's filter.** When the lower-cased input is an alias, the picker keeps exactly the entries named by its target. Otherwise it keeps the entries whose lower-cased name contains the lower-cased input.

## Files

The files are listed in import order.

- `wrappers.dfy` defines `Option`.
- `seqs.dfy` (module `Seqs`) holds the order-preserving `Filter` and `Collect`. They are defined by recursion on the last element, so a loop that pushes onto an array keeps `acc == Filter(s[..i], p)`. The module also proves the permutation lemmas about them.
- `js_text.dfy` (module `JsText`) holds the JavaScript string operations the core relies on:
  - `trim` with the ECMAScript white-space set;
  - `split` on one character, which always yields at least one piece, and `join`;
  - `startsWith`, `endsWith` and `includes`;
  - ASCII lower-casing;
  - the default `Array.prototype.sort` order and an insertion sort proved against it.
- `catalog.dfy` (module `Catalog`) holds:
  - the record type and the constants `CACHE_TTL`, `FALLBACK_MODELS`, `CODING_MODEL_PREFIXES` and `MODEL_ALIASES`;
  - `resolveAlias`, `modelExists`, `resolveModel`, `getModelPricing`, `getModelAliases` and the `suggest` filter.
- `cache_format.dfy` (module `CacheFormat`) specifies what reading the cache file yields (`ParseCache`).
- `fetch.dfy` (module `ModelFetch`) specifies the text a fetch writes (`Serialise`). It also proves that reading that text back with `ParseCache` returns exactly the surviving records.
- `loader.dfy` (module `Loader`) holds the class `ModelCache`. Its one field is the cache file, which the methods update in place. The methods are:
  - `IsCacheValid`;
  - `LoadFromCache`, the loop that pushes records into two buckets;
  - `FetchModels`, the loop that pushes lines, then sorts and writes;
  - `Load`, the four tiers.

  Each method is proved against a specification function. The module proves the loader's properties about those functions.

Prices are kept as the decimal text that `parseFloat` would read. The display label of a record is either a fixed label (the built-in list) or `Formatted(prompt, completion)`. Turning the label into digits is floating-point formatting, which is not modelled.

The step `parseFloat(price) * 1000000` rendered into a template literal is a parameter of the environment, `scale: string -> Option<string>`, where `None` stands for NaN.

The clock, the API response and whether writing the cache succeeds are also fields of the environment (`Loader.Env`).

Two details of the code the model follows:

- An entry is dropped only when a scaled price `isNaN`, so an entry whose scaled price is infinite is kept.
- The fetch sorts whole lines, not identifiers (`ModelFetch.LineOrderIsNotIdOrder`), although the comment above the sort calls it a sort by model id. For example, `openai/gpt-4o|…` sorts before `openai/gpt-4|…`, because `|` comes after every letter and digit.

## Model

| member | source | states |
|---|---|---|
| Catalog.GetModelAliases | src/models.ts:348-350 | the table handed out maps every shorthand to what resolving it yields, and that target is never the shorthand itself; every name not in the table resolves to itself |
| Catalog.CacheTtlSeconds | src/models.ts:24 | the freshness limit, 3600 seconds |
| Catalog.FallbackModels | src/models.ts:27-38 | the ten built-in records, with their identifiers, labels and prices |
| Catalog.CodingModelPrefixes | src/models.ts:41-53 | the eleven identifier prefixes of coding models |
| Catalog.ModelAliases | src/models.ts:56-74 | the seventeen shorthands and their targets |
| Catalog.IsCodingModel | src/models.ts:79-81 | an identifier is a coding model when it starts with one of the coding prefixes; what the test is used for is stated by `CacheFormat.CodingFirstOrder` |
| Catalog.CodingIsPrefixClosed | src/models.ts:79-81 | a consequence of testing prefixes only: extending a coding model's identifier keeps it a coding model |
| Catalog.ResolveAlias | src/models.ts:242-244 | the table entry for a shorthand, the input unchanged otherwise |
| Catalog.AliasTargetsAreNotKeys | src/models.ts:56-74 | no alias target is itself a shorthand |
| Catalog.ResolveAliasIdempotent | src/models.ts:242-244 | resolving an already resolved name changes nothing |
| Catalog.MatchesIdPattern | src/models.ts:261 | a non-empty provider part over letters, digits, `_` and `-`, one `/`, and a non-empty model part that may also hold `.` |
| Catalog.ModelExists | src/models.ts:249-266 | accepted when in the loaded list, in the built-in list, or of the identifier shape |
| Catalog.PatternHasOneSlash | src/models.ts:261-263 | an identifier with the accepted shape contains exactly one `/` |
| Catalog.WellFormedIdAlwaysExists | src/models.ts:249-266 | any non-empty provider part and model part over the allowed characters, joined by `/`, is accepted whatever list is loaded |
| Catalog.ExistenceExampleAccepted | src/models.ts:261-263 | `foo/bar` is accepted with an empty list |
| Catalog.ExistenceExampleEmpty | src/models.ts:249-266 | the empty string is rejected with an empty list |
| Catalog.ExistenceExampleNoSlash | src/models.ts:249-266 | `not-a-valid-id` is rejected with an empty list |
| Catalog.NoSlashIsMalformed | src/models.ts:261-263 | `not-a-valid-id` does not have the accepted shape |
| Catalog.ExistenceExampleFree | src/models.ts:249-266 | `x/y:free` is rejected with an empty list |
| Catalog.FreeSuffixIsMalformed | src/models.ts:261-263 | `x/y:free` does not have the accepted shape, since `:` is not an identifier character |
| Catalog.ResolveModel | src/models.ts:271-281 | a result is exactly the resolved alias and passes the existence check; no result means the resolved alias fails it |
| Catalog.AliasTargetsAreBuiltIn | src/models.ts:56-74 | every alias target is in the built-in list |
| Catalog.AliasesAlwaysResolve | src/models.ts:271-281 | every shorthand resolves to its table entry whatever list is loaded |
| Catalog.FindModel | src/models.ts:287 | finds the first record with the identifier, and finds none exactly when no record carries it |
| Catalog.GetModelPricing | src/models.ts:286-289 | the label of the first record with the identifier; `unknown pricing` when there is none or its label is empty |
| Catalog.Suggest | src/models.ts:320-333 | an alias input keeps exactly the entries named by its target; any other input keeps exactly the entries whose lower-cased name contains the lower-cased input; never more entries than given |
| Catalog.SuggestAppend | src/models.ts:326-332 | filtering a list is filtering each part and concatenating, so the order and repetitions of the entries are kept |
| Catalog.SuggestEmptyInputKeepsAll | src/models.ts:329-332 | empty input keeps every entry in order |
| Catalog.SuggestIgnoresCase | src/models.ts:321 | the filter gives the same result for an input and its lower-cased form |
| JsText.Split | src/models.ts:119 | splitting always yields at least one piece, and no piece contains the separator |
| JsText.SplitLength | src/models.ts:125 | the number of pieces is one more than the number of separators |
| JsText.JoinSplit | src/models.ts:201 | joining the pieces of a split gives back the text |
| JsText.SplitJoin | src/models.ts:201 | splitting a join of one or more separator-free parts gives back the parts (an empty list joins to `""`, which splits to `[""]`) |
| JsText.TrimUnchanged | src/models.ts:119 | trimming a text that starts and ends with non-white-space changes nothing |
| JsText.AsciiLowerIdempotent | src/models.ts:321 | lower-casing twice is lower-casing once |
| JsText.SortStrings | src/models.ts:197 | the result is in the default sort order and a permutation of the input |
| JsText.SortedUnique | src/models.ts:197 | two sorted permutations of the same lines are equal, so the written file does not depend on the input order |
| JsText.Trim | src/models.ts:119 | `trim`: drops leading and trailing characters of the ECMAScript white-space and line-terminator set |
| JsText.Join | src/models.ts:201 | `join` on one character: the parts with the separator between consecutive ones, `""` for no parts |
| JsText.StartsWith | src/models.ts:80 | `startsWith`: the prefix is an initial segment of the text |
| JsText.EndsWith | src/models.ts:181 | `endsWith`: the suffix is a final segment of the text |
| JsText.Includes | src/models.ts:331 | `includes`: the needle occurs at some position of the text |
| JsText.AsciiLower | src/models.ts:321 | `toLowerCase` on ASCII letters: the same length, each upper-case letter mapped to its lower-case form |
| JsText.LexLe | src/models.ts:197 | the default `sort` order: a prefix sorts first, otherwise the first differing character decides |
| JsText.LexLeTotal | src/models.ts:197 | any two texts are ordered one way or the other |
| JsText.LexLeAntisymmetric | src/models.ts:197 | texts ordered both ways are equal |
| JsText.LexLeTransitive | src/models.ts:197 | the order is transitive |
| JsText.LexLeReflexive | src/models.ts:197 | every text is ordered before itself |
| CacheFormat.RecordLine | src/models.ts:188 | the template literal of a cache line: the id and the two scaled prices separated by bars |
| CacheFormat.ParseLine | src/models.ts:125-126 | a kept line has at least two `|`, a non-empty, `|`-free id, and its prices as the label |
| CacheFormat.ParseRecordLine | src/models.ts:125-132 | a line built from three non-empty, `|`-free fields reads back as exactly that record |
| CacheFormat.ParseLineIgnoresExtraFields | src/models.ts:125 | fields after the third are ignored |
| CacheFormat.ParseLineRejectsEmptyField | src/models.ts:126 | a line with an empty id, prompt or completion field is skipped |
| CacheFormat.ParseLineKeepsNonNumericPrices | src/models.ts:128-132 | non-numeric price text is kept, not rejected |
| CacheFormat.CacheLines | src/models.ts:119 | the lines of the trimmed content, empty ones dropped: none is empty or holds a newline |
| CacheFormat.CodingFirst | src/models.ts:134-142 | the coding records in order, followed by the other records in order |
| CacheFormat.ParseCache | src/models.ts:119-144 | a result is never empty, and there is no result exactly when no line is kept |
| CacheFormat.CodingFirstIsPermutation | src/models.ts:134-142 | regrouping coding-first loses and duplicates nothing |
| CacheFormat.CodingFirstOrder | src/models.ts:134-142 | every coding model comes before every other model |
| CacheFormat.ParseJoinedLines | src/models.ts:118-144 | one or more newline-free lines that each hold a record, joined by newlines into a text that starts and ends with a non-white-space character, read back as one record per line, coding models first |
| ModelFetch.Serialise | src/models.ts:191-201 | there is no text to write exactly when no entry survives |
| ModelFetch.EntryLine | src/models.ts:178-188 | an entry's line: none when its id or a price is missing or empty, its id ends in `:free`, or a scaled price is NaN; otherwise the id and the two scaled prices separated by bars |
| ModelFetch.SurvivingLines | src/models.ts:175-189 | the lines of the entries that pass the filter, in list order: a line is in it exactly when some entry yields it |
| ModelFetch.FileHoldsExactlyKeptEntries | src/models.ts:177-201 | a line is in the written file exactly when some entry passes the filter and yields it, whenever no kept identifier and no rendered price holds a newline |
| ModelFetch.SerialiseIgnoresApiOrder | src/models.ts:197-201 | the same entries in any order give the same file |
| ModelFetch.LineOrderIsNotIdOrder | src/models.ts:196-197 | when one id extends another by a character that sorts before the bar, the longer id's line sorts first, although the shorter id is the smaller identifier |
| ModelFetch.EntryLineReadsBack | src/models.ts:188 | for an id without a bar, newline or leading white space and a `scale` whose renderings are non-empty, contain no bar or newline and do not end in white space, a kept entry's line reads back as the record of its id and scaled prices |
| ModelFetch.SerialisedFileLines | src/models.ts:197-201 | the lines of the written file are sorted and are a permutation of the surviving lines, whenever no kept identifier and no rendered price holds a newline |
| ModelFetch.SerialiseRoundTrip | src/models.ts:175-201 | reading the written file back yields one record per surviving entry, coding models first, and nothing else |
| Loader.FreshnessBoundary | src/models.ts:95-107 | a file exactly one hour old is stale, one a millisecond younger is fresh, and a missing or un-stat-able file is never fresh |
| Loader.FreshCacheShortCircuits | src/models.ts:216-219 | an unforced load with a fresh cache that parses returns that parse, leaves the file alone, and does not depend on the API's answer |
| Loader.FailedFetchUsesStaleCache | src/models.ts:222-232 | when the fetch fails, a cache that parses is returned whatever its age |
| Loader.NothingUsableGivesBuiltInList | src/models.ts:228-236 | when the fetch fails and no cache parses, the result is exactly the ten built-in models |
| Loader.SuccessfulFetchIsReadBack | src/models.ts:222-225 | after a successful fetch the file holds the sorted surviving lines stamped now, and the result is one record per surviving entry, coding models first |
| Loader.FetchedCacheServesNextLoad | src/models.ts:214-225 | after a load that fetched and read back at least one record, an unforced load within the hour returns the same models from the file, without fetching |
| Loader.FirstRunKeepsPricedEntry | src/models.ts:177-189 | for an id without a bar, newline or leading white space and a `scale` whose renderings are non-empty, contain no bar or newline and do not end in white space: with no cache file, a listing of a priced entry, a `:free` entry and an entry without pricing writes a file holding the priced entry's line alone, stamped now, and yields exactly that entry's model with its scaled prices |
| Loader.CacheValid | src/models.ts:95-107 | the file exists, can be stat'ed, and is younger than the freshness limit |
| Loader.ReadCache | src/models.ts:112-148 | nothing for a missing or unreadable file, otherwise the parse of its content; a result is never empty |
| Loader.AfterFetch | src/models.ts:153-209 | a successful fetch writes the serialised text stamped now; a failed one leaves the file as it was |
| Loader.LoadSpec | src/models.ts:214-237 | the four tiers in order; the result is never empty |
| Loader.ModelCache.IsCacheValid | src/models.ts:95-107 | computes freshness from the file's modification time: age in seconds strictly below 3600 |
| Loader.ModelCache.LoadFromCache | src/models.ts:112-148 | the two-bucket loop returns exactly what `ParseCache` specifies for the current file, and nothing when the file is missing or unreadable |
| Loader.ModelCache.FetchModels | src/models.ts:153-209 | on success the file holds the sorted, joined surviving lines stamped now; on failure the file is unchanged |
| Loader.ModelCache.Load | src/models.ts:214-237 | the four tiers: the result and the new file are those the specification gives, the result is never empty, a fresh readable cache is returned untouched, and a failed fetch leaves the file alone and falls back to the built-in list when no cache parses |

## Left out

- File-system and network I/O are not modelled directly. `existsSync`, `statSync`, `readFileSync`, `mkdirSync`, `writeFileSync` and `fetch` are replaced by the cache file's state (`Loader.CacheFile`) and the environment (`Loader.Env`).
- A write that fails part-way, leaving a truncated file, is not modelled: a write either happens whole or not at all.
- The spinner, `logInfo` and `logError` are output only and are left out.
- Floating point is not modelled:
  - `parseFloat` and `* 1000000` are the abstract `scale` parameter;
  - `formatPrice` and the numeric `promptPrice`/`completionPrice` of a cached record are kept as the price text.
- The JavaScript prototype lookup in `MODEL_ALIASES[...]` is not modelled: the table is a finite map. Keys such as `toString` or `__proto__` would otherwise hit inherited properties.
- `toLowerCase` is modelled on ASCII letters only.
- `Array.prototype.sort` compares UTF-16 code units; the model compares code points. The two orders agree on text inside the Basic Multilingual Plane.
- An entry of the API list that is `null` would make the code throw and fail the whole fetch. Entries here are always records, and entries and their fields have the types declared at src/models.ts:164-167. A truthy identifier that is not a string would make `endsWith` throw at src/models.ts:181 and fail the fetch; that is not modelled either.
- Another process writing or deleting the cache file during a load is not modelled: between the tiers of `Loader.ModelCache.Load` the file changes only through `FetchModels`.
- The modification time is a real number of milliseconds and the clock an integer, as `Date.now()` returns. Sub-millisecond clocks are not modelled.
- `selectModel`, apart from its `suggest` filter, is an interactive prompt and is left out. `src/index.ts`, `src/integrations/` and `src/utils.ts` are not part of this model.
- ModelFetch.SerialiseRoundTrip: proved for kept identifiers that contain no `|` or newline and do not start with white space, and for a `scale` whose renderings are non-empty, contain no `|` or newline and do not end in white space. Every rendering of a JavaScript number has that form. A leading space on the first line would be lost to `trim`.
- Loader.SuccessfulFetchIsReadBack: carries the same conditions on identifiers and `scale` as the round trip.
- Catalog.GetModelPricing: returns a `Pricing` value, either a label or the two price texts, instead of the formatted display string.
