# Brand checker: the IP Australia trademark lookup, modelled in Dafny

This project models the trademark-lookup path of the brand checker backend. A business name
is normalised into a query. An OAuth client-credentials token is obtained through a one-slot cache
that expires. The registry's quick search returns a count and a list of ids. The details of the
top five ids are fetched. Each detail record is normalised into a match, with its words, status
and Nice classes (labelled from the 45-entry class table). The matches are split into exact and
similar ones, and the check ends in one of available, taken, similar or unknown. Around that
result, fixed substring rules produce demo results for the business name, the domains and the
social handles.

Modules, one per concern, in dependency order:

- `Wrappers`: `Option` and `Result`.
- `Text`: the string operations the code relies on. These are `str.strip` over Python's
  whitespace set, ASCII lower-casing, decimal digits and their value, `in` on strings,
  `replace(" ", "")` and slicing.
- `PyJson`: decoded JSON values and the Python operations applied to them. These are
  truthiness, `dict.get`, `or`-chains over several fields, `str()`, `int()` and the messages of
  the exceptions those raise.
- `NiceClasses`: `NICE_CLASS_MAP` and `label_nice_class`.
- `Query`: `normalize_query`.
- `ClassNumbers`: `extract_nice_classes` and the ordering `sorted(set(...), key=...)` it uses.
- `Records`: `TrademarkMatch`, `CheckResult`, `AggregatedResults` and the status values. The
  `label` field is called `labelText`, because `label` is a Dafny keyword.
- `Tokens`: the token cache as a class `TokenCache` with a `cached` field. The acquisition step
  is also defined as a pure function, which specifies the class's methods.
- `Normalizer`: the loop that turns detail results into matches.
- `Classifier`: `check_ip_australia_trademark`. It covers the quick search, the detail
  fetches, the exact/similar split and the verdict.
- `Demo`: `get_demo_results`, taking the trademark result as a parameter.

Inputs that come from outside the process are parameters:

- The environment variables are an `Env` value.
- The clock is an integer number of milliseconds.
- The token endpoint's answer is a `TokenReply`. The model returns the `TokenRequest` it would
  POST.
- The quick search's answer is a `SearchReply`.
- Fetching one id's details is a function from id to `FetchOutcome`.

An exception raised inside the `try` of the check is an `Err` carrying the `str()` of that
exception, and it becomes the `unknown` result of the `except` branch.

The model follows what the code does. These behaviours of the code are easy to misread:

- A missing token URL, client id or client secret raises inside the `try` of the check, so it
  becomes an `unknown` result. It does not propagate to the caller.
- `fetch_trademark_details` catches only non-success statuses and non-JSON bodies. A network
  exception while fetching one id propagates through `asyncio.gather` and makes the whole check
  `unknown`. It is not contained per id.
- An error detail result is not dropped. It becomes a placeholder whose words are `""`, so it is
  never classified as exact or similar. It still counts in "Showing the top N".
- `request_new_token` as written cannot run (see Findings). The corrected client, with the
  endpoint and credentials passed in, is what the rest of the model uses.

## Model

| member | source | states |
|---|---|---|
| Text.Strip | backend/checkers.py:95 | `str.strip()`: the result has no whitespace at either end |
| Text.StripInnerPart | backend/checkers.py:95 | strip keeps exactly one slice of its input, and everything before and after that slice is whitespace |
| Text.LStrip | backend/checkers.py:95 | the result is a suffix of the input, everything dropped is whitespace, and it does not start with whitespace |
| Text.RStrip | backend/checkers.py:95 | the result is a prefix of the input, everything dropped is whitespace, and it does not end with whitespace |
| Text.StripOfTrimmed | backend/checkers.py:95 | stripping a string without outer whitespace leaves it unchanged |
| Text.StripIdempotent | backend/nice_classes.py:56 | stripping twice is stripping once |
| Text.LStripOfTrimmed | backend/checkers.py:95 | `lstrip` leaves a string without outer whitespace unchanged |
| Text.RStripOfTrimmed | backend/checkers.py:95 | `rstrip` leaves a string without outer whitespace unchanged |
| Text.Lower | backend/checkers.py:333 | `q.lower()`: same length, each character mapped by the case mapping |
| Text.LowerIdempotent | backend/checkers.py:333 | lower-casing twice is lower-casing once |
| Text.LowerChar | backend/checkers.py:333 | an upper-case ASCII letter becomes the lower-case letter at the same place in the alphabet, every other character is kept, and no upper-case ASCII letter is left |
| Text.NatToDecimal | backend/checkers.py:432 | `str()` of a count is non-empty, all digits and has no leading zero |
| Text.DecimalRoundTrip | backend/checkers.py:216 | `int(str(n)) == n` for every natural number |
| Text.DecimalInjective | backend/nice_classes.py:5-51 | distinct numbers have distinct decimal spellings |
| Text.DigitOf | backend/checkers.py:216 | a digit character has a value below 10 |
| Text.DigitChar | backend/checkers.py:432 | the digit character for a value below 10 is a digit with that value |
| Text.IntToDecimal | backend/checkers.py:305 | `str()` of an integer is non-empty, starts with `-` exactly when the integer is negative, is otherwise made of digits, and has no leading zero after the optional sign |
| Text.Contains | backend/checkers.py:469-470 | `sub in s` holds exactly when `sub` occurs at some position of `s` |
| Text.RemoveSpaces | backend/checkers.py:467 | `replace(" ", "")` leaves no space, and a string without spaces is unchanged |
| Text.RemoveSpacesCounts | backend/checkers.py:467 | every character other than a space is kept as often as it occurs |
| Text.RemoveSpacesAppend | backend/checkers.py:467 | the removal works piece by piece, so the kept characters stay in order |
| Text.Take | backend/checkers.py:327 | `s[:n]` is the prefix of length `min(n, len(s))` |
| Text.Join | backend/checkers.py:432 | joining no parts gives `""` and joining a single part gives that part |
| Text.JoinSnoc | backend/checkers.py:432 | joining one more part appends the separator and that part |
| PyJson.FirstTruthyField | backend/checkers.py:350-358 | an `or`-chain of `get`s yields a truthy probed value when one exists, and the final operand otherwise |
| PyJson.GetProperties | backend/checkers.py:311-312 | a truthy `get` means the key is present; with the key absent, `get` is None and `get(k, default)` is the default; with it present, both give the stored value |
| PyJson.FirstTruthyFieldPicks | backend/checkers.py:350-358 | the chain yields exactly the value of the first truthy field |
| PyJson.PyStr | backend/checkers.py:391-392 | `str()` keeps a string and gives a non-empty text without outer whitespace for any other value |
| PyJson.ParseLiteral | backend/checkers.py:311 | `int()` of text without outer whitespace succeeds exactly on a decimal literal with an optional sign, and gives its value, negated after `-` |
| PyJson.ParseInt | backend/checkers.py:311 | `int()` of a string succeeds exactly when the stripped text is a decimal literal with an optional sign, and gives its value, negated after `-` |
| PyJson.PyInt | backend/checkers.py:311 | `int()` keeps an integer, maps True and False to 1 and 0, parses a string, and raises on None, a list or a dict |
| PyJson.ParseDigits | backend/checkers.py:216 | `int()` of a digit string, with or without a minus sign in front, is the value of its digits, negated after the sign |
| PyJson.IntRoundTrip | backend/checkers.py:311 | `int(str(i)) == i` for every integer |
| NiceClasses.LabelNiceClass | backend/nice_classes.py:54-59 | the result starts with the stripped key; a known key gets `key + " (" + description + ")"` and an unknown key is returned stripped |
| NiceClasses.LabelIgnoresPadding | backend/nice_classes.py:56 | a padded key labels like the stripped key |
| NiceClasses.LabelUnknownExamples | backend/nice_classes.py:59 | worked example: "99", "09" and "" label as themselves |
| NiceClasses.LabelKnownExample | backend/nice_classes.py:57-58 | worked example: any key that strips to "9", such as " 9 ", labels as "9 (" + the class 9 description + ")" |
| NiceClasses.ClassNineEntry | backend/nice_classes.py:14 | class 9 is described as "Scientific & electronic apparatus, software" |
| NiceClasses.StripPaddedNine | backend/nice_classes.py:56 | " 9 " strips to "9" |
| NiceClasses.UnknownKeys | backend/nice_classes.py:5-51 | "99", "09" and "" are not keys of the map |
| NiceClasses.NiceClassKeysCanonical | backend/nice_classes.py:5-51 | every key is a decimal numeral without a leading zero, with a value from 1 to 45 |
| NiceClasses.CanonicalKeysPresent | backend/nice_classes.py:5-51 | every decimal numeral without a leading zero, with a value from 1 to 45, is a key |
| NiceClasses.NiceClassMapKeys | backend/nice_classes.py:5-51 | the map has exactly 45 entries; its keys are exactly the canonical decimal spellings of 1 to 45 |
| NiceClasses.NiceClassMapDomain | backend/nice_classes.py:5-51 | the key set is the set of spellings of 1 to 45 |
| NiceClasses.SpellingsCount | backend/nice_classes.py:5-51 | the spellings of 1 to k are k distinct strings |
| NiceClasses.SpellingsStep | backend/nice_classes.py:5-51 | the spellings of 1 to k are those of 1 to k - 1 plus the spelling of k |
| NiceClasses.CanonicalDecimal | backend/nice_classes.py:5-51 | a digit string without a leading zero is the spelling of its value |
| NiceClasses.DecimalInjectiveAll | backend/nice_classes.py:5-51 | no two class numbers share a key |
| Query.NormalizeQuery | backend/checkers.py:93-95 | the query has no outer whitespace, its only whitespace is single `' '` characters, and it keeps the input's non-whitespace characters in order |
| Query.NormalizeIdempotent | backend/checkers.py:93-95 | normalising twice is normalising once |
| Query.CollapseSpaces | backend/checkers.py:95 | `re.sub(r"\s+", " ", s)` is empty exactly when its input is, and starts with whitespace exactly when its input does |
| Query.CollapseWellSpaced | backend/checkers.py:95 | the collapse leaves only single plain spaces |
| Query.CollapseNonSpace | backend/checkers.py:95 | the collapse keeps the non-whitespace characters in order |
| Query.CollapseLast | backend/checkers.py:95 | the collapse ends in whitespace exactly when its input does |
| Query.WellSpacedIsSingleSpaced | backend/checkers.py:95 | "single-spaced" read character by character agrees with the position-wise reading: every whitespace is `' '` and no two whitespace characters are adjacent |
| Query.CollapseOfWellSpaced | backend/checkers.py:95 | collapsing a string that already has single spaces changes nothing |
| Query.NonSpaceOfStrip | backend/checkers.py:95 | stripping keeps the non-whitespace characters |
| Query.NonSpaceOfLStrip | backend/checkers.py:95 | `lstrip` keeps the non-whitespace characters |
| Query.NonSpaceOfRStrip | backend/checkers.py:95 | `rstrip` keeps the non-whitespace characters |
| Query.NonSpaceAppend | backend/checkers.py:95 | the non-whitespace characters of a concatenation are those of its parts |
| Query.CollapseAppend | backend/checkers.py:95 | when a cut point does not fall inside a whitespace run, collapsing the whole is collapsing the two pieces |
| Query.CollapseRun | backend/checkers.py:95 | a non-empty whitespace run collapses to exactly one `' '` |
| Query.CollapseOfNoSpace | backend/checkers.py:95 | a string without whitespace is left unchanged |
| Query.InnerRunCollapsed | backend/checkers.py:93-95 | two words separated by any non-empty whitespace run normalise to the two words joined by one `' '` |
| Query.CollapseCons | backend/checkers.py:95 | a leading non-whitespace character is kept, and a leading whitespace character becomes `' '` and swallows the whitespace after it |
| Query.LStripAppend | backend/checkers.py:95 | `lstrip` of a concatenation strips into the second piece only when the first is all whitespace |
| Query.LStripAllSpace | backend/checkers.py:95 | `lstrip` of an all-whitespace string is empty |
| ClassNumbers.ExtractNiceClasses | backend/checkers.py:169-219 | the classes are distinct, non-empty and stripped, in non-decreasing key order, and are exactly the numbers the candidates yield |
| ClassNumbers.CandidatesOrder | backend/checkers.py:170-195 | `Candidates`, the gathered list: `tm["classes"]` comes first and `classificationList` last, a `goodsAndServices` list contributes all of its items, and when no key holds a list (and `goodsAndServices` is not a dict) nothing is gathered |
| ClassNumbers.GatherOrder | backend/checkers.py:170-195 | six lists extended one after another: the first is a prefix, the last is the suffix, and every item of the fifth is included |
| ClassNumbers.CandidateNumbers | backend/checkers.py:197-214 | a number is collected exactly when some candidate yields it, and every collected number is non-empty and stripped |
| ClassNumbers.CandidateNumber | backend/checkers.py:198-214 | a candidate's number, when it has one, is non-empty and stripped |
| ClassNumbers.NumberText | backend/checkers.py:211-214 | a kept `str(num).strip()` is non-empty and stripped |
| ClassNumbers.NumberTextCases | backend/checkers.py:211-214 | None yields nothing; a string yields its stripped text, or nothing when that is empty; an integer its decimal digits; a boolean `True` or `False`; a list or dict a non-empty text |
| ClassNumbers.CandidateNumberCases | backend/checkers.py:200-209 | a candidate that is not a dict yields its own text; a dict whose four number fields are all falsy yields the text of its `classId`, truthy or not |
| ClassNumbers.CandidateNumberPicks | backend/checkers.py:200-207 | a dict's first truthy field among number, classNumber, niceClass and class decides its number |
| ClassNumbers.YieldedMembers | backend/checkers.py:199-214 | a value is collected exactly when some candidate yields it |
| ClassNumbers.YieldedAppend | backend/checkers.py:199-214 | the collected values of a concatenation are those of its parts, concatenated, so candidate order is kept |
| ClassNumbers.CollectNumbers | backend/checkers.py:197-214 | the loop appends, in candidate order, each candidate's number when it has one |
| ClassNumbers.OrderClasses | backend/checkers.py:216 | `sorted(set(xs), key)` is duplicate-free, has the elements of `xs` and is ordered by the key |
| ClassNumbers.Dedup | backend/checkers.py:216 | `set(xs)` as a sequence: duplicate-free with the same elements |
| ClassNumbers.SortByKey | backend/checkers.py:216 | the sort is ordered by the key and is a permutation of its input |
| ClassNumbers.InsertByKey | backend/checkers.py:216 | inserting one class into an ordered list keeps it ordered and adds exactly that class |
| ClassNumbers.SortedCons | backend/checkers.py:216 | a class whose key is at most the head's extends an ordered list |
| ClassNumbers.InsertBound | backend/checkers.py:216 | the head of an ordered list whose key is below the inserted class stays a lower bound after the insertion into the tail |
| ClassNumbers.DistinctByCount | backend/checkers.py:216 | a sequence in which every element occurs at most once is duplicate-free |
| ClassNumbers.CountOfDistinct | backend/checkers.py:216 | in a duplicate-free sequence every element occurs at most once |
| ClassNumbers.OrderClassesExample | backend/checkers.py:216 | worked example: `["35","9","100"]` is ordered as `["9","35","100"]`, by number and not as text |
| ClassNumbers.SortExample | backend/checkers.py:216 | worked example, a step of the one above: the key sort puts `["35","9","100"]` in the order `["9","35","100"]` |
| ClassNumbers.SortTailExample | backend/checkers.py:216 | worked example, a step of the one above: `["9","100"]` is already in key order |
| ClassNumbers.InsertExamples | backend/checkers.py:216 | worked example, a step of the one above: "9" and "35" go before "100", and a class inserted into nothing is alone |
| ClassNumbers.InsertMiddleExample | backend/checkers.py:216 | worked example, a step of the one above: "35" goes between "9" and "100", not after "100" as a text sort would put it |
| ClassNumbers.DedupExample | backend/checkers.py:216 | worked example, a step of the one above: the model's de-duplication keeps `["35","9","100"]`, which has no repeats, as it is |
| ClassNumbers.ClassKeyExamples | backend/checkers.py:216 | worked example: the keys of "9", "35" and "100" are 9, 35 and 100 |
| Tokens.ConfigError | backend/checkers.py:117-122 | the configuration is accepted exactly when the URL, id and secret are all non-empty; otherwise the error names the first missing one, in the order URL, id, secret |
| Tokens.NewTokenStep | backend/checkers.py:132-165 | the request is always sent; success needs a dict body with a parsable `expires_in` and a truthy `access_token`, returns that token and caches it until `now + (expires_in - 60) * 1000` |
| Tokens.AccessTokenStep | backend/checkers.py:102-130 | a request is sent exactly when the configuration is complete and the cache is not fresh; the cache only ever holds a truthy token |
| Tokens.ConfigCheckedFirst | backend/checkers.py:117-122 | a missing setting fails before the cache is consulted, with no request sent and the cache unchanged |
| Tokens.FreshTokenReused | backend/checkers.py:124-126 | while `now < expiresAt`, the cached token is returned unchanged, with no request sent |
| Tokens.StaleTokenRequested | backend/checkers.py:128-130 | an empty or expired cache sends exactly the configured request, and a failure leaves the cache unchanged |
| Tokens.RefreshThenReuse | backend/checkers.py:159-165 | a token granted at `t0` is served from the cache, with no request, by every call before `t0 + (expires_in - 60) * 1000` |
| Tokens.AccessTokenStepAsWritten | backend/checkers.py:132-145 | as written, a cache miss with complete configuration raises NameError; no request is sent and the cache is not touched |
| Tokens.AsWrittenNeverCaches | backend/checkers.py:159-163 | as written, the cache stays empty over any sequence of calls, and every call fails |
| Tokens.AsWrittenCacheAfter | backend/checkers.py:159-163 | the as-written cache after any sequence of calls is empty, because no call stores into the module variable; `AsWrittenNeverCaches` adds that every call fails |
| Tokens.TokenCache.constructor | backend/checkers.py:99 | the process starts with no cached token |
| Tokens.TokenCache.RequestNewToken | backend/checkers.py:132-165 | the returned token and the new cache are those of the request step |
| Tokens.TokenCache.GetAccessToken | backend/checkers.py:102-130 | the returned token, the request sent and the new cache are those of the acquisition step |
| Normalizer.GoodsClassValues | backend/checkers.py:378-383 | the loop completes exactly when every item is a dict; it collects exactly the `str()` of the truthy `class` values |
| Normalizer.RecordClasses | backend/checkers.py:375-385 | a record's classes are distinct and ordered by the numeric key |
| Normalizer.NormalizeDetail | backend/checkers.py:336-394 | an error result gives the placeholder; a parsed match keeps the id, has distinct ordered classes with one label each, and parsing fails only when the data or a goods item is not a dict |
| Normalizer.NormalizedWords | backend/checkers.py:350-358 | `words` is `str()` of the first truthy of the six words fields |
| Normalizer.NormalizedStatus | backend/checkers.py:360-370 | `status` is `str()` of the first truthy of the seven status fields |
| Normalizer.NormalizedEmptyFields | backend/checkers.py:350-370 | the words, or the status, are `""` when none of their fields is truthy |
| Normalizer.NormalizedClasses | backend/checkers.py:375-385 | a class is listed exactly when some goods item has it as a truthy `class` |
| Normalizer.NormalizeAll | backend/checkers.py:335-396 | a completed loop gives one match per detail result |
| Normalizer.NormalizeAllElements | backend/checkers.py:335-396 | the loop completes exactly when no record raises, and then the i-th match is that of the i-th result |
| Normalizer.NormalizeAllErrPrefix | backend/checkers.py:335-396 | the first record that raises ends the loop with its exception |
| Normalizer.GoodsErrPrefix | backend/checkers.py:378-383 | the first goods item that raises ends the loop with its exception |
| Normalizer.CollectGoodsClasses | backend/checkers.py:375-383 | the `classes_set` loop collects each truthy class once, or raises as the first non-dict item does |
| Normalizer.NormalizeRecord | backend/checkers.py:336-394 | one iteration computes that record's match or exception |
| Normalizer.NormalizeDetails | backend/checkers.py:335-396 | the loop computes the parsed list, or the first exception raised |
| Classifier.ExactMatches | backend/checkers.py:399-409 | a match is kept exactly when its words are truthy and equal the query, ignoring case |
| Classifier.SimilarMatches | backend/checkers.py:411-421 | a match is kept exactly when its words are truthy and differ from the query, ignoring case |
| Classifier.WordedMatches | backend/checkers.py:399-421 | a match is kept exactly when its words are truthy |
| Classifier.ExactMatchesAppend | backend/checkers.py:399-409 | the exact matches keep parsed order: filtering a concatenation concatenates the filtered parts |
| Classifier.ExactMatchesSingle | backend/checkers.py:399-409 | a single match is kept exactly when it is exact |
| Classifier.SimilarMatchesAppend | backend/checkers.py:411-421 | the similar matches keep parsed order |
| Classifier.SimilarMatchesSingle | backend/checkers.py:411-421 | a single match is kept exactly when it is similar |
| Classifier.WordedMatchesAppend | backend/checkers.py:399-421 | the worded matches keep parsed order |
| Classifier.WordedMatchesSingle | backend/checkers.py:399-421 | a single match is kept exactly when it has words |
| Classifier.PlaceholdersUnmatched | backend/checkers.py:337-346 | the placeholder of a failed fetch, like a bare-id placeholder, has no words, so it is never exact or similar |
| Classifier.MatchesPartition | backend/checkers.py:399-421 | exact and similar matches are disjoint, and together they are the matches with words, each as often as it occurs |
| Classifier.NoMatchesIffNoWords | backend/checkers.py:424 | there is nothing to show exactly when no parsed match has words |
| Classifier.JoinIds | backend/checkers.py:432 | `", ".join(ids)` succeeds exactly when every id is a string |
| Classifier.FallbackResult | backend/checkers.py:426-436 | the fallback is similar, with no exact matches and one bare placeholder per fetched id; it raises when an id is not a string |
| Classifier.Classify | backend/checkers.py:398-452 | with some worded match: taken exactly when one is exact, similar otherwise, listing the exact and similar matches; with none, the fallback |
| Classifier.AllFailedFallsBack | backend/checkers.py:337-346 | when every detail fetch failed, the verdict is the bare-id fallback |
| Classifier.FetchAll | backend/checkers.py:327-329 | the gather completes exactly when no fetch raises, with one result per id in order, carrying data exactly for the fetched ones |
| Classifier.FetchAllLocal | backend/checkers.py:328-329 | only the ids passed are fetched |
| Classifier.NoResultsAvailable | backend/checkers.py:311-324 | a count of 0, or an id list that is empty or not a list, is available with no matches |
| Classifier.OnlyTopFiveFetched | backend/checkers.py:326-329 | the outcome depends only on what the first five ids fetch |
| Classifier.SearchUnknownOnlyOnHttpError | backend/checkers.py:299-306 | within the pipeline, the only unknown result is the non-success quick search |
| Classifier.SearchOutcome | backend/checkers.py:288-396 | the pipeline inside the try: a raised search aborts with its message, a non-dict search body raises, and every result carries the trademark label; `NoResultsAvailable`, `OnlyTopFiveFetched`, `SearchUnknownOnlyOnHttpError` and `CheckOutcomeUnknown` state the rest |
| Classifier.CheckOutcome | backend/checkers.py:454-461 | whatever the token and the pipeline do, the result carries the label "Trademark (IP Australia)" |
| Classifier.TrademarkCheck | backend/checkers.py:262-270 | a missing base URL gives the unknown result and leaves the cache untouched |
| Classifier.CheckOutcomeUnknown | backend/checkers.py:454-461 | once the base URL is set, the result is unknown exactly when the token fails, the search status is non-success, or the pipeline raises |
| Classifier.UnknownCases | backend/checkers.py:454-461 | the status is unknown exactly when the base URL is missing, the token fails, the search status is non-success, or the pipeline raises |
| Classifier.AsWrittenCheckAlwaysUnknown | backend/checkers.py:454-461 | as written, starting from the empty cache, every check is unknown, failing with the NameError, whatever the registry answers |
| Classifier.TrademarkCheckAsWritten | backend/checkers.py:252-270 | the check run with the token client as written: a missing base URL gives its unknown result, and every result carries the trademark label; `AsWrittenCheckAlwaysUnknown` states that it is always unknown from the empty cache |
| Classifier.CheckIpAustraliaTrademark | backend/checkers.py:252-461 | the method's result and the cache it leaves are those of the check |
| Classifier.RunSearch | backend/checkers.py:288-396 | the search, the fetch and the normaliser loop return exactly `SearchOutcome` of the query, the search reply and the fetch outcomes |
| Demo.DemoResults | backend/checkers.py:464-515 | business name, `.com` and Instagram are taken exactly when the lowercased, stripped name contains "koala" or "australia" (available otherwise); `.com.au` is similar exactly when it contains "brew" or "coffee"; TikTok is always available; the labels use the compact name; the trademark result passes through |
| Demo.DemoResultsFor | backend/checkers.py:474-515 | given the compact name and the outcomes of the two rules: the three "taken" results are taken exactly when that outcome holds, `.com.au` is similar exactly when the other holds, TikTok is available, and each label and details text is the one the source writes for that status |
| Demo.CompactName | backend/checkers.py:466-467 | the compact name holds no space |
| Demo.CompactNameKeeps | backend/checkers.py:466-467 | the compact name keeps every other character of the normalised name, as often as it occurs |
| Demo.DemoIgnoresCaseAndPadding | backend/checkers.py:466 | names that agree after lower-casing and stripping give the same demo results |
| Demo.KoalaBrewExample | backend/checkers.py:469-470 | worked example: a name normalising to "koala brew" is taken for the business name and similar for `.com.au` |
| Demo.KoalaBrewNormalized | backend/checkers.py:466 | worked example, showing such a name exists: "Koala Brew" normalises to "koala brew" |
| Demo.KoalaBrewLower | backend/checkers.py:466 | worked example, a step of the one above: "Koala Brew" lower-cases to "koala brew" |
| Demo.KoalaBrewMentions | backend/checkers.py:469-470 | worked example, a step of the one above: "koala brew" contains both "koala" and "brew" |

## Left out

- backend/main.py, the HTTP routing layer, is not part of this model.
- HTTP requests, headers, URL building (`base_url.rstrip('/')` plus a path) and the quick-search payload are left out. The registry's answers are inputs. The query is sent only inside the payload, so its one effect on the registry is already folded into the answer passed in.
- asyncio: `_token_lock` and the concurrency of `asyncio.gather` are left out. When several fetches raise, the model reports the first in id order. The code reports whichever raises first in time.
- `to_dict` serialisation of the records is left out. It only renames fields.
- `os.getenv` and `time.time()` are parameters. The clock is a single integer of milliseconds, so the cache test `time.time() * 1000 < expiresAt` is compared on integers.
- JSON floats are not represented, so `int()` of a float `expires_in` or `count` is not modelled.
- Python `int()` of strings is modelled for ASCII digits with an optional sign and surrounding whitespace. Underscores and non-ASCII digits are not modelled.
- `str()` of a non-empty list or dict is a fixed placeholder text, not Python's repr.
- Classifier.FetchAll: a detail fetch's outcome is a function of the id, so two equal ids among the top five get the same outcome. The code sends a separate request for each (backend/checkers.py:328-329), and the two answers can differ.
- The text of a failed detail fetch's error is not modelled. Only whether the fetch failed matters downstream.
- Text.Lower: ASCII-only case mapping, weaker than Python's Unicode `str.lower`. The exact/similar comparison and the demo rules use it.
- Whitespace is Python's `str.isspace` set. The model uses it both for `strip()` and for the regex class `\s`, assuming the two agree.
- PyJson.ParseInt: the message of the `ValueError` raised by `int()` is a fixed text (`IntErrorMessage`), not Python's message quoting the input. PyJson.PyInt uses the same text for the `TypeError` of `int(None)`, `int([...])` and `int({...})`, such as a JSON `null` `expires_in` (backend/checkers.py:154). This text appears in unknown results and token errors.
- PyJson.PyStr: promises only that `str()` of a non-string is non-empty and has no outer whitespace. The exact repr of containers is not modelled.
- ClassNumbers.OrderClasses: promises only distinctness, the same elements and non-decreasing key order. Classes sharing a key appear in the code in set-iteration order, which is unspecified. Examples are "9" and "09", which share key 9, and any two non-digit texts, which share key 999. The model fixes one order but does not promise it.
- ClassNumbers.ClassKey: digits are ASCII only. Python's `str.isdigit` also accepts other Unicode digits. For a decimal digit such as "１" (fullwidth one), Python sorts by its value, while the model gives key 999. For a digit such as "²", `isdigit` holds but `int()` raises ValueError, so the code raises there; inside the check, that makes the check unknown. The model gives key 999 and carries on.
- Normalizer.RecordClasses: the order among classes with equal keys is not promised, for the same reason.

## Findings

| source | as written | input that shows it | evidently intended | confidence | as-written member | corrected member |
|---|---|---|---|---|---|---|
| backend/checkers.py:132-165 | `request_new_token` reads `token_url`, `client_id` and `client_secret`, which are locals of `get_ipau_access_token`, so its first line raises NameError. It also assigns `_cached_token` without `global`, so even a successful run would not update the module cache. | the first trademark check of a process, with the base URL, token URL, client id and client secret all set: the cache is empty, so the request step runs and raises "name 'token_url' is not defined". The check is unknown, and so is every later one. | POST the configured credentials, then cache the token until `now + (expires_in - 60) * 1000` in the module-level cache | not executed | Tokens.AsWrittenNeverCaches | Tokens.RefreshThenReuse |
