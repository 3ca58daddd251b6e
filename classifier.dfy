/**
 * check_ip_australia_trademark: the quick search, the detail fetch of the top ids, the split of
 * the normalised records into exact and similar matches, and the verdict. The registry's replies
 * are inputs: one SearchReply for the quick search and a fetch function from id to FetchOutcome.
 * Every exception raised inside the try becomes an Err carrying str() of that exception.
 */
module Classifier {
  import opened Wrappers
  import opened Text
  import opened PyJson
  import opened Query
  import opened ClassNumbers
  import opened Records
  import opened Normalizer
  import opened Tokens

  const TrademarkLabel: string := "Trademark (IP Australia)"

  /** How many of the returned ids have their details fetched. */
  const MaxDetails: nat := 5

  /** What the quick search answered. */
  datatype SearchReply =
    | SearchHttpError(statusCode: int, text: string)  // a non-success status
    | SearchRaised(message: string)                  // the POST or the JSON decoding raised
    | SearchBody(body: Json)                         // a success status and its decoded JSON body

  // The fixed texts of the results.
  const RunFailedSummary: string := "We couldn't run the trademark check right now."
  const PickingWhy: string := "Trademark results help you avoid picking a name that could conflict with an existing brand."
  const MissingBaseUrlDetails: string := "Missing IPAU_TM_BASE_URL_TEST/PROD in environment"
  const CompleteFailedSummary: string := "We couldn't complete the trademark check right now."
  const ChoosingWhy: string := "Trademark results help you avoid choosing a name that could conflict with an existing brand."
  const AvailableSummary: string := "No registered word trademarks were found in Australia."
  const AvailableWhy: string := "This lowers risk, but it's not a guarantee. Similar marks, pending applications, or other rights may still exist."
  const AvailableDetails: string := "0 registered results returned by IP Australia quick search."
  const FallbackSummary: string := "Registered trademarks exist with this name or something similar."
  const FallbackWhy: string := "Even if names aren't identical, similar marks in related categories can increase legal and branding risk."
  const TakenSummary: string := "An identical registered trademark exists in Australia."
  const SimilarSummary: string := "Similar registered trademarks exist in Australia."
  const TakenWhy: string := "Using the same name can create a high risk of trademark conflict, especially in related industries."
  const SimilarWhy: string := "Even if names aren't identical, similar marks in related categories can still cause legal and branding risk."

  /** IPAU_TM_BASE_URL_PROD or IPAU_TM_BASE_URL_TEST, chosen by IPAU_ENV. */
  function BaseUrl(env: Env): Option<string> {
    if IsProduction(env) then env.tmBaseUrlProd else env.tmBaseUrlTest
  }

  function MissingBaseUrlResult(): CheckResult {
    CheckResult(TrademarkLabel, Unknown,
      Some(RunFailedSummary),
      Some(PickingWhy),
      Some(MissingBaseUrlDetails), [], [])
  }

  function SearchErrorResult(statusCode: int, text: string): CheckResult {
    CheckResult(TrademarkLabel, Unknown,
      Some(CompleteFailedSummary),
      Some(ChoosingWhy),
      Some("IP Australia error " + IntToDecimal(statusCode) + ": " + Take(text, ExcerptLength)), [], [])
  }

  /** The result of the except branch, for an exception whose str() is message. */
  function FailedResult(message: string): CheckResult {
    CheckResult(TrademarkLabel, Unknown,
      Some(RunFailedSummary),
      Some(ChoosingWhy),
      Some("Request failed: " + message), [], [])
  }

  function AvailableResult(): CheckResult {
    CheckResult(TrademarkLabel, Available,
      Some(AvailableSummary),
      Some(AvailableWhy),
      Some(AvailableDetails), [], [])
  }

  /** A match whose words are truthy. */
  predicate HasWords(m: TrademarkMatch) {
    m.words.Some? && m.words.value != ""
  }

  /** An exact match: its words equal the normalised query, ignoring case. */
  predicate IsExact(m: TrademarkMatch, qLower: string) {
    HasWords(m) && Lower(m.words.value) == qLower
  }

  predicate IsSimilar(m: TrademarkMatch, qLower: string) {
    HasWords(m) && Lower(m.words.value) != qLower
  }

  /** A placeholder, for a failed fetch or from the fallback, is never counted as exact or similar. */
  lemma PlaceholdersUnmatched(id: Json, qLower: string)
    ensures !HasWords(ErrorPlaceholder(id)) && !HasWords(BareMatch(id))
    ensures !IsExact(ErrorPlaceholder(id), qLower) && !IsSimilar(ErrorPlaceholder(id), qLower)
  {
  }

  /** The exact_matches comprehension, in parsed order. */
  function ExactMatches(parsed: seq<TrademarkMatch>, qLower: string): (r: seq<TrademarkMatch>)
    ensures forall m :: m in r <==> m in parsed && IsExact(m, qLower)
    decreases |parsed|
  {
    if parsed == [] then []
    else
      var last := parsed[|parsed| - 1];
      assert parsed == parsed[..|parsed| - 1] + [last];
      var init := ExactMatches(parsed[..|parsed| - 1], qLower);
      if IsExact(last, qLower) then init + [last] else init
  }

  /** The similar_matches comprehension, in parsed order. */
  function SimilarMatches(parsed: seq<TrademarkMatch>, qLower: string): (r: seq<TrademarkMatch>)
    ensures forall m :: m in r <==> m in parsed && IsSimilar(m, qLower)
    decreases |parsed|
  {
    if parsed == [] then []
    else
      var last := parsed[|parsed| - 1];
      assert parsed == parsed[..|parsed| - 1] + [last];
      var init := SimilarMatches(parsed[..|parsed| - 1], qLower);
      if IsSimilar(last, qLower) then init + [last] else init
  }

  /** The parsed matches with truthy words, in parsed order. */
  function WordedMatches(parsed: seq<TrademarkMatch>): (r: seq<TrademarkMatch>)
    ensures forall m :: m in r <==> m in parsed && HasWords(m)
    decreases |parsed|
  {
    if parsed == [] then []
    else
      var last := parsed[|parsed| - 1];
      assert parsed == parsed[..|parsed| - 1] + [last];
      var init := WordedMatches(parsed[..|parsed| - 1]);
      if HasWords(last) then init + [last] else init
  }

  /** ExactMatches keeps parsed order: filtering a concatenation concatenates the filtered parts. */
  lemma {:induction false} ExactMatchesAppend(a: seq<TrademarkMatch>, b: seq<TrademarkMatch>, qLower: string)
    ensures ExactMatches(a + b, qLower) == ExactMatches(a, qLower) + ExactMatches(b, qLower)
    decreases |b|
  {
    if b == [] {
      assert a + b == a;
    } else {
      var ab := a + b;
      assert ab[..|ab| - 1] == a + b[..|b| - 1];
      assert ab[|ab| - 1] == b[|b| - 1];
      ExactMatchesAppend(a, b[..|b| - 1], qLower);
    }
  }

  /** A single match is kept exactly when it satisfies the filter. */
  lemma ExactMatchesSingle(m: TrademarkMatch, qLower: string)
    ensures ExactMatches([m], qLower) == if IsExact(m, qLower) then [m] else []
  {
    assert [m][..0] == [];
  }

  /** SimilarMatches keeps parsed order: filtering a concatenation concatenates the filtered parts. */
  lemma {:induction false} SimilarMatchesAppend(a: seq<TrademarkMatch>, b: seq<TrademarkMatch>, qLower: string)
    ensures SimilarMatches(a + b, qLower) == SimilarMatches(a, qLower) + SimilarMatches(b, qLower)
    decreases |b|
  {
    if b == [] {
      assert a + b == a;
    } else {
      var ab := a + b;
      assert ab[..|ab| - 1] == a + b[..|b| - 1];
      assert ab[|ab| - 1] == b[|b| - 1];
      SimilarMatchesAppend(a, b[..|b| - 1], qLower);
    }
  }

  /** A single match is kept exactly when it satisfies the filter. */
  lemma SimilarMatchesSingle(m: TrademarkMatch, qLower: string)
    ensures SimilarMatches([m], qLower) == if IsSimilar(m, qLower) then [m] else []
  {
    assert [m][..0] == [];
  }

  /** WordedMatches keeps parsed order: filtering a concatenation concatenates the filtered parts. */
  lemma {:induction false} WordedMatchesAppend(a: seq<TrademarkMatch>, b: seq<TrademarkMatch>)
    ensures WordedMatches(a + b) == WordedMatches(a) + WordedMatches(b)
    decreases |b|
  {
    if b == [] {
      assert a + b == a;
    } else {
      var ab := a + b;
      assert ab[..|ab| - 1] == a + b[..|b| - 1];
      assert ab[|ab| - 1] == b[|b| - 1];
      WordedMatchesAppend(a, b[..|b| - 1]);
    }
  }

  /** A single match is kept exactly when it satisfies the filter. */
  lemma WordedMatchesSingle(m: TrademarkMatch)
    ensures WordedMatches([m]) == if HasWords(m) then [m] else []
  {
    assert [m][..0] == [];
  }

  /**
   * The exact and similar matches never share a match, and together they are exactly the
   * parsed matches with truthy words, each as often as it occurs there.
   */
  lemma {:induction false} MatchesPartition(parsed: seq<TrademarkMatch>, qLower: string)
    ensures multiset(ExactMatches(parsed, qLower)) + multiset(SimilarMatches(parsed, qLower)) == multiset(WordedMatches(parsed))
    ensures forall m :: !(m in ExactMatches(parsed, qLower) && m in SimilarMatches(parsed, qLower))
    decreases |parsed|
  {
    if parsed != [] {
      MatchesPartition(parsed[..|parsed| - 1], qLower);
    }
  }

  /** ", ".join(ids); a non-string id raises TypeError. */
  function JoinIds(ids: seq<Json>): (r: Result<string, string>)
    ensures r.Ok? <==> forall i :: 0 <= i < |ids| ==> ids[i].JStr?
  {
    if forall i :: 0 <= i < |ids| ==> ids[i].JStr? then
      Ok(Join(", ", seq(|ids|, i requires 0 <= i < |ids| => ids[i].s)))
    else
      Err(NonStringMessage(ids, 0))
  }

  /** The TypeError message naming the first item from index from on that is not a string. */
  function NonStringMessage(ids: seq<Json>, from: nat): string
    decreases |ids| - from
  {
    if from >= |ids| then ""
    else if !ids[from].JStr? then
      "sequence item " + NatToDecimal(from) + ": expected str instance, " + PyTypeName(ids[from]) + " found"
    else NonStringMessage(ids, from + 1)
  }

  /** Nothing parsed: similar, with a bare placeholder per fetched id. */
  function FallbackResult(count: int, top: seq<Json>): (r: Result<CheckResult, string>)
    ensures r.Ok? <==> forall i :: 0 <= i < |top| ==> top[i].JStr?
    ensures r.Ok? ==> r.value.status == Similar && r.value.exactMatches == []
                      && |r.value.similarMatches| == |top|
                      && forall i :: 0 <= i < |top| ==> r.value.similarMatches[i] == BareMatch(top[i])
  {
    match JoinIds(top)
    case Err(e) => Err(e)
    case Ok(joined) =>
      Ok(CheckResult(TrademarkLabel, Similar,
        Some(FallbackSummary),
        Some(FallbackWhy),
        Some("Found " + IntToDecimal(count) + " registered match(es). IDs: " + joined),
        [], seq(|top|, i requires 0 <= i < |top| => BareMatch(top[i]))))
  }

  /** No exact and no similar match exactly when no parsed match has words. */
  lemma NoMatchesIffNoWords(parsed: seq<TrademarkMatch>, qLower: string)
    ensures |ExactMatches(parsed, qLower)| + |SimilarMatches(parsed, qLower)| == 0 <==> forall m :: m in parsed ==> !HasWords(m)
  {
    if exists m :: m in parsed && HasWords(m) {
      var m :| m in parsed && HasWords(m);
      assert m in ExactMatches(parsed, qLower) || m in SimilarMatches(parsed, qLower);
    }
  }

  /**
   * The verdict once the top records are parsed: taken exactly when some parsed match is exact,
   * similar otherwise, with the exact and similar matches as the match lists; when no parsed
   * match has words, the fallback with bare placeholders for the fetched ids.
   */
  function Classify(count: int, top: seq<Json>, parsed: seq<TrademarkMatch>, q: string): (r: Result<CheckResult, string>)
    ensures (forall m :: m in parsed ==> !HasWords(m)) ==> r == FallbackResult(count, top)
    ensures (exists m :: m in parsed && HasWords(m)) ==>
              r.Ok? && r.value.labelText == TrademarkLabel
              && (r.value.status == Taken <==> exists m :: m in parsed && IsExact(m, Lower(q)))
              && (r.value.status == Similar <==> !exists m :: m in parsed && IsExact(m, Lower(q)))
              && r.value.exactMatches == ExactMatches(parsed, Lower(q))
              && r.value.similarMatches == SimilarMatches(parsed, Lower(q))
  {
    var qLower := Lower(q);
    var exact := ExactMatches(parsed, qLower);
    var similar := SimilarMatches(parsed, qLower);
    NoMatchesIffNoWords(parsed, qLower);
    if |exact| + |similar| == 0 then FallbackResult(count, top)
    else
      var isTaken := |exact| > 0;
      assert isTaken <==> exists m :: m in parsed && IsExact(m, qLower) by {
        if isTaken {
          assert exact[0] in exact;
        }
      }
      Ok(CheckResult(TrademarkLabel, if isTaken then Taken else Similar,
        Some(if isTaken then TakenSummary
             else SimilarSummary),
        Some(if isTaken then TakenWhy
             else SimilarWhy),
        Some("Found " + IntToDecimal(count) + " registered match(es). Showing the top " + IntToDecimal(|top|) + "."),
        exact, similar))
  }

  /** When every detail fetch failed, the placeholders carry no words and the verdict is the fallback. */
  lemma AllFailedFallsBack(count: int, top: seq<Json>, ds: seq<DetailResult>, q: string)
    requires forall i :: 0 <= i < |ds| ==> ds[i].DetailError?
    ensures NormalizeAll(ds).Ok?
    ensures Classify(count, top, NormalizeAll(ds).value, q) == FallbackResult(count, top)
  {
    NormalizeAllElements(ds);
    var parsed := NormalizeAll(ds).value;
    forall m | m in parsed
      ensures !HasWords(m)
    {
      var i :| 0 <= i < |parsed| && parsed[i] == m;
      assert m == ErrorPlaceholder(ds[i].id);
    }
  }

  /** The gathered detail results; the first fetch that raises (in id order) aborts the gather. */
  function FetchAll(ids: seq<Json>, fetch: Json -> FetchOutcome): (r: Result<seq<DetailResult>, string>)
    ensures r.Ok? <==> forall i :: 0 <= i < |ids| ==> !fetch(ids[i]).FetchRaised?
    ensures r.Ok? ==> |r.value| == |ids| && forall i :: 0 <= i < |ids| ==>
              r.value[i].id == ids[i]
              && (r.value[i].DetailData? <==> fetch(ids[i]).Fetched?)
              && (r.value[i].DetailData? ==> r.value[i].data == fetch(ids[i]).data)
    decreases |ids|
  {
    if ids == [] then Ok([])
    else if fetch(ids[0]).FetchRaised? then Err(fetch(ids[0]).message)
    else
        var d := if fetch(ids[0]).Fetched? then DetailData(ids[0], fetch(ids[0]).data) else DetailError(ids[0]);
        match FetchAll(ids[1..], fetch)
        case Err(message) =>
          assert exists i :: 1 <= i < |ids| && fetch(ids[i]).FetchRaised? by {
            var j :| 0 <= j < |ids[1..]| && fetch(ids[1..][j]).FetchRaised?;
            assert ids[1..][j] == ids[j + 1];
          }
          Err(message)
        case Ok(ds) =>
          assert forall i :: 1 <= i < |ids| ==> ids[i] == ids[1..][i - 1];
          Ok([d] + ds)
  }

  /** FetchAll only looks at the fetch outcomes of the ids it is given. */
  lemma {:induction false} FetchAllLocal(ids: seq<Json>, fetch1: Json -> FetchOutcome, fetch2: Json -> FetchOutcome)
    requires forall i :: 0 <= i < |ids| ==> fetch1(ids[i]) == fetch2(ids[i])
    ensures FetchAll(ids, fetch1) == FetchAll(ids, fetch2)
    decreases |ids|
  {
    if ids != [] {
      assert forall i :: 0 <= i < |ids| - 1 ==> ids[1..][i] == ids[i + 1];
      FetchAllLocal(ids[1..], fetch1, fetch2);
    }
  }

  /** The quick search and everything after it, up to the except branch. */
  function SearchOutcome(q: string, search: SearchReply, fetch: Json -> FetchOutcome): (r: Result<CheckResult, string>)
    ensures search.SearchRaised? ==> r == Err(search.message)
    ensures search.SearchBody? && !search.body.JObj? ==> r == Err(NoGetMessage(search.body))
    ensures r.Ok? ==> r.value.labelText == TrademarkLabel
  {
    match search
    case SearchRaised(message) => Err(message)
    case SearchHttpError(code, text) => Ok(SearchErrorResult(code, text))
    case SearchBody(data) =>
      if !data.JObj? then Err(NoGetMessage(data))
      else
        match PyInt(GetDefault(data.fields, "count", JInt(0)))
        case None => Err(IntErrorMessage)
        case Some(count) =>
          var ids := ListItems(Get(data.fields, "trademarkIds"));
          if count == 0 || |ids| == 0 then Ok(AvailableResult())
          else
            var top := Take(ids, MaxDetails);
            match FetchAll(top, fetch)
            case Err(message) => Err(message)
            case Ok(details) =>
              match NormalizeAll(details)
              case Err(message) => Err(message)
              case Ok(parsed) => Classify(count, top, parsed, q)
  }

  /** A count of 0, or an id list that is empty or not a list, is available with no matches. */
  lemma NoResultsAvailable(q: string, data: map<string, Json>, fetch: Json -> FetchOutcome)
    requires PyInt(GetDefault(data, "count", JInt(0))).Some?
    requires PyInt(GetDefault(data, "count", JInt(0))).value == 0 || !Get(data, "trademarkIds").JList? || Get(data, "trademarkIds").items == []
    ensures var r := SearchOutcome(q, SearchBody(JObj(data)), fetch);
            r.Ok? && r.value.status == Available && r.value.exactMatches == [] && r.value.similarMatches == []
  {
  }

  /** Only the first five ids are fetched: fetch outcomes of the other ids change nothing. */
  lemma OnlyTopFiveFetched(q: string, data: map<string, Json>, fetch1: Json -> FetchOutcome, fetch2: Json -> FetchOutcome)
    requires var ids := ListItems(Get(data, "trademarkIds"));
             forall i :: 0 <= i < |ids| && i < MaxDetails ==> fetch1(ids[i]) == fetch2(ids[i])
    ensures SearchOutcome(q, SearchBody(JObj(data)), fetch1) == SearchOutcome(q, SearchBody(JObj(data)), fetch2)
  {
    var top := Take(ListItems(Get(data, "trademarkIds")), MaxDetails);
    FetchAllLocal(top, fetch1, fetch2);
  }

  /** Within the pipeline, unknown comes only from a non-success quick search. */
  lemma SearchUnknownOnlyOnHttpError(q: string, search: SearchReply, fetch: Json -> FetchOutcome)
    requires SearchOutcome(q, search, fetch).Ok?
    ensures SearchOutcome(q, search, fetch).value.status == Unknown <==> search.SearchHttpError?
  {
  }

  /** A failed token or pipeline becomes the except branch's unknown result. */
  function CheckOutcome(q: string, token: Result<Json, TokenError>, search: SearchReply, fetch: Json -> FetchOutcome): (r: CheckResult)
    ensures r.labelText == TrademarkLabel
  {
    match token
    case Err(e) => FailedResult(ErrorMessage(e))
    case Ok(_) =>
      match SearchOutcome(q, search, fetch)
      case Err(message) => FailedResult(message)
      case Ok(r) => r
  }

  /** After the base URL check: unknown exactly when the token fails, the search answers an error status, or the pipeline raises. */
  lemma CheckOutcomeUnknown(q: string, token: Result<Json, TokenError>, search: SearchReply, fetch: Json -> FetchOutcome)
    ensures CheckOutcome(q, token, search, fetch).status == Unknown <==>
              token.Err? || search.SearchHttpError? || SearchOutcome(q, search, fetch).Err?
  {
    if token.Ok? && SearchOutcome(q, search, fetch).Ok? {
      SearchUnknownOnlyOnHttpError(q, search, fetch);
    }
  }

  /** The check's result and the token cache afterwards. */
  datatype TrademarkStep = TrademarkStep(result: CheckResult, cache: Option<CachedToken>)

  /** check_ip_australia_trademark, with the corrected token client. */
  function TrademarkCheck(env: Env, name: string, cached: Option<CachedToken>, nowMs: int, tokenReply: TokenReply,
                          search: SearchReply, fetch: Json -> FetchOutcome): (s: TrademarkStep)
    ensures !Present(BaseUrl(env)) ==> s == TrademarkStep(MissingBaseUrlResult(), cached)
  {
    if !Present(BaseUrl(env)) then TrademarkStep(MissingBaseUrlResult(), cached)
    else
      var t := AccessTokenStep(TokenConfigOf(env), cached, nowMs, tokenReply);
      TrademarkStep(CheckOutcome(NormalizeQuery(name), t.result, search, fetch), t.cache)
  }

  /**
   * The result is unknown exactly when the base URL is missing, the token cannot be had, the
   * quick search answers with an error status, or the pipeline raises.
   */
  lemma UnknownCases(env: Env, name: string, cached: Option<CachedToken>, nowMs: int, tokenReply: TokenReply,
                     search: SearchReply, fetch: Json -> FetchOutcome)
    ensures TrademarkCheck(env, name, cached, nowMs, tokenReply, search, fetch).result.status == Unknown <==>
              !Present(BaseUrl(env))
              || AccessTokenStep(TokenConfigOf(env), cached, nowMs, tokenReply).result.Err?
              || search.SearchHttpError?
              || SearchOutcome(NormalizeQuery(name), search, fetch).Err?
  {
    if Present(BaseUrl(env)) {
      var t := AccessTokenStep(TokenConfigOf(env), cached, nowMs, tokenReply);
      CheckOutcomeUnknown(NormalizeQuery(name), t.result, search, fetch);
    }
  }

  /** check_ip_australia_trademark as written: the token client never caches and raises NameError on a miss. */
  function TrademarkCheckAsWritten(env: Env, name: string, cached: Option<CachedToken>, nowMs: int,
                                   search: SearchReply, fetch: Json -> FetchOutcome): (r: CheckResult)
    ensures !Present(BaseUrl(env)) ==> r == MissingBaseUrlResult()
    ensures r.labelText == TrademarkLabel
  {
    if !Present(BaseUrl(env)) then MissingBaseUrlResult()
    else
      var t := AccessTokenStepAsWritten(TokenConfigOf(env), cached, nowMs);
      CheckOutcome(NormalizeQuery(name), t.result, search, fetch)
  }

  /**
   * As written, with the cache as it starts, every check is unknown whatever the registry
   * answers: a missing setting, or the NameError of request_new_token.
   */
  lemma AsWrittenCheckAlwaysUnknown(env: Env, name: string, nowMs: int, search: SearchReply, fetch: Json -> FetchOutcome)
    ensures TrademarkCheckAsWritten(env, name, None, nowMs, search, fetch).status == Unknown
    ensures Present(BaseUrl(env)) && ConfigError(TokenConfigOf(env)).None? ==>
              TrademarkCheckAsWritten(env, name, None, nowMs, search, fetch) == FailedResult(ErrorMessage(UnboundName("token_url")))
  {
    if Present(BaseUrl(env)) {
      var t := AccessTokenStepAsWritten(TokenConfigOf(env), None, nowMs);
      assert t.result.Err?;
    }
  }

  /** The check with the module's token cache: cache.cached is read and, on a refresh, replaced. */
  method CheckIpAustraliaTrademark(cache: TokenCache, env: Env, name: string, nowMs: int, tokenReply: TokenReply,
                                   search: SearchReply, fetch: Json -> FetchOutcome) returns (r: CheckResult)
    modifies cache
    ensures r == TrademarkCheck(env, name, old(cache.cached), nowMs, tokenReply, search, fetch).result
    ensures cache.cached == TrademarkCheck(env, name, old(cache.cached), nowMs, tokenReply, search, fetch).cache
  {
    var q := NormalizeQuery(name);
    if !Present(BaseUrl(env)) {
      return MissingBaseUrlResult();
    }
    var token, _ := cache.GetAccessToken(TokenConfigOf(env), nowMs, tokenReply);
    if token.Err? {
      return FailedResult(ErrorMessage(token.error));
    }
    var outcome := RunSearch(q, search, fetch);
    r := if outcome.Ok? then outcome.value else FailedResult(outcome.error);
  }

  /** The quick search, the detail fetch and the normaliser loop. */
  method RunSearch(q: string, search: SearchReply, fetch: Json -> FetchOutcome) returns (r: Result<CheckResult, string>)
    ensures r == SearchOutcome(q, search, fetch)
  {
    if search.SearchRaised? {
      return Err(search.message);
    }
    if search.SearchHttpError? {
      return Ok(SearchErrorResult(search.statusCode, search.text));
    }
    var data := search.body;
    if !data.JObj? {
      return Err(NoGetMessage(data));
    }
    var count := PyInt(GetDefault(data.fields, "count", JInt(0)));
    if count.None? {
      return Err(IntErrorMessage);
    }
    var ids := ListItems(Get(data.fields, "trademarkIds"));
    if count.value == 0 || |ids| == 0 {
      return Ok(AvailableResult());
    }
    var top := Take(ids, MaxDetails);
    var details := FetchAll(top, fetch);
    if details.Err? {
      return Err(details.error);
    }
    var parsed := NormalizeDetails(details.value);
    if parsed.Err? {
      return Err(parsed.error);
    }
    r := Classify(count.value, top, parsed.value, q);
  }
}
