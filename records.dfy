/** The result records of the brand checker: TrademarkMatch, CheckResult and AggregatedResults. */
module Records {
  import opened Wrappers
  import opened PyJson

  /** AvailabilityStatus. */
  datatype Availability = Available | Taken | Unknown | Similar

  /**
   * One registry record as shown to the user. The id is whatever value the registry listed;
   * words and status are None only in the bare placeholders built from an id alone.
   */
  datatype TrademarkMatch = TrademarkMatch(
    id: Json,
    words: Option<string>,
    status: Option<string>,
    classes: seq<string>,
    classLabels: seq<string>)

  /** TrademarkMatch(id=id): a placeholder carrying nothing but the id. */
  function BareMatch(id: Json): (m: TrademarkMatch)
    ensures m.id == id && m.words.None? && m.status.None? && m.classes == [] && m.classLabels == []
  {
    TrademarkMatch(id, None, None, [], [])
  }

  /** The outcome of one check; absent optional texts are None, absent match lists empty. */
  datatype CheckResult = CheckResult(
    labelText: string,   // the `label` field (label is a Dafny keyword)
    status: Availability,
    summary: Option<string>,
    whyThisMatters: Option<string>,
    details: Option<string>,
    exactMatches: seq<TrademarkMatch>,
    similarMatches: seq<TrademarkMatch>)

  /** The four groups of results reported for one name. */
  datatype AggregatedResults = AggregatedResults(
    businessName: CheckResult,
    trademark: CheckResult,
    domains: seq<CheckResult>,
    socials: seq<CheckResult>)
}
