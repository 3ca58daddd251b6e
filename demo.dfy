/**
 * get_demo_results: the placeholder business-name, domain and social-handle results, decided by
 * fixed substring rules on the name, around a trademark result computed elsewhere.
 */
module Demo {
  import opened Wrappers
  import opened Text
  import opened Records

  /** The name lowercased and stripped. */
  function NormalizedName(name: string): string {
    Strip(Lower(name))
  }

  /** The normalised name with every ' ' removed, used in the domain and handle labels. */
  function CompactName(name: string): (r: string)
    ensures ' ' !in r
  {
    RemoveSpaces(NormalizedName(name))
  }

  /** The compact name keeps every other character of the normalised name, as often as it occurs there. */
  lemma CompactNameKeeps(name: string)
    ensures forall c :: c != ' ' ==> multiset(CompactName(name))[c] == multiset(NormalizedName(name))[c]
  {
    RemoveSpacesCounts(NormalizedName(name));
  }

  /** The demo rule for "taken": the name mentions koala or australia. */
  predicate IsProbablyTaken(name: string) {
    var n := NormalizedName(name);
    Contains(n, "koala") || Contains(n, "australia")
  }

  /** The demo rule for "similar": the name mentions brew or coffee. */
  predicate HasSimilar(name: string) {
    var n := NormalizedName(name);
    Contains(n, "brew") || Contains(n, "coffee")
  }

  // The fixed details texts of the demo results.
  const AppearsFree: string := "Appears free (demo)."
  const BusinessTakenDetails: string := "A similar or identical business name appears to exist (demo)."
  const BusinessFreeDetails: string := "No exact match found (demo)."
  const DomainTakenDetails: string := "Likely registered already (demo)."
  const DomainSimilarDetails: string := "Similar domains may exist (demo)."
  const HandleTakenDetails: string := "Handle looks popular (demo)."

  /** A demo result: a label, a status and a details text, nothing else. */
  function DemoResult(text: string, status: Availability, details: string): (r: CheckResult)
    ensures r.labelText == text && r.status == status && r.details == Some(details)
    ensures r.summary.None? && r.whyThisMatters.None? && r.exactMatches == [] && r.similarMatches == []
  {
    CheckResult(text, status, None, None, Some(details), [], [])
  }

  /**
   * The aggregated results for a compact name and the outcomes of the two demo rules: the
   * business name, the .com domain and the Instagram handle are taken exactly when taken holds;
   * the .com.au domain is similar exactly when similar holds; the TikTok handle is always
   * available; the trademark result is passed through unchanged.
   */
  function DemoResultsFor(compact: string, taken: bool, similar: bool, trademark: CheckResult): (r: AggregatedResults)
    ensures r.trademark == trademark
    ensures |r.domains| == 2 && |r.socials| == 2
    ensures r.businessName.status == (if taken then Taken else Available)
    ensures r.domains[0].status == r.businessName.status && r.socials[0].status == r.businessName.status
    ensures r.domains[1].status == (if similar then Similar else Available)
    ensures r.socials[1].status == Available
    ensures r.businessName.labelText == "ASIC business name (AU)"
    ensures r.domains[0].labelText == compact + ".com"
    ensures r.domains[1].labelText == compact + ".com.au"
    ensures r.socials[0].labelText == "@" + compact + " (Instagram)"
    ensures r.socials[1].labelText == "@" + compact + " (TikTok)"
    ensures r.businessName.details == Some(if taken then BusinessTakenDetails else BusinessFreeDetails)
    ensures r.domains[0].details == Some(if taken then DomainTakenDetails else AppearsFree)
    ensures r.domains[1].details == Some(if similar then DomainSimilarDetails else AppearsFree)
    ensures r.socials[0].details == Some(if taken then HandleTakenDetails else AppearsFree)
    ensures r.socials[1].details == Some(AppearsFree)
  {
    AggregatedResults(
      DemoResult("ASIC business name (AU)", if taken then Taken else Available,
        if taken then BusinessTakenDetails else BusinessFreeDetails),
      trademark,
      [ DemoResult(compact + ".com", if taken then Taken else Available,
          if taken then DomainTakenDetails else AppearsFree),
        DemoResult(compact + ".com.au", if similar then Similar else Available,
          if similar then DomainSimilarDetails else AppearsFree) ],
      [ DemoResult("@" + compact + " (Instagram)", if taken then Taken else Available,
          if taken then HandleTakenDetails else AppearsFree),
        DemoResult("@" + compact + " (TikTok)", Available, AppearsFree) ])
  }

  /**
   * get_demo_results for a name: the business name, the .com domain and the Instagram handle are
   * taken exactly when the lowercased, stripped name contains "koala" or "australia"; the .com.au
   * domain is similar exactly when it contains "brew" or "coffee"; the labels use the compact name.
   */
  function DemoResults(name: string, trademark: CheckResult): (r: AggregatedResults)
    ensures |r.domains| == 2 && |r.socials| == 2
    ensures var n := Strip(Lower(name));
            r.businessName.status == Taken <==> Contains(n, "koala") || Contains(n, "australia")
    ensures r.businessName.status in {Taken, Available}
    ensures r.domains[0].status == r.businessName.status && r.socials[0].status == r.businessName.status
    ensures var n := Strip(Lower(name));
            r.domains[1].status == Similar <==> Contains(n, "brew") || Contains(n, "coffee")
    ensures r.domains[1].status in {Similar, Available}
    ensures r.socials[1].status == Available
    ensures r.domains[0].labelText == CompactName(name) + ".com"
    ensures r.domains[1].labelText == CompactName(name) + ".com.au"
    ensures r.socials[0].labelText == "@" + CompactName(name) + " (Instagram)"
    ensures r.socials[1].labelText == "@" + CompactName(name) + " (TikTok)"
    ensures r.trademark == trademark
  {
    DemoResultsFor(CompactName(name), IsProbablyTaken(name), HasSimilar(name), trademark)
  }

  /** Case and surrounding whitespace do not change the demo results. */
  lemma DemoIgnoresCaseAndPadding(name1: string, name2: string, trademark: CheckResult)
    requires NormalizedName(name1) == NormalizedName(name2)
    ensures DemoResults(name1, trademark) == DemoResults(name2, trademark)
  {
  }

  /** Lower-casing changes only the capital letters: "Koala Brew" becomes "koala brew". */
  lemma KoalaBrewLower(s: string)
    requires s == "Koala Brew"
    ensures Lower(s) == "koala brew"
  {
    var l := Lower(s);
    assert l[0] == 'k' && l[6] == 'b';
    forall k | 0 <= k < |s| && k != 0 && k != 6 ensures l[k] == s[k] {
      assert !('A' <= s[k] <= 'Z');
    }
  }

  lemma KoalaBrewNormalized(name: string)
    requires name == "Koala Brew"
    ensures NormalizedName(name) == "koala brew"
  {
    KoalaBrewLower(name);
    StripOfTrimmed(Lower(name));
  }

  lemma KoalaBrewMentions()
    ensures Contains("koala brew", "koala") && Contains("koala brew", "brew")
  {
    var n := "koala brew";
    assert OccursAt(n, "koala", 0) by {
      assert n[0..5] == "koala";
    }
    assert OccursAt(n, "brew", 6) by {
      assert n[6..10] == "brew";
    }
  }

  /**
   * A name that normalises to "koala brew", such as "Koala Brew", is taken for the business name
   * and similar for the .com.au domain.
   */
  lemma KoalaBrewExample(name: string, trademark: CheckResult)
    requires NormalizedName(name) == "koala brew"
    ensures DemoResults(name, trademark).businessName.status == Taken
    ensures DemoResults(name, trademark).domains[1].status == Similar
  {
    KoalaBrewMentions();
  }
}
