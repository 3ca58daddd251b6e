/**
 * The Nice classification labels used to annotate trademark classes: NICE_CLASS_MAP maps the
 * decimal strings "1" to "45" to a short description of the goods or services of each class.
 */
module NiceClasses {
  import opened Text

  /** The description of class n (1 <= n <= 45), as the table lists it. */
  function ClassDescription(n: nat): string {
    match n
    case 1 => "Chemicals"
    case 2 => "Paints, varnishes & coatings"
    case 3 => "Cosmetics & cleaning preparations"
    case 4 => "Industrial oils, greases & fuels"
    case 5 => "Pharmaceuticals & medical preparations"
    case 6 => "Common metals & metal goods"
    case 7 => "Machines & machine tools"
    case 8 => "Hand tools"
    case 9 => "Scientific & electronic apparatus, software"
    case 10 => "Medical apparatus"
    case 11 => "Lighting, heating & cooling"
    case 12 => "Vehicles"
    case 13 => "Firearms"
    case 14 => "Jewellery, clocks & watches"
    case 15 => "Musical instruments"
    case 16 => "Paper goods & printed matter"
    case 17 => "Rubber, plastics & insulation materials"
    case 18 => "Leather goods & bags"
    case 19 => "Building materials"
    case 20 => "Furniture"
    case 21 => "Household utensils & glassware"
    case 22 => "Ropes, nets & sacks"
    case 23 => "Yarns & threads"
    case 24 => "Textiles & textile goods"
    case 25 => "Clothing, footwear & headgear"
    case 26 => "Lace, buttons & haberdashery"
    case 27 => "Floor coverings"
    case 28 => "Games, toys & sporting goods"
    case 29 => "Meat, fish & processed foods"
    case 30 => "Coffee, tea, flour & bakery goods"
    case 31 => "Agriculture & fresh foods"
    case 32 => "Beers & non-alcoholic beverages"
    case 33 => "Alcoholic beverages"
    case 34 => "Tobacco & smokers' articles"
    case 35 => "Advertising, business & retail services"
    case 36 => "Financial, insurance & real estate services"
    case 37 => "Construction & repair services"
    case 38 => "Telecommunications"
    case 39 => "Transport, packaging & travel services"
    case 40 => "Material treatment"
    case 41 => "Education, entertainment & sporting services"
    case 42 => "Scientific & technology services; software"
    case 43 => "Food, drink & accommodation services"
    case 44 => "Medical, beauty & agriculture services"
    case 45 => "Legal & security services"
    case _ => ""
  }

  /** Distinct numbers have distinct decimal spellings. */
  lemma DecimalInjectiveAll()
    ensures forall a: nat, b: nat :: NatToDecimal(a) == NatToDecimal(b) ==> a == b
  {
    forall a: nat, b: nat
      ensures NatToDecimal(a) == NatToDecimal(b) ==> a == b
    {
      DecimalInjective(a, b);
    }
  }

  /** The table as a map: the spelling of each class number 1..45 to its description. */
  function BuildNiceClassMap(): map<string, string> {
    DecimalInjectiveAll();
    map n | 1 <= n <= 45 :: NatToDecimal(n) := ClassDescription(n)
  }

  /** NICE_CLASS_MAP. */
  const NiceClassMap: map<string, string> := BuildNiceClassMap()

  /**
   * label_nice_class: the stripped key followed by its description in parentheses, or the
   * stripped key alone when the map has no entry for it.
   */
  function LabelNiceClass(n: string): (r: string)
    ensures Strip(n) <= r
    ensures Strip(n) in NiceClassMap ==> r == Strip(n) + " (" + NiceClassMap[Strip(n)] + ")"
    ensures Strip(n) !in NiceClassMap ==> r == Strip(n)
  {
    var key := Strip(n);
    if key in NiceClassMap then key + " (" + NiceClassMap[key] + ")" else key
  }

  /** Surrounding whitespace never changes the label: the key is stripped before the lookup. */
  lemma LabelIgnoresPadding(n: string)
    ensures LabelNiceClass(n) == LabelNiceClass(Strip(n))
  {
    StripIdempotent(n);
  }

  /** A canonical decimal string (no leading zero) is the spelling of its own value. */
  lemma {:induction false} CanonicalDecimal(k: string)
    requires IsDigits(k) && (|k| > 1 ==> k[0] != '0')
    ensures NatToDecimal(DigitsValue(k)) == k
    decreases |k|
  {
    var p := k[..|k| - 1];
    var d := DigitOf(k[|k| - 1]);
    if |k| > 1 {
      CanonicalDecimal(p);
      var v := DigitsValue(p);
      assert DigitsValue(k) == v * 10 + d;
      assert p[0] == k[0];
      assert v != 0;
      assert DigitsValue(k) / 10 == v && DigitsValue(k) % 10 == d;
      assert NatToDecimal(DigitsValue(k)) == p + [DigitChar(d)];
      assert p + [DigitChar(d)] == k;
    } else {
      assert DigitsValue(k) == d;
      assert [DigitChar(d)] == k;
    }
  }

  /** The decimal spellings of 1..k. */
  function Spellings(k: nat): set<string> {
    set n | 1 <= n <= k :: NatToDecimal(n)
  }

  /** The keys of NICE_CLASS_MAP are the spellings of 1..45. */
  lemma NiceClassMapDomain()
    ensures NiceClassMap.Keys == Spellings(45)
  {
    forall x ensures x in NiceClassMap.Keys <==> x in Spellings(45) {
      if x in Spellings(45) {
        var j :| 1 <= j <= 45 && x == NatToDecimal(j);
        assert x in NiceClassMap;
      }
    }
  }

  /** The spellings of 1..k form a set of k strings. */
  lemma {:induction false} SpellingsCount(k: nat)
    ensures |Spellings(k)| == k
  {
    if k > 0 {
      SpellingsCount(k - 1);
      assert NatToDecimal(k) !in Spellings(k - 1) by {
        if NatToDecimal(k) in Spellings(k - 1) {
          var j :| 1 <= j <= k - 1 && NatToDecimal(j) == NatToDecimal(k);
          DecimalInjective(j, k);
        }
      }
      SpellingsStep(k);
    }
  }

  lemma SpellingsStep(k: nat)
    requires k > 0
    ensures Spellings(k) == Spellings(k - 1) + {NatToDecimal(k)}
  {
    forall x ensures x in Spellings(k) <==> x in Spellings(k - 1) + {NatToDecimal(k)} {
      if x in Spellings(k) {
        var j :| 1 <= j <= k && x == NatToDecimal(j);
        if j < k { assert x in Spellings(k - 1); }
      }
    }
  }

  /** Every key of NICE_CLASS_MAP is a decimal numeral without leading zero, between 1 and 45. */
  lemma NiceClassKeysCanonical(k: string)
    requires k in NiceClassMap
    ensures IsDigits(k) && (|k| > 1 ==> k[0] != '0') && 1 <= DigitsValue(k) <= 45
  {
    NiceClassMapDomain();
    assert k in Spellings(45);
    var j :| 1 <= j <= 45 && k == NatToDecimal(j);
    DecimalRoundTrip(j);
  }

  /** Every decimal numeral without leading zero between 1 and 45 is a key of NICE_CLASS_MAP. */
  lemma CanonicalKeysPresent(k: string)
    requires IsDigits(k) && (|k| > 1 ==> k[0] != '0') && 1 <= DigitsValue(k) <= 45
    ensures k in NiceClassMap
  {
    CanonicalDecimal(k);
    assert k == NatToDecimal(DigitsValue(k));
  }

  /**
   * NICE_CLASS_MAP has exactly 45 entries, and a string is one of its keys exactly when it is a
   * decimal numeral without leading zero whose value lies between 1 and 45.
   */
  lemma NiceClassMapKeys()
    ensures |NiceClassMap| == 45
    ensures forall n :: 1 <= n <= 45 ==> NatToDecimal(n) in NiceClassMap
    ensures forall k :: k in NiceClassMap <==> IsDigits(k) && (|k| > 1 ==> k[0] != '0') && 1 <= DigitsValue(k) <= 45
  {
    NiceClassMapDomain();
    SpellingsCount(45);
    assert |NiceClassMap| == |NiceClassMap.Keys|;
    forall k ensures k in NiceClassMap <==> IsDigits(k) && (|k| > 1 ==> k[0] != '0') && 1 <= DigitsValue(k) <= 45 {
      if k in NiceClassMap {
        NiceClassKeysCanonical(k);
      } else if IsDigits(k) && (|k| > 1 ==> k[0] != '0') && 1 <= DigitsValue(k) <= 45 {
        CanonicalKeysPresent(k);
      }
    }
  }

  /** "99" is out of range, "09" has a leading zero and "" is not a numeral. */
  lemma UnknownKeys()
    ensures "99" !in NiceClassMap && "09" !in NiceClassMap && "" !in NiceClassMap
  {
    assert DigitsValue("99") == 99 by {
      assert "99"[..1] == "9";
    }
    if "99" in NiceClassMap {
      NiceClassKeysCanonical("99");
    }
    if "09" in NiceClassMap {
      NiceClassKeysCanonical("09");
    }
    if "" in NiceClassMap {
      NiceClassKeysCanonical("");
    }
  }

  /** Keys outside the table, such as "99", "09" or "", come back stripped but unlabelled. */
  lemma LabelUnknownExamples()
    ensures LabelNiceClass("99") == "99"
    ensures LabelNiceClass("09") == "09"
    ensures LabelNiceClass("") == ""
  {
    UnknownKeys();
    StripOfTrimmed("99");
    StripOfTrimmed("09");
  }

  /** The description of class 9. */
  lemma ClassNineEntry()
    ensures "9" in NiceClassMap && NiceClassMap["9"] == "Scientific & electronic apparatus, software"
  {
    assert NatToDecimal(9) == "9";
  }

  lemma StripPaddedNine()
    ensures Strip(" 9 ") == "9"
  {
    assert LStrip(" 9 ") == "9 ";
    assert RStrip("9 ") == "9";
  }

  /** A key that strips to "9", such as " 9 ", is labelled with the description of class 9. */
  lemma LabelKnownExample(n: string)
    requires Strip(n) == "9"
    ensures "9" in NiceClassMap && LabelNiceClass(n) == "9 (" + NiceClassMap["9"] + ")"
  {
    ClassNineEntry();
  }
}
