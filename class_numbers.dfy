/**
 * Nice class numbers pulled out of a trademark record (extract_nice_classes), and the ordering
 * shared with the detail normaliser: de-duplicate, then sort by int(x) for digit strings and
 * 999 for anything else.
 */
module ClassNumbers {
  import opened Wrappers
  import opened Text
  import opened PyJson

  /** The sort key: the numeric value of an all-digit string, 999 otherwise. */
  function ClassKey(x: string): nat {
    if IsDigits(x) then DigitsValue(x) else 999
  }

  ghost predicate SortedByKey(s: seq<string>) {
    forall i, j :: 0 <= i < j < |s| ==> ClassKey(s[i]) <= ClassKey(s[j])
  }

  ghost predicate Distinct<T>(s: seq<T>) {
    forall i, j :: 0 <= i < j < |s| ==> s[i] != s[j]
  }

  lemma {:induction false} DistinctByCount<T>(s: seq<T>)
    requires forall x :: multiset(s)[x] <= 1
    ensures Distinct(s)
  {
    forall i, j | 0 <= i < j < |s| ensures s[i] != s[j] {
      assert s == s[..i] + [s[i]] + s[i + 1..j] + [s[j]] + s[j + 1..];
      assert multiset(s) == multiset(s[..i]) + multiset{s[i]} + multiset(s[i + 1..j]) + multiset{s[j]} + multiset(s[j + 1..]);
      assert multiset(s)[s[j]] >= multiset{s[i]}[s[j]] + multiset{s[j]}[s[j]];
    }
  }

  lemma {:induction false} CountOfDistinct<T>(s: seq<T>)
    requires Distinct(s)
    ensures forall x :: multiset(s)[x] <= 1
    decreases |s|
  {
    if s != [] {
      var p := s[..|s| - 1];
      assert s == p + [s[|s| - 1]];
      assert Distinct(p);
      CountOfDistinct(p);
      assert s[|s| - 1] !in p;
    }
  }

  /** set(xs), kept as a sequence holding each value once, at its first occurrence. */
  function Dedup(s: seq<string>): (r: seq<string>)
    ensures Distinct(r)
    ensures forall x :: x in r <==> x in s
    decreases |s|
  {
    if s == [] then []
    else
      var d := Dedup(s[..|s| - 1]);
      var last := s[|s| - 1];
      assert s == s[..|s| - 1] + [last];
      if last in d then d else d + [last]
  }

  lemma SortedCons(y: string, t: seq<string>)
    requires SortedByKey(t)
    requires forall z :: z in t ==> ClassKey(y) <= ClassKey(z)
    ensures SortedByKey([y] + t)
  {
    var s := [y] + t;
    forall i, j | 0 <= i < j < |s| ensures ClassKey(s[i]) <= ClassKey(s[j]) {
      assert s[j] == t[j - 1];
      if i > 0 { assert s[i] == t[i - 1]; }
    }
  }

  /** After inserting x into the tail, the head is still a lower bound when it is below x. */
  lemma InsertBound(x: string, s: seq<string>, t: seq<string>)
    requires s != [] && SortedByKey(s) && ClassKey(s[0]) < ClassKey(x)
    requires multiset(t) == multiset(s[1..]) + multiset{x}
    ensures forall z :: z in t ==> ClassKey(s[0]) <= ClassKey(z)
  {
    forall z | z in t ensures ClassKey(s[0]) <= ClassKey(z) {
      assert z in multiset(t);
      if z != x {
        assert z in multiset(s[1..]);
        var k :| 0 <= k < |s[1..]| && s[1..][k] == z;
        assert s[k + 1] == z;
      }
    }
  }

  /** Inserts x in front of the first element whose key is not smaller. */
  function InsertByKey(x: string, s: seq<string>): (r: seq<string>)
    requires SortedByKey(s)
    ensures SortedByKey(r)
    ensures multiset(r) == multiset(s) + multiset{x}
    decreases |s|
  {
    if s == [] then [x]
    else if ClassKey(x) <= ClassKey(s[0]) then [x] + s
    else
      var t := InsertByKey(x, s[1..]);
      assert multiset(s) == multiset{s[0]} + multiset(s[1..]) by {
        assert s == [s[0]] + s[1..];
      }
      InsertBound(x, s, t);
      SortedCons(s[0], t);
      [s[0]] + t
  }

  /** Insertion sort by ClassKey. */
  function SortByKey(s: seq<string>): (r: seq<string>)
    ensures SortedByKey(r)
    ensures multiset(r) == multiset(s)
    decreases |s|
  {
    if s == [] then []
    else
      assert s == [s[0]] + s[1..];
      InsertByKey(s[0], SortByKey(s[1..]))
  }

  /**
   * sorted(set(xs), key=ClassKey): every value of xs exactly once, in non-decreasing key order.
   * Python leaves the order of values sharing a key (such as "9" and "09", or any two texts at
   * key 999) to set iteration; here they keep their first-occurrence order.
   */
  function OrderClasses(xs: seq<string>): (r: seq<string>)
    ensures Distinct(r)
    ensures forall x :: x in r <==> x in xs
    ensures SortedByKey(r)
  {
    var d := Dedup(xs);
    var r := SortByKey(d);
    CountOfDistinct(d);
    DistinctByCount(r);
    assert forall x :: x in r <==> x in multiset(r);
    r
  }

  lemma ClassKeyExamples()
    ensures ClassKey("9") == 9 && ClassKey("35") == 35 && ClassKey("100") == 100
  {
    assert "100"[..2] == "10" && "10"[..1] == "1" && "35"[..1] == "3";
    assert DigitsValue("1") == 1 && DigitsValue("10") == 10;
    assert DigitsValue("3") == 3;
  }

  lemma DedupExample()
    ensures Dedup(["35", "9", "100"]) == ["35", "9", "100"]
  {
    var s1, s2, s3 := ["35"], ["35", "9"], ["35", "9", "100"];
    assert s1[..0] == [];
    assert Dedup(s1) == ["35"];
    assert s2[..1] == s1;
    assert "9" !in Dedup(s1);
    assert Dedup(s2) == ["35", "9"];
    assert s3[..2] == s2;
    assert "100" !in Dedup(s2);
  }

  /** Numeric, not lexical, order: "9" comes before "35", which comes before "100". */
  lemma OrderClassesExample()
    ensures OrderClasses(["35", "9", "100"]) == ["9", "35", "100"]
  {
    SortExample();
    DedupExample();
  }

  lemma InsertExamples()
    ensures InsertByKey("100", []) == ["100"]
    ensures InsertByKey("9", ["100"]) == ["9", "100"]
    ensures InsertByKey("35", ["100"]) == ["35", "100"]
  {
    ClassKeyExamples();
  }

  lemma SortTailExample()
    ensures SortByKey(["9", "100"]) == ["9", "100"]
  {
    InsertExamples();
    var s1, s2 := ["100"], ["9", "100"];
    assert s1[1..] == [] && s2[1..] == s1;
  }

  lemma InsertMiddleExample()
    ensures SortedByKey(["9", "100"])
    ensures InsertByKey("35", ["9", "100"]) == ["9", "35", "100"]
  {
    InsertExamples();
    ClassKeyExamples();
    assert ["9", "100"][1..] == ["100"];
  }

  lemma SortExample()
    ensures SortByKey(["35", "9", "100"]) == ["9", "35", "100"]
  {
    SortTailExample();
    InsertMiddleExample();
    assert ["35", "9", "100"][1..] == ["9", "100"];
  }

  /** The items of v when isinstance(v, list), otherwise nothing. */
  function ListItems(v: Json): seq<Json> {
    if v.JList? then v.items else []
  }

  /** The candidate values extract_nice_classes gathers, in the order it gathers them. */
  function Candidates(tm: map<string, Json>): seq<Json>
  {
    var goods := Get(tm, "goodsAndServices");
    ListItems(Get(tm, "classes"))
    + ListItems(Get(tm, "niceClasses"))
    + ListItems(Get(tm, "classifications"))
    + (if goods.JObj? then ListItems(Get(goods.fields, "classes")) + ListItems(Get(goods.fields, "niceClasses")) else [])
    + ListItems(goods)
    + ListItems(Get(tm, "classificationList"))
  }

  /**
   * The direct classes list is gathered first and classificationList last, a goodsAndServices
   * list contributes all of its items, and keys holding no list contribute nothing.
   */
  lemma CandidatesOrder(tm: map<string, Json>)
    ensures ListItems(Get(tm, "classes")) <= Candidates(tm)
    ensures var last := ListItems(Get(tm, "classificationList"));
            |last| <= |Candidates(tm)| && Candidates(tm)[|Candidates(tm)| - |last|..] == last
    ensures Get(tm, "goodsAndServices").JList? ==>
              multiset(Get(tm, "goodsAndServices").items) <= multiset(Candidates(tm))
    ensures (!Get(tm, "classes").JList? && !Get(tm, "niceClasses").JList? && !Get(tm, "classifications").JList?
             && !Get(tm, "classificationList").JList?
             && !Get(tm, "goodsAndServices").JList? && !Get(tm, "goodsAndServices").JObj?)
            ==> Candidates(tm) == []
  {
    var goods := Get(tm, "goodsAndServices");
    GatherOrder(ListItems(Get(tm, "classes")), ListItems(Get(tm, "niceClasses")), ListItems(Get(tm, "classifications")),
      if goods.JObj? then ListItems(Get(goods.fields, "classes")) + ListItems(Get(goods.fields, "niceClasses")) else [],
      ListItems(goods), ListItems(Get(tm, "classificationList")));
  }

  /** Six lists gathered one after another: the first leads, the last ends, the fifth is all inside. */
  lemma GatherOrder<T>(a: seq<T>, b: seq<T>, c: seq<T>, d: seq<T>, e: seq<T>, f: seq<T>)
    ensures a <= a + b + c + d + e + f
    ensures var r := a + b + c + d + e + f; |f| <= |r| && r[|r| - |f|..] == f
    ensures multiset(e) <= multiset(a + b + c + d + e + f)
  {
    var r := a + b + c + d + e + f;
    assert r == a + (b + c + d + e + f);
    assert r == (a + b + c + d) + e + f;
  }

  /** The stripped str() of a chosen value, kept when it is not empty; None yields nothing. */
  function NumberText(num: Json): (r: Option<string>)
    ensures r.Some? ==> r.value != "" && Strip(r.value) == r.value
  {
    if num.JNull? then None
    else
      var text := PyStr(num);
      var s := Strip(text);
      StripIdempotent(text);
      if s == "" then None
      else if num.JStr? then Some(s)
      else StripOfTrimmed(text); Some(s)
  }

  /**
   * What each kind of value yields: None nothing, a string its stripped text (nothing when that
   * is empty), an integer its decimal digits, a boolean True or False, a container its non-empty
   * str().
   */
  lemma NumberTextCases(num: Json)
    ensures num.JNull? ==> NumberText(num) == None
    ensures num.JStr? ==> NumberText(num) == if Strip(num.s) == "" then None else Some(Strip(num.s))
    ensures num.JInt? ==> NumberText(num) == Some(IntToDecimal(num.i))
    ensures num.JBool? ==> NumberText(num) == Some(if num.b then "True" else "False")
    ensures num.JList? || num.JObj? ==> NumberText(num).Some?
  {
    if !num.JNull? && !num.JStr? {
      StripOfTrimmed(PyStr(num));
    }
  }

  /** The fields probed, in order, for the number of a class object; classId is the last resort. */
  const NumberFields: seq<string> := ["number", "classNumber", "niceClass", "class"]

  /** The class number of one candidate: non-empty and stripped when there is one. */
  function CandidateNumber(c: Json): (r: Option<string>)
    ensures r.Some? ==> r.value != "" && Strip(r.value) == r.value
  {
    NumberText(if c.JObj? then FirstTruthyField(c.fields, NumberFields, Get(c.fields, "classId")) else c)
  }

  /**
   * A value that is not an object gives its own NumberText; an object whose number fields are all
   * falsy gives the NumberText of its classId field, truthy or not.
   */
  lemma CandidateNumberCases(c: Json)
    ensures !c.JObj? ==> CandidateNumber(c) == NumberText(c)
    ensures c.JObj? && (forall j :: 0 <= j < |NumberFields| ==> !Truthy(Get(c.fields, NumberFields[j]))) ==>
              CandidateNumber(c) == NumberText(Get(c.fields, "classId"))
  {
  }

  /** An object's first truthy number field decides its class number; later fields and classId are ignored. */
  lemma CandidateNumberPicks(c: Json, i: nat)
    requires c.JObj? && i < |NumberFields| && Truthy(Get(c.fields, NumberFields[i]))
    requires forall j :: 0 <= j < i ==> !Truthy(Get(c.fields, NumberFields[j]))
    ensures CandidateNumber(c) == NumberText(Get(c.fields, NumberFields[i]))
  {
    FirstTruthyFieldPicks(c.fields, NumberFields, Get(c.fields, "classId"), i);
  }

  /** The values f yields over cs, in order; the candidates yielding None are skipped. */
  function Yielded<T>(cs: seq<T>, f: T -> Option<string>): (ns: seq<string>)
    decreases |cs|
  {
    if cs == [] then []
    else
      match f(cs[|cs| - 1])
      case Some(n) => Yielded(cs[..|cs| - 1], f) + [n]
      case None => Yielded(cs[..|cs| - 1], f)
  }

  /** A value is yielded exactly when some element yields it. */
  lemma {:induction false} YieldedMembers<T>(cs: seq<T>, f: T -> Option<string>, x: string)
    ensures x in Yielded(cs, f) <==> exists i :: 0 <= i < |cs| && f(cs[i]) == Some(x)
    decreases |cs|
  {
    if cs != [] {
      var init := cs[..|cs| - 1];
      YieldedMembers(init, f, x);
      if x in Yielded(cs, f) && x in Yielded(init, f) {
        var i :| 0 <= i < |init| && f(init[i]) == Some(x);
        assert cs[i] == init[i];
      }
      if exists i :: 0 <= i < |cs| && f(cs[i]) == Some(x) {
        var i :| 0 <= i < |cs| && f(cs[i]) == Some(x);
        if i < |init| {
          assert init[i] == cs[i];
        }
      }
    }
  }

  /** Yielded keeps order: the values of a concatenation are those of its parts, concatenated. */
  lemma {:induction false} YieldedAppend<T>(a: seq<T>, b: seq<T>, f: T -> Option<string>)
    ensures Yielded(a + b, f) == Yielded(a, f) + Yielded(b, f)
    decreases |b|
  {
    if b == [] {
      assert a + b == a;
    } else {
      var ab := a + b;
      assert ab[..|ab| - 1] == a + b[..|b| - 1];
      assert ab[|ab| - 1] == b[|b| - 1];
      YieldedAppend(a, b[..|b| - 1], f);
    }
  }

  /** The numbers list the loop of extract_nice_classes builds: each candidate's number, in order. */
  function CandidateNumbers(cs: seq<Json>): (ns: seq<string>)
    ensures forall x :: x in ns <==> exists i :: 0 <= i < |cs| && CandidateNumber(cs[i]) == Some(x)
    ensures forall x :: x in ns ==> x != "" && Strip(x) == x
  {
    var ns := Yielded(cs, CandidateNumber);
    forall x ensures x in ns <==> exists i :: 0 <= i < |cs| && CandidateNumber(cs[i]) == Some(x) {
      YieldedMembers(cs, CandidateNumber, x);
    }
    ns
  }

  /**
   * extract_nice_classes: a duplicate-free list of non-empty stripped class numbers, exactly the
   * numbers found among the candidates, in non-decreasing key order.
   */
  method ExtractNiceClasses(tm: map<string, Json>) returns (r: seq<string>)
    ensures Distinct(r)
    ensures SortedByKey(r)
    ensures forall x :: x in r ==> x != "" && Strip(x) == x
    ensures forall x :: x in r <==> x in CandidateNumbers(Candidates(tm))
  {
    var numbers := CollectNumbers(Candidates(tm));
    r := OrderClasses(numbers);
  }

  /** The "convert to class numbers" loop of extract_nice_classes. */
  method CollectNumbers(candidates: seq<Json>) returns (numbers: seq<string>)
    ensures numbers == CandidateNumbers(candidates)
  {
    numbers := [];
    var i := 0;
    while i < |candidates|
      invariant 0 <= i <= |candidates|
      invariant numbers == Yielded(candidates[..i], CandidateNumber)
    {
      var num := CandidateNumber(candidates[i]);
      assert candidates[..i + 1][..i] == candidates[..i];
      assert candidates[..i + 1][i] == candidates[i];
      if num.Some? {
        numbers := numbers + [num.value];
      }
      i := i + 1;
    }
    assert candidates[..i] == candidates;
  }
}
