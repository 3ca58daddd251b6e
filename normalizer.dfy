/**
 * The detail-record normaliser of check_ip_australia_trademark: each fetched detail record
 * becomes a TrademarkMatch whose words, status and classes are probed from the field names the
 * registry has used, and a failed fetch becomes a placeholder with empty fields.
 */
module Normalizer {
  import opened Wrappers
  import opened Text
  import opened PyJson
  import opened NiceClasses
  import opened ClassNumbers
  import opened Records

  /** What fetching one detail record produced. */
  datatype FetchOutcome =
    | Fetched(data: Json)         // a success status with a JSON body
    | FetchFailed                 // a non-success status or a body that is not JSON
    | FetchRaised(message: string) // the request itself raised (connection error and the like)

  /** fetch_trademark_details' result for one id: {"id", "data"} or {"id", "error"}. */
  datatype DetailResult = DetailData(id: Json, data: Json) | DetailError(id: Json)

  /** The field names probed, in order, for the words of a mark. */
  const WordsFields: seq<string> := ["words", "tradeMarkWords", "markText", "text", "name", "tradeMarkName"]

  /** The field names probed, in order, for the status of a mark. */
  const StatusFields: seq<string> := ["statusGroup", "statusCode", "statusDetail", "status", "tradeMarkStatus", "state", "ipRightStatus"]

  /**
   * The class values the goodsAndServices loop adds to classes_set, in loop order and with
   * repeats; an item that is not a dict makes `gs.get` raise.
   */
  function GoodsClassValues(gs: seq<Json>): (r: Result<seq<string>, string>)
    ensures r.Ok? <==> forall i :: 0 <= i < |gs| ==> gs[i].JObj?
    ensures r.Ok? ==> forall x :: x in r.value <==> exists i :: 0 <= i < |gs| && Truthy(Get(gs[i].fields, "class")) && x == PyStr(Get(gs[i].fields, "class"))
    decreases |gs|
  {
    if gs == [] then Ok([])
    else
      var init := gs[..|gs| - 1];
      var last := gs[|gs| - 1];
      assert forall i :: 0 <= i < |gs| - 1 ==> gs[i] == init[i];
      match GoodsClassValues(init)
      case Err(e) => Err(e)
      case Ok(vs) =>
        if !last.JObj? then Err(NoGetMessage(last))
        else
          var cls := Get(last.fields, "class");
          Ok(if Truthy(cls) then vs + [PyStr(cls)] else vs)
  }

  /** The class labels, one per class: [label_nice_class(c) for c in classes]. */
  function Labels(classes: seq<string>): (r: seq<string>)
    ensures |r| == |classes|
    ensures forall i :: 0 <= i < |classes| ==> r[i] == LabelNiceClass(classes[i])
  {
    seq(|classes|, i requires 0 <= i < |classes| => LabelNiceClass(classes[i]))
  }

  /** The sorted distinct classes of a record: only a goodsAndServices list contributes. */
  function RecordClasses(tm: map<string, Json>): (r: Result<seq<string>, string>)
    ensures r.Ok? ==> Distinct(r.value) && SortedByKey(r.value)
  {
    var goods := Get(tm, "goodsAndServices");
    if !goods.JList? then Ok([])
    else
      match GoodsClassValues(goods.items)
      case Err(e) => Err(e)
      case Ok(vs) => Ok(OrderClasses(vs))
  }

  /** The placeholder for a detail fetch that failed: every field empty. */
  function ErrorPlaceholder(id: Json): (m: TrademarkMatch)
    ensures m.id == id && m.words == Some("") && m.status == Some("") && m.classes == [] && m.classLabels == []
  {
    TrademarkMatch(id, Some(""), Some(""), [], [])
  }

  /** One iteration of the normaliser loop; Err carries the message of the exception it raises. */
  function NormalizeDetail(d: DetailResult): (r: Result<TrademarkMatch, string>)
    ensures d.DetailError? ==> r == Ok(ErrorPlaceholder(d.id))
    ensures r.Ok? ==> r.value.id == d.id && r.value.words.Some? && r.value.status.Some?
    ensures r.Ok? ==> r.value.classLabels == Labels(r.value.classes)
    ensures r.Ok? ==> Distinct(r.value.classes) && SortedByKey(r.value.classes)
    ensures d.DetailData? ==> (r.Ok? <==> d.data.JObj? && RecordClasses(d.data.fields).Ok?)
  {
    match d
    case DetailError(id) => Ok(ErrorPlaceholder(id))
    case DetailData(id, tm) =>
      if !tm.JObj? then Err(NoGetMessage(tm))
      else
        var words := FirstTruthyField(tm.fields, WordsFields, JStr(""));
        var status := FirstTruthyField(tm.fields, StatusFields, JStr(""));
        match RecordClasses(tm.fields)
        case Err(e) => Err(e)
        case Ok(classes) => Ok(TrademarkMatch(id, Some(PyStr(words)), Some(PyStr(status)), classes, Labels(classes)))
  }

  /** The words of a parsed record are str() of the first truthy words field, or "" when none is. */
  lemma NormalizedWords(id: Json, tm: map<string, Json>, i: nat)
    requires NormalizeDetail(DetailData(id, JObj(tm))).Ok?
    requires i < |WordsFields| && Truthy(Get(tm, WordsFields[i]))
    requires forall j :: 0 <= j < i ==> !Truthy(Get(tm, WordsFields[j]))
    ensures NormalizeDetail(DetailData(id, JObj(tm))).value.words == Some(PyStr(Get(tm, WordsFields[i])))
  {
    FirstTruthyFieldPicks(tm, WordsFields, JStr(""), i);
  }

  /** The status of a parsed record is str() of the first truthy status field. */
  lemma NormalizedStatus(id: Json, tm: map<string, Json>, i: nat)
    requires NormalizeDetail(DetailData(id, JObj(tm))).Ok?
    requires i < |StatusFields| && Truthy(Get(tm, StatusFields[i]))
    requires forall j :: 0 <= j < i ==> !Truthy(Get(tm, StatusFields[j]))
    ensures NormalizeDetail(DetailData(id, JObj(tm))).value.status == Some(PyStr(Get(tm, StatusFields[i])))
  {
    FirstTruthyFieldPicks(tm, StatusFields, JStr(""), i);
  }

  /** With no truthy words field the words are "", with no truthy status field the status is "". */
  lemma NormalizedEmptyFields(id: Json, tm: map<string, Json>)
    requires NormalizeDetail(DetailData(id, JObj(tm))).Ok?
    ensures (forall j :: 0 <= j < |WordsFields| ==> !Truthy(Get(tm, WordsFields[j])))
            ==> NormalizeDetail(DetailData(id, JObj(tm))).value.words == Some("")
    ensures (forall j :: 0 <= j < |StatusFields| ==> !Truthy(Get(tm, StatusFields[j])))
            ==> NormalizeDetail(DetailData(id, JObj(tm))).value.status == Some("")
  {
  }

  /** A parsed record's classes are exactly the truthy goodsAndServices[*].class values, as str(). */
  lemma NormalizedClasses(id: Json, tm: map<string, Json>, x: string)
    requires Get(tm, "goodsAndServices").JList?
    requires NormalizeDetail(DetailData(id, JObj(tm))).Ok?
    ensures var gs := Get(tm, "goodsAndServices").items;
            x in NormalizeDetail(DetailData(id, JObj(tm))).value.classes
            <==> exists i :: 0 <= i < |gs| && Truthy(Get(gs[i].fields, "class")) && x == PyStr(Get(gs[i].fields, "class"))
  {
  }

  /** The results of f over xs in order; the first Err aborts the whole list with its error. */
  function AllOk<A, B>(xs: seq<A>, f: A -> Result<B, string>): (r: Result<seq<B>, string>)
    ensures r.Ok? ==> |r.value| == |xs|
    decreases |xs|
  {
    if xs == [] then Ok([])
    else
      match AllOk(xs[..|xs| - 1], f)
      case Err(e) => Err(e)
      case Ok(ys) =>
        match f(xs[|xs| - 1])
        case Err(e) => Err(e)
        case Ok(y) => Ok(ys + [y])
  }

  /** AllOk completes exactly when f succeeds everywhere, and then holds f's values in order. */
  lemma {:induction false} AllOkElements<A, B>(xs: seq<A>, f: A -> Result<B, string>)
    ensures AllOk(xs, f).Ok? <==> forall i :: 0 <= i < |xs| ==> f(xs[i]).Ok?
    ensures AllOk(xs, f).Ok? ==> forall i :: 0 <= i < |xs| ==> AllOk(xs, f).value[i] == f(xs[i]).value
    decreases |xs|
  {
    if xs != [] {
      var init := xs[..|xs| - 1];
      assert forall i :: 0 <= i < |xs| - 1 ==> xs[i] == init[i];
      AllOkElements(init, f);
    }
  }

  /** Once a prefix of xs fails, AllOk fails on the whole of xs with the same error. */
  lemma {:induction false} AllOkErrPrefix<A, B>(xs: seq<A>, f: A -> Result<B, string>, k: nat)
    requires k <= |xs| && AllOk(xs[..k], f).Err?
    ensures AllOk(xs, f) == AllOk(xs[..k], f)
    decreases |xs|
  {
    if k < |xs| {
      assert xs[..|xs| - 1][..k] == xs[..k];
      AllOkErrPrefix(xs[..|xs| - 1], f, k);
    } else {
      assert xs[..k] == xs;
    }
  }

  /** The parsed list of the normaliser loop; the first exception raised aborts it. */
  function NormalizeAll(ds: seq<DetailResult>): (r: Result<seq<TrademarkMatch>, string>)
    ensures r.Ok? ==> |r.value| == |ds|
  {
    AllOk(ds, NormalizeDetail)
  }

  /** The loop completes exactly when no record raises, and then holds each record's match in order. */
  lemma NormalizeAllElements(ds: seq<DetailResult>)
    ensures NormalizeAll(ds).Ok? <==> forall i :: 0 <= i < |ds| ==> NormalizeDetail(ds[i]).Ok?
    ensures NormalizeAll(ds).Ok? ==> forall i :: 0 <= i < |ds| ==> NormalizeAll(ds).value[i] == NormalizeDetail(ds[i]).value
  {
    AllOkElements(ds, NormalizeDetail);
  }

  /** Once a prefix raises, the whole loop raises the same exception. */
  lemma NormalizeAllErrPrefix(ds: seq<DetailResult>, k: nat)
    requires k <= |ds| && NormalizeAll(ds[..k]).Err?
    ensures NormalizeAll(ds) == NormalizeAll(ds[..k])
  {
    AllOkErrPrefix(ds, NormalizeDetail, k);
  }

  /** Once a prefix of the goodsAndServices list raises, the whole list raises the same exception. */
  lemma {:induction false} GoodsErrPrefix(gs: seq<Json>, k: nat)
    requires k <= |gs| && GoodsClassValues(gs[..k]).Err?
    ensures GoodsClassValues(gs) == GoodsClassValues(gs[..k])
    decreases |gs|
  {
    if k < |gs| {
      assert gs[..|gs| - 1][..k] == gs[..k];
      GoodsErrPrefix(gs[..|gs| - 1], k);
    } else {
      assert gs[..k] == gs;
    }
  }

  /** The goodsAndServices loop: classes_set collects each truthy class once. */
  method CollectGoodsClasses(gs: seq<Json>) returns (r: Result<seq<string>, string>)
    ensures r.Ok? <==> GoodsClassValues(gs).Ok?
    ensures r.Ok? ==> r.value == Dedup(GoodsClassValues(gs).value)
    ensures r.Err? ==> r == GoodsClassValues(gs)
  {
    var classesSet: seq<string> := [];
    ghost var seen: seq<string> := [];
    var i := 0;
    while i < |gs|
      invariant 0 <= i <= |gs|
      invariant GoodsClassValues(gs[..i]) == Ok(seen)
      invariant classesSet == Dedup(seen)
    {
      assert gs[..i + 1][..i] == gs[..i];
      var item := gs[i];
      if !item.JObj? {
        assert GoodsClassValues(gs[..i + 1]) == Err(NoGetMessage(item));
        GoodsErrPrefix(gs, i + 1);
        return Err(NoGetMessage(item));
      }
      var cls := Get(item.fields, "class");
      if Truthy(cls) {
        var c := PyStr(cls);
        if c !in classesSet {
          classesSet := classesSet + [c];
        }
        seen := seen + [c];
      }
      i := i + 1;
    }
    assert gs[..i] == gs;
    r := Ok(classesSet);
  }

  /** The body of the normaliser loop for one detail result. */
  method NormalizeRecord(d: DetailResult) returns (r: Result<TrademarkMatch, string>)
    ensures r == NormalizeDetail(d)
  {
    if d.DetailError? {
      return Ok(ErrorPlaceholder(d.id));
    }
    var tm := d.data;
    if !tm.JObj? {
      return Err(NoGetMessage(tm));
    }
    var words := FirstTruthyField(tm.fields, WordsFields, JStr(""));
    var status := FirstTruthyField(tm.fields, StatusFields, JStr(""));
    var classes: seq<string> := [];
    var goods := Get(tm.fields, "goodsAndServices");
    if goods.JList? {
      var collected := CollectGoodsClasses(goods.items);
      if collected.Err? {
        return Err(collected.error);
      }
      classes := SortByKey(collected.value);
    }
    r := Ok(TrademarkMatch(d.id, Some(PyStr(words)), Some(PyStr(status)), classes, Labels(classes)));
  }

  /** The normaliser loop of check_ip_australia_trademark, appending one match per detail result. */
  method NormalizeDetails(ds: seq<DetailResult>) returns (r: Result<seq<TrademarkMatch>, string>)
    ensures r == NormalizeAll(ds)
  {
    var parsed: seq<TrademarkMatch> := [];
    var i := 0;
    while i < |ds|
      invariant 0 <= i <= |ds|
      invariant NormalizeAll(ds[..i]) == Ok(parsed)
    {
      assert ds[..i + 1][..i] == ds[..i];
      var m := NormalizeRecord(ds[i]);
      if m.Err? {
        assert NormalizeAll(ds[..i + 1]) == Err(m.error);
        NormalizeAllErrPrefix(ds, i + 1);
        return Err(m.error);
      }
      parsed := parsed + [m.value];
      i := i + 1;
    }
    assert ds[..i] == ds;
    r := Ok(parsed);
  }
}
