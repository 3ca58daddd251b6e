/**
 * Decoded JSON values as the Python code sees them (dicts, lists, str, int, bool, None),
 * with the parts of Python's data model the core relies on: truthiness, dict.get,
 * `a or b or ...` chains, str() and int().
 */
module PyJson {
  import opened Wrappers
  import opened Text

  datatype Json =
    | JNull
    | JBool(b: bool)
    | JInt(i: int)
    | JStr(s: string)
    | JList(items: seq<Json>)
    | JObj(fields: map<string, Json>)

  /** Python truthiness: None, False, 0, "", [] and {} are false. */
  predicate Truthy(v: Json) {
    match v
    case JNull => false
    case JBool(b) => b
    case JInt(i) => i != 0
    case JStr(s) => s != ""
    case JList(items) => items != []
    case JObj(fields) => fields != map[]
  }

  /** dict.get(key): None when the key is absent. */
  function Get(m: map<string, Json>, key: string): (v: Json)
    ensures key !in m ==> v == JNull
    ensures key in m ==> v == m[key]
  {
    if key in m then m[key] else JNull
  }

  /** dict.get(key, default): the default only when the key is absent. */
  function GetDefault(m: map<string, Json>, key: string, default: Json): (v: Json)
    ensures key !in m ==> v == default
    ensures key in m ==> v == m[key]
  {
    if key in m then m[key] else default
  }

  /** A truthy get means the key is present; get with default None is plain get. */
  lemma GetProperties(m: map<string, Json>, key: string, default: Json)
    ensures Truthy(Get(m, key)) ==> key in m
    ensures GetDefault(m, key, JNull) == Get(m, key)
    ensures key in m ==> GetDefault(m, key, default) == Get(m, key)
    ensures key !in m ==> GetDefault(m, key, default) == default && Get(m, key) == JNull
  {
  }

  /**
   * `m.get(k0) or m.get(k1) or ... or last`: the first truthy field among `keys`,
   * else `last` (Python's `or` yields its last operand when every one is falsy).
   */
  function FirstTruthyField(m: map<string, Json>, keys: seq<string>, last: Json): (v: Json)
    ensures Truthy(v) || v == last
    ensures forall j :: 0 <= j < |keys| && Truthy(Get(m, keys[j])) ==> Truthy(v)
    ensures v != last ==> exists i :: 0 <= i < |keys| && v == Get(m, keys[i]) && Truthy(v)
                                      && forall j :: 0 <= j < i ==> !Truthy(Get(m, keys[j]))
    ensures (forall j :: 0 <= j < |keys| ==> !Truthy(Get(m, keys[j]))) ==> v == last
  {
    if keys == [] then last
    else if Truthy(Get(m, keys[0])) then Get(m, keys[0])
    else
      var v := FirstTruthyField(m, keys[1..], last);
      assert forall j :: 1 <= j < |keys| ==> keys[j] == keys[1..][j - 1];
      v
  }

  /** The first truthy field wins: everything before it is falsy and its value is returned. */
  lemma {:induction false} FirstTruthyFieldPicks(m: map<string, Json>, keys: seq<string>, last: Json, i: nat)
    requires i < |keys| && Truthy(Get(m, keys[i]))
    requires forall j :: 0 <= j < i ==> !Truthy(Get(m, keys[j]))
    ensures FirstTruthyField(m, keys, last) == Get(m, keys[i])
    decreases i
  {
    if i > 0 {
      assert forall j :: 0 <= j < i - 1 ==> keys[1..][j] == keys[j + 1];
      FirstTruthyFieldPicks(m, keys[1..], last, i - 1);
    }
  }

  /**
   * str(v). Containers with elements are rendered as a fixed non-empty placeholder
   * rather than Python's full repr.
   */
  function PyStr(v: Json): (r: string)
    ensures v.JStr? ==> r == v.s
    ensures !v.JStr? ==> r != "" && Trimmed(r)
  {
    match v
    case JNull => "None"
    case JBool(b) => if b then "True" else "False"
    case JInt(i) => IntToDecimal(i)
    case JStr(s) => s
    case JList(items) => if items == [] then "[]" else "[...]"
    case JObj(fields) => if fields == map[] then "{}" else "{...}"
  }

  /** A decimal integer literal: digits, optionally after one sign character. */
  predicate IsIntLiteral(t: string) {
    IsDigits(t) || (|t| > 1 && (t[0] == '+' || t[0] == '-') && IsDigits(t[1..]))
  }

  /** int() of text without outer whitespace: its digits' value, negated after a minus sign. */
  function ParseLiteral(t: string): (r: Option<int>)
    ensures r.Some? <==> IsIntLiteral(t)
    ensures IsDigits(t) ==> r == Some(DigitsValue(t))
    ensures |t| > 1 && t[0] == '+' && IsDigits(t[1..]) ==> r == Some(DigitsValue(t[1..]))
    ensures |t| > 1 && t[0] == '-' && IsDigits(t[1..]) ==> r == Some(0 - DigitsValue(t[1..]) as int)
  {
    if IsDigits(t) then Some(DigitsValue(t))
    else if |t| > 1 && (t[0] == '+' || t[0] == '-') && IsDigits(t[1..]) then
      var v := DigitsValue(t[1..]);
      Some(if t[0] == '-' then 0 - v as int else v)
    else None
  }

  /**
   * int(text): defined exactly when the stripped text is a decimal literal, with the value of its
   * digits, negated after a minus sign.
   */
  function ParseInt(text: string): (r: Option<int>)
    ensures r.Some? <==> IsIntLiteral(Strip(text))
    ensures IsDigits(Strip(text)) ==> r == Some(DigitsValue(Strip(text)))
    ensures var t := Strip(text);
            |t| > 1 && t[0] == '+' && IsDigits(t[1..]) ==> r == Some(DigitsValue(t[1..]))
    ensures var t := Strip(text);
            |t| > 1 && t[0] == '-' && IsDigits(t[1..]) ==> r == Some(0 - DigitsValue(t[1..]) as int)
  {
    ParseLiteral(Strip(text))
  }

  /** int(v); None stands for the ValueError or TypeError Python raises. */
  function PyInt(v: Json): (r: Option<int>)
    ensures v.JInt? ==> r == Some(v.i)
    ensures v.JBool? ==> r == Some(if v.b then 1 else 0)
    ensures v.JStr? ==> r == ParseInt(v.s)
    ensures v.JNull? || v.JList? || v.JObj? ==> r == None
  {
    match v
    case JInt(i) => Some(i)
    case JBool(b) => Some(if b then 1 else 0)
    case JStr(s) => ParseInt(s)
    case _ => None
  }

  /** int() of a digit string, with or without a minus sign in front, reads its digits. */
  lemma {:induction false} ParseDigits(d: string)
    requires IsDigits(d)
    ensures ParseInt(d) == Some(DigitsValue(d) as int)
    ensures ParseInt("-" + d) == Some(0 - DigitsValue(d) as int)
  {
    assert Trimmed(d);
    StripOfTrimmed(d);
    var m := "-" + d;
    assert m[0] == '-' && m[1..] == d && m[|m| - 1] == d[|d| - 1];
    StripOfTrimmed(m);
  }

  /** int(str(i)) == i for every integer. */
  lemma {:induction false} IntRoundTrip(i: int)
    ensures ParseInt(IntToDecimal(i)) == Some(i)
  {
    var d := NatToDecimal(if i < 0 then -i else i);
    DecimalRoundTrip(if i < 0 then -i else i);
    ParseDigits(d);
  }

  /** Python's type name of a decoded JSON value. */
  function PyTypeName(v: Json): string {
    match v
    case JNull => "NoneType"
    case JBool(_) => "bool"
    case JInt(_) => "int"
    case JStr(_) => "str"
    case JList(_) => "list"
    case JObj(_) => "dict"
  }

  /** The AttributeError message of calling .get on a value that is not a dict. */
  function NoGetMessage(v: Json): string {
    "'" + PyTypeName(v) + "' object has no attribute 'get'"
  }

  /** str() of the ValueError int() raises on text that is not a decimal integer. */
  const IntErrorMessage: string := "invalid literal for int() with base 10"
}
