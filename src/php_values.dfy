/** The values a decoded JSON request body holds, and the few PHP operations
    the endpoint scripts apply to them: `empty()`, `??`, `array_diff` against
    `array_keys`, string conversion by `.`, and SQL `=` on bound parameters. */
module PhpValues {
  import opened Options
  import Decimal
  import Sequences

  datatype Value = Null | Bool(b: bool) | Int(i: int) | Str(s: string)

  /** A request body after `json_decode(..., true)`: field name to value. */
  type Body = map<string, Value>

  /** `empty($v)` on a value that is present. Among these values the empty
      ones are exactly those whose string conversion is "" or "0". */
  predicate IsEmpty(v: Value)
    ensures IsEmpty(v) <==> ToText(v) == "" || ToText(v) == "0"
  {
    match v
    case Null => true
    case Bool(b) => !b
    case Int(i) =>
      Decimal.NatToStringIsZero(if i < 0 then -i else i);
      i == 0
    case Str(s) => s == "" || s == "0"
  }

  /** `empty($data[$key])`: an absent key is empty too, just as a null is. */
  predicate EmptyAt(data: Body, key: string)
    ensures EmptyAt(data, key) <==> IsEmpty(Coalesce(data, key, Null))
  {
    key !in data || IsEmpty(data[key])
  }

  /** `$data[$key] ?? $default`: the default replaces an absent key and a null. */
  function Coalesce(data: Body, key: string, default: Value): (r: Value)
    ensures default != Null ==> r != Null
    ensures key in data && data[key] != Null ==> r == data[key]
    ensures key !in data || data[key] == Null ==> r == default
  {
    if key in data && data[key] != Null then data[key] else default
  }

  /** `array_diff($required, array_keys($data))`: the required names that are
      not keys of the body, in their order in `required`. A key whose value is
      null or "" is present. */
  function MissingKeys(required: seq<string>, data: Body): (missing: seq<string>)
    ensures forall k :: k in missing <==> k in required && k !in data
    ensures missing == [] <==> forall k :: k in required ==> k in data
    ensures Sequences.IsSubsequence(missing, required)
  {
    Sequences.FilterIsSubsequence(k => k !in data, required);
    var missing := Sequences.Filter(k => k !in data, required);
    assert missing != [] ==> missing[0] in missing;
    missing
  }

  /** A value as the string concatenation operator `.` converts it. */
  function ToText(v: Value): (r: string)
    ensures v.Str? ==> r == v.s
    ensures v.Null? || v == Bool(false) ==> r == ""
    ensures v.Int? ==> r != "" && (v.i >= 0 ==> Decimal.ParseNat(r) == Some(v.i))
  {
    match v
    case Null => ""
    case Bool(b) => if b then "1" else ""
    case Int(i) =>
      if i >= 0 then Decimal.ParseNatToString(i); Decimal.IntToString(i)
      else Decimal.IntToString(i)
    case Str(s) => s
  }

  /** SQL `a = b` on two bound parameters: NULL equals nothing, not even NULL;
      any other value equals itself and nothing else. */
  predicate SqlEquals(a: Value, b: Value)
    ensures SqlEquals(a, b) ==> a == b
    ensures a == Null || b == Null ==> !SqlEquals(a, b)
    ensures a == b && a != Null ==> SqlEquals(a, b)
  {
    a != Null && b != Null && a == b
  }

  /** `WHERE id = ?` with a request string against an auto-increment id: the
      string must spell the id in decimal digits. */
  predicate IdMatches(id: nat, param: string)
    ensures IdMatches(id, param) ==> param != "" && Decimal.AllDigits(param)
    ensures param == Decimal.NatToString(id) ==> IdMatches(id, param)
  {
    Decimal.ParseNatToString(id);
    Decimal.ParseNat(param) == Some(id)
  }

  /** A row's id, written back in decimal, selects that row and no other. */
  lemma IdMatchesText(id: nat, other: nat)
    ensures IdMatches(id, Decimal.NatToString(id))
    ensures IdMatches(other, Decimal.NatToString(id)) <==> other == id
  {
    Decimal.ParseNatToString(id);
  }
}
