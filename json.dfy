/**
 * The values `JSON.parse` produces, and the two JavaScript notions the
 * application applies to them: truthiness and strict equality. A property
 * that is absent reads as `undefined`, written `None`.
 */
module Json {
  import opened TextUtil

  datatype JsonValue =
    | JNull
    | JBool(b: bool)
    | JNum(n: real)
    | JStr(s: string)
    | JArr(items: seq<JsonValue>)
    | JObj(fields: map<string, JsonValue>)

  /** JavaScript truthiness of a parsed value. */
  predicate Truthy(v: JsonValue)
  {
    match v
    case JNull => false
    case JBool(b) => b
    case JNum(n) => n != 0.0
    case JStr(s) => s != []
    case JArr(_) => true
    case JObj(_) => true
  }

  /** Truthiness of a property that may be `undefined`. */
  predicate TruthyOpt(v: Option<JsonValue>)
  {
    v.Some? && Truthy(v.value)
  }

  /** `v.key`: the property of an object, `undefined` on every other value. */
  function Get(v: JsonValue, key: string): Option<JsonValue>
  {
    if v.JObj? && key in v.fields then Some(v.fields[key]) else None
  }

  /** `v.hasOwnProperty(key)` on a parsed object. */
  predicate Has(v: JsonValue, key: string)
  {
    v.JObj? && key in v.fields
  }

  predicate IsPrimitive(v: JsonValue)
  {
    !v.JArr? && !v.JObj?
  }

  /**
   * `a === b`: primitives compare by value; two arrays or objects obtained
   * from separate parses are distinct references and never equal.
   */
  predicate StrictEquals(a: Option<JsonValue>, b: Option<JsonValue>)
  {
    match (a, b)
    case (None, None) => true
    case (Some(x), Some(y)) => IsPrimitive(x) && x == y
    case _ => false
  }

  /** The string of a parsed value, when it is one. */
  function AsString(v: Option<JsonValue>): Option<string>
  {
    if v.Some? && v.value.JStr? then Some(v.value.s) else None
  }

  /** `[...v]`: the items of an array, the one-character strings of a string; anything else is not iterable. */
  function Spread(v: JsonValue): (r: Result<seq<JsonValue>>)
    ensures v.JArr? ==> r == Ok(v.items)
    ensures r.Ok? <==> v.JArr? || v.JStr?
    ensures v.JStr? && r.Ok? ==> |r.value| == |v.s|
  {
    match v
    case JArr(items) => Ok(items)
    case JStr(s) => Ok(seq(|s|, k requires 0 <= k < |s| => JStr([s[k]])))
    case _ => Err("is not iterable")
  }

  // ---------------------------------------------------------------------
  // Numeric coercion: `isNaN(v)`, which applies `Number(v)` first
  // ---------------------------------------------------------------------

  /** A non-empty run of decimal digits. */
  predicate DecimalDigits(s: string)
  {
    |s| > 0 && forall k :: 0 <= k < |s| ==> IsDigit(s[k])
  }

  /** Digits after an optional sign: the exponent of a decimal literal. */
  predicate SignedInteger(s: string)
  {
    DecimalDigits(s) || (|s| > 1 && (s[0] == '+' || s[0] == '-') && DecimalDigits(s[1..]))
  }

  /** `12`, `12.`, `12.5` or `.5`: digits with at most one decimal point and at least one digit. */
  predicate DecimalMantissa(m: string)
  {
    var d := IndexOfChar(m, '.');
    if d < 0 then DecimalDigits(m)
    else |m| >= 2 && (d == 0 || DecimalDigits(m[..d])) && (d == |m| - 1 || DecimalDigits(m[d + 1..]))
  }

  /** The position of the first `e` or `E`, or -1. */
  function ExponentMark(s: string): (r: int)
    ensures r == -1 || (0 <= r < |s| && (s[r] == 'e' || s[r] == 'E'))
  {
    var e1 := IndexOfChar(s, 'e');
    var e2 := IndexOfChar(s, 'E');
    if e1 < 0 then e2 else if e2 < 0 then e1 else Min(e1, e2)
  }

  /** An unsigned decimal literal of the grammar `Number` accepts, or `Infinity`. */
  predicate UnsignedDecimal(s: string)
  {
    var e := ExponentMark(s);
    s == "Infinity" || (if e < 0 then DecimalMantissa(s) else DecimalMantissa(s[..e]) && SignedInteger(s[e + 1..]))
  }

  /** Every character is a digit of the given radix. */
  predicate RadixDigits(s: string, radix: nat)
  {
    forall k :: 0 <= k < |s| ==> RadixDigit(s[k], radix).Some?
  }

  /** A `0x`, `0o` or `0b` literal with at least one digit and no sign. */
  predicate NonDecimalInteger(s: string)
  {
    |s| > 2 && s[0] == '0'
    && (((s[1] == 'x' || s[1] == 'X') && RadixDigits(s[2..], 16))
        || ((s[1] == 'o' || s[1] == 'O') && RadixDigits(s[2..], 8))
        || ((s[1] == 'b' || s[1] == 'B') && RadixDigits(s[2..], 2)))
  }

  /**
   * Whether `Number(s)` is a number rather than `NaN`: after trimming white
   * space the string is empty (which gives 0), a literal in radix 2, 8 or 16,
   * or a decimal literal with an optional sign.
   */
  predicate NumericString(s: string)
  {
    var t := Trim(s);
    t == [] || NonDecimalInteger(t) || UnsignedDecimal(t)
    || (|t| >= 1 && (t[0] == '+' || t[0] == '-') && UnsignedDecimal(t[1..]))
  }

  /**
   * `isNaN(v)` for a parsed value. `null`, booleans and numbers convert to
   * numbers; a string is read as a numeric literal; an object converts to
   * "[object Object]"; an array converts through its comma-joined string, so
   * two or more items always give `NaN`, none gives 0 and one item gives
   * whatever its own string form gives.
   */
  predicate NumberIsNaN(v: JsonValue)
    decreases v, 0
  {
    match v
    case JNull => false
    case JBool(_) => false
    case JNum(_) => false
    case JStr(s) => !NumericString(s)
    case JArr(items) => |items| >= 2 || (|items| == 1 && StringFormIsNaN(items[0]))
    case JObj(_) => true
  }

  /**
   * `isNaN(String(v))` for an item of an array being joined: `null` joins
   * as the empty string, a boolean as a word.
   */
  predicate StringFormIsNaN(v: JsonValue)
    decreases v, 1
  {
    match v
    case JNull => false
    case JBool(_) => true
    case JNum(_) => false
    case JStr(s) => !NumericString(s)
    case JArr(_) => NumberIsNaN(v)
    case JObj(_) => true
  }

  lemma NatStringIsDecimal(n: nat)
    ensures Trim(NatToString(n)) == NatToString(n) && UnsignedDecimal(NatToString(n))
  {
    var s := NatToString(n);
    assert !IsSpace(s[0]) && !IsSpace(s[|s| - 1]);
    TrimStartOfTrimmed(s);
    TrimEndOfTrimmed(s);
    assert IndexOfChar(s, '.') < 0 && ExponentMark(s) < 0;
  }

  lemma SignedNatStringIsDecimal(n: nat)
    ensures var m := "-" + NatToString(n);
      Trim(m) == m && |m| >= 1 && m[0] == '-' && UnsignedDecimal(m[1..])
  {
    var s := NatToString(n);
    NatStringIsDecimal(n);
    var m := "-" + s;
    assert !IsSpace(m[0]) && m[|m| - 1] == s[|s| - 1];
    TrimStartOfTrimmed(m);
    TrimEndOfTrimmed(m);
    assert m[1..] == s;
  }

  /** The decimal form of a natural number, with or without a sign, is numeric. */
  lemma DecimalFormsAreNumbers(n: nat)
    ensures !NumberIsNaN(JStr(NatToString(n)))
    ensures !NumberIsNaN(JStr("-" + NatToString(n)))
    ensures !NumberIsNaN(JArr([JStr(NatToString(n))]))
  {
    NatStringIsDecimal(n);
    SignedNatStringIsDecimal(n);
  }

  /** Words, objects and lists of several values are not numbers; an empty list is 0. */
  lemma NaNExamples(o: map<string, JsonValue>, a: JsonValue, b: JsonValue)
    ensures NumberIsNaN(JStr("abc")) && NumberIsNaN(JObj(o)) && NumberIsNaN(JArr([a, b]))
    ensures !NumberIsNaN(JArr([])) && !NumberIsNaN(JStr("  ")) && NumberIsNaN(JArr([JBool(true)]))
  {
    var abc := "abc";
    assert !IsSpace(abc[0]) && !IsSpace(abc[2]);
    TrimStartOfTrimmed(abc);
    TrimEndOfTrimmed(abc);
    assert IndexOfChar(abc, '.') < 0 && ExponentMark(abc) < 0;
    assert !DecimalDigits(abc);
    assert TrimStart("  ") == [];
  }
}
