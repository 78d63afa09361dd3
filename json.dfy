/** The loosely typed values the upstream API sends, and the JavaScript
    operations the normalisers apply to them: truthiness, `||`, `??`, optional
    property access, `Number(...)`, `String(...)` and `Array.prototype.join`.
    Numbers are integers here; see README for what that leaves out. */
module Json {
  import opened Wrappers
  import opened Strings

  datatype Value =
    | Undefined
    | Null
    | Bool(b: bool)
    | Num(n: int)
    | Str(s: string)
    | Arr(items: seq<Value>)
    | Obj(fields: map<string, Value>)

  /** The outcome of one request to the upstream API: a parsed JSON body, or
      any failure (network error, timeout, non-2xx status, unparseable body). */
  datatype Fetch = Failed | Received(payload: Value)

  /** JavaScript truthiness: `undefined`, `null`, `false`, `0` and `""` are falsy. */
  predicate Truthy(v: Value)
  {
    match v
    case Undefined => false
    case Null => false
    case Bool(b) => b
    case Num(n) => n != 0
    case Str(s) => s != ""
    case Arr(_) => true
    case Obj(_) => true
  }

  /** `a || b`. */
  function Or(a: Value, b: Value): (r: Value)
    ensures Truthy(r) <==> Truthy(a) || Truthy(b)
  {
    if Truthy(a) then a else b
  }

  predicate Nullish(v: Value) { v.Undefined? || v.Null? }

  /** `a ?? b`. */
  function Coalesce(a: Value, b: Value): (r: Value)
    ensures Nullish(r) ==> Nullish(b)
  {
    if Nullish(a) then b else a
  }

  /** `v?.key` (and `v.key` on any value that is not null or undefined). */
  function Get(v: Value, key: string): Value
  {
    if v.Obj? && key in v.fields then v.fields[key] else Undefined
  }

  /** `Array.isArray(v)`. */
  predicate IsArray(v: Value) { v.Arr? }

  /** `Number(s)` for a string: white space around the numeral is ignored,
      the empty string is 0, and an optionally signed decimal digit string is
      its value. Every other string reads as NaN here (`None`). */
  function NumberOfString(s: string): (r: Option<int>)
    ensures AllDigits(Trim(s)) ==> r.Some? && r.value >= 0
    ensures r.Some? && r.value < 0 ==> Trim(s)[0] == '-'
  {
    NumberOfTrimmed(Trim(s))
  }

  /** The numeral once the white space is gone. */
  function NumberOfTrimmed(t: string): (r: Option<int>)
    ensures AllDigits(t) ==> r == Some(DigitsValue(t))
    ensures r.Some? && r.value < 0 ==> t[0] == '-'
  {
    if t == "" then Some(0)
    else if AllDigits(t) then Some(DigitsValue(t))
    else if |t| >= 2 && (t[0] == '-' || t[0] == '+') && AllDigits(t[1..]) then
      var v: int := DigitsValue(t[1..]);
      Some(if t[0] == '-' then -v else v)
    else None
  }

  /** `String(v)`. */
  function ToStr(v: Value): string
    decreases v
  {
    match v
    case Undefined => "undefined"
    case Null => "null"
    case Bool(b) => if b then "true" else "false"
    case Num(n) => IntToString(n)
    case Str(s) => s
    case Arr(items) =>
      Join(seq(|items|, i requires 0 <= i < |items| =>
        if Nullish(items[i]) then "" else ToStr(items[i])), ",")
    case Obj(_) => "[object Object]"
  }

  /** `Number(v)`; `None` is NaN. */
  function ToNumber(v: Value): Option<int>
  {
    match v
    case Undefined => None
    case Null => Some(0)
    case Bool(b) => Some(if b then 1 else 0)
    case Num(n) => Some(n)
    case Str(s) => NumberOfString(s)
    case Arr(_) => NumberOfString(ToStr(v))
    case Obj(_) => None
  }

  /** How `join` prints one element: `null` and `undefined` as "". */
  function JoinText(v: Value): string
  {
    if Nullish(v) then "" else ToStr(v)
  }

  /** `items.join(sep)`. */
  function JoinValues(items: seq<Value>, sep: string): string
  {
    Join(seq(|items|, i requires 0 <= i < |items| => JoinText(items[i])), sep)
  }

  /** `join` prints the first element, the separator, then the rest joined. */
  lemma JoinValuesFront(items: seq<Value>, sep: string)
    requires |items| >= 2
    ensures JoinValues(items, sep) == JoinText(items[0]) + sep + JoinValues(items[1..], sep)
  {
    var texts := seq(|items|, i requires 0 <= i < |items| => JoinText(items[i]));
    assert texts[1..] == seq(|items[1..]|, i requires 0 <= i < |items[1..]| => JoinText(items[1..][i]));
  }

  /** A string field read through `x || ""`: the value if truthy, else "". */
  function OrEmpty(v: Value): Value
  {
    Or(v, Str(""))
  }

  lemma NumberOfDigits(s: string)
    requires AllDigits(s)
    ensures NumberOfString(s) == Some(DigitsValue(s))
  {
    TrimOfDigits(s);
    if s == "" {
      assert DigitsValue(s) == 0;
    }
  }

  lemma TrimOfDigits(s: string)
    requires AllDigits(s)
    ensures Trim(s) == s
  {
    if s != [] {
      assert IsDigit(s[0]) && IsDigit(s[|s| - 1]);
    }
    TrimFixed(s);
  }

  /** `Number(String(n))` is `n`. */
  lemma NumberOfIntToString(n: int)
    ensures NumberOfString(IntToString(n)) == Some(n)
  {
    if n >= 0 {
      var digits := NatToString(n);
      assert IntToString(n) == digits;
      NatToStringValue(n);
      NumberOfDigits(digits);
      assert NumberOfString(digits) == Some(n);
    } else {
      NumberOfNegative(n);
    }
  }

  /** A minus sign before a numeral reads as the negated value. */
  lemma NumberOfNegative(n: int)
    requires n < 0
    ensures NumberOfString(IntToString(n)) == Some(n)
  {
    NegativeNumeral(n);
    NumberOfSigned(IntToString(n));
  }

  /** `String(n)` of a negative `n`: a minus sign, then the digits of `-n`,
      with no white space to trim. */
  lemma NegativeNumeral(n: int)
    requires n < 0
    ensures var s := IntToString(n);
      |s| >= 2 && s[0] == '-' && AllDigits(s[1..]) && DigitsValue(s[1..]) == -n && Trim(s) == s
  {
    var digits := NatToString(-n);
    NatToStringValue(-n);
    var s := "-" + digits;
    assert IntToString(n) == s;
    assert s[1..] == digits && s[0] == '-';
    assert IsDigit(s[|s| - 1]) by {
      assert s[|s| - 1] == digits[|digits| - 1];
    }
    TrimFixed(s);
  }

  lemma NumberOfSigned(t: string)
    requires |t| >= 2 && t[0] == '-' && AllDigits(t[1..])
    ensures NumberOfTrimmed(t) == Some(-(DigitsValue(t[1..]) as int))
  {
    assert !IsDigit(t[0]);
  }
}
