/** Dynamic values as Python dicts and JSON bodies carry them, the Option and
    Result wrappers, and the two Python built-ins the core applies to such
    values: int() (with its decimal string parser) and str(). */
module Values {
  import Text

  datatype Option<T> = None | Some(value: T) {
    function GetOr(default: T): T {
      if Some? then value else default
    }
  }

  datatype Result<T, E> = Ok(value: T) | Err(error: E)

  /** A dynamically typed value.  VOther stands for dicts and floats. */
  datatype Value = VStr(s: string) | VInt(i: int) | VBool(b: bool) | VNull | VList(elems: seq<Value>) | VOther

  /** A stored document or a JSON object: a dict from field names to values. */
  type Doc = map<string, Value>

  /** `d.get(k, default)`. */
  function Get(d: Doc, k: string, default: Value): (v: Value)
    ensures k in d ==> v == d[k]
    ensures k !in d ==> v == default
  {
    if k in d then d[k] else default
  }

  /** Python truthiness. */
  predicate Truthy(v: Value) {
    match v
    case VStr(s) => s != ""
    case VInt(i) => i != 0
    case VBool(b) => b
    case VNull => false
    case VList(e) => e != []
    case VOther => true
  }

  predicate IsDigit(c: char) {
    '0' <= c <= '9'
  }

  /** Python's decimal literal body: digits, with single underscores allowed
      between two digits ("1_000"). */
  predicate IsDigitGroups(s: string)
    decreases |s|
  {
    |s| > 0 && IsDigit(s[0]) &&
    (|s| == 1 || IsDigitGroups(s[1..]) || (s[1] == '_' && IsDigitGroups(s[2..])))
  }

  /** The value of a digit-group string; underscores carry no weight. */
  function DigitsValue(s: string): nat
    decreases |s|
  {
    if s == [] then 0
    else if IsDigit(s[|s| - 1]) then DigitsValue(s[..|s| - 1]) * 10 + (s[|s| - 1] as int - '0' as int)
    else DigitsValue(s[..|s| - 1])
  }

  /** `int(s)` for a string: surrounding whitespace, an optional sign, then
      digit groups; None where Python raises ValueError. */
  function ParseInt(s: string): (r: Option<int>)
    ensures r.Some? ==> |Text.Strip(s)| > 0
  {
    ParseTrimmed(Text.Strip(s))
  }

  /** `int` once the whitespace is gone: an optional sign, then digit groups. */
  function ParseTrimmed(t: string): (r: Option<int>)
    ensures r.Some? ==> |t| > 0
  {
    if |t| > 0 && (t[0] == '-' || t[0] == '+') then
      if IsDigitGroups(t[1..]) then
        Some(if t[0] == '-' then 0 - DigitsValue(t[1..]) as int else DigitsValue(t[1..]))
      else None
    else if IsDigitGroups(t) then Some(DigitsValue(t))
    else None
  }

  function DigitChar(d: int): char
    requires 0 <= d < 10
  {
    ('0' as int + d) as char
  }

  /** Decimal rendering of a natural number, no leading zeros. */
  function NatToString(n: nat): (r: string)
    ensures |r| > 0 && forall i :: 0 <= i < |r| ==> IsDigit(r[i])
    decreases n
  {
    if n < 10 then [DigitChar(n)] else NatToString(n / 10) + [DigitChar(n % 10)]
  }

  /** `str(i)` for an int. */
  function IntToString(i: int): string {
    if i < 0 then "-" + NatToString(-i) else NatToString(i)
  }

  lemma {:induction false} AllDigitsAreGroups(s: string)
    requires |s| > 0 && forall i :: 0 <= i < |s| ==> IsDigit(s[i])
    ensures IsDigitGroups(s)
    decreases |s|
  {
    if |s| > 1 {
      AllDigitsAreGroups(s[1..]);
    }
  }

  lemma {:induction false} NatToStringValue(n: nat)
    ensures DigitsValue(NatToString(n)) == n
    decreases n
  {
    var r := NatToString(n);
    if n >= 10 {
      NatToStringValue(n / 10);
      assert r[..|r| - 1] == NatToString(n / 10);
    }
  }

  lemma ParseUnsigned(d: string)
    requires |d| > 0 && forall i :: 0 <= i < |d| ==> IsDigit(d[i])
    ensures ParseInt(d) == Some(DigitsValue(d) as int)
  {
    AllDigitsAreGroups(d);
    assert Text.NoOuterSpace(d) by {
      assert IsDigit(d[0]) && IsDigit(d[|d| - 1]);
    }
    Text.StripNoOuterSpace(d);
  }

  lemma SignedNoOuterSpace(d: string)
    requires |d| > 0 && IsDigit(d[|d| - 1])
    ensures Text.Strip("-" + d) == "-" + d
  {
    var s := "-" + d;
    assert s[0] == '-' && s[|s| - 1] == d[|d| - 1];
    Text.StripNoOuterSpace(s);
  }

  lemma ParseTrimmedNegative(d: string)
    requires |d| > 0 && forall i :: 0 <= i < |d| ==> IsDigit(d[i])
    ensures ParseTrimmed("-" + d) == Some(0 - DigitsValue(d) as int)
  {
    var s := "-" + d;
    assert s[0] == '-' && s[1..] == d;
    AllDigitsAreGroups(d);
  }

  /** Parsing what str() renders gives back the integer. */
  lemma IntToStringRoundTrip(i: int)
    ensures ParseInt(IntToString(i)) == Some(i)
  {
    if i < 0 {
      NegativeRoundTrip(i);
    } else {
      NatToStringValue(i);
      ParseUnsigned(NatToString(i));
    }
  }

  lemma NegativeRoundTrip(i: int)
    requires i < 0
    ensures ParseInt(IntToString(i)) == Some(i)
  {
    var n: nat := -i;
    var d := NatToString(n);
    NegativeRendering(i);
    NatToStringValue(n);
    SignedNoOuterSpace(d);
    ParseTrimmedNegative(d);
  }

  lemma NegativeRendering(i: int)
    requires i < 0
    ensures IntToString(i) == "-" + NatToString(-i)
  {
  }

  /** `str(v)`.  Lists render with their brackets; dicts and floats (VOther)
      as a placeholder.  Neither rendering is ever a role name. */
  function PyStr(v: Value): string {
    match v
    case VStr(s) => s
    case VInt(i) => IntToString(i)
    case VBool(b) => if b then "True" else "False"
    case VNull => "None"
    case VList(_) => "[...]"
    case VOther => "<object>"
  }

  /** `int(v)`: None where Python raises TypeError or ValueError. */
  function PyInt(v: Value): (r: Option<int>)
    ensures v.VInt? ==> r == Some(v.i)
    ensures v.VNull? || v.VList? || v.VOther? ==> r.None?
  {
    match v
    case VStr(s) => ParseInt(s)
    case VInt(i) => Some(i)
    case VBool(b) => Some(if b then 1 else 0)
    case VNull => None
    case VList(_) => None
    case VOther => None
  }
}
