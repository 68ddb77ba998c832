/** JSON request bodies as the route handlers see them after body parsing. */
module Json {

  datatype Option<T> = None | Some(value: T)

  /** A JSON value. `Null` is JSON null; `Obj` is any nested object (its content plays no role). */
  datatype Value =
    | Str(s: string)
    | Num(n: real)
    | Bool(b: bool)
    | Arr(elems: seq<Value>)
    | Null
    | Obj

  /** One property of a parsed body, in the order the keys were written. */
  datatype Field = Field(key: string, value: Value)

  type Body = seq<Field>

  /** Property access `body[key]`: absent when no field has that key; when a key is
      written twice the later value wins, as JSON parsing does. */
  function Lookup(body: Body, key: string): (r: Option<Value>)
    ensures r.None? <==> forall i | 0 <= i < |body| :: body[i].key != key
    ensures r.Some? ==>
      exists i | 0 <= i < |body| ::
        body[i] == Field(key, r.value) && forall j | i < j < |body| :: body[j].key != key
  {
    if body == [] then None
    else if body[|body| - 1].key == key then Some(body[|body| - 1].value)
    else Lookup(body[..|body| - 1], key)
  }

  /** In a body whose keys are distinct, a key looks up the value written beside it. */
  lemma LookupDistinct(body: Body, i: nat)
    requires i < |body|
    requires forall j | 0 <= j < |body| && j != i :: body[j].key != body[i].key
    ensures Lookup(body, body[i].key) == Some(body[i].value)
  {
  }

  /** JavaScript truthiness (`Boolean(v)`, the left operand of `||`); NaN is not modelled. */
  predicate Truthy(v: Value) {
    match v
    case Str(s) => s != ""
    case Num(n) => n != 0.0
    case Bool(b) => b
    case Arr(_) => true
    case Null => false
    case Obj => true
  }

  predicate IsDigit(c: char) {
    '0' <= c <= '9'
  }

  predicate AllDigits(s: string) {
    forall i | 0 <= i < |s| :: IsDigit(s[i])
  }

  function Pow10(k: nat): (p: nat)
    ensures p >= 1
  {
    if k == 0 then 1 else 10 * Pow10(k - 1)
  }

  /** The number written by a string of decimal digits. */
  function DigitsValue(s: string): (n: nat)
    requires AllDigits(s)
    ensures n < Pow10(|s|)
  {
    if s == [] then 0
    else DigitsValue(s[..|s| - 1]) * 10 + (s[|s| - 1] as int - '0' as int)
  }

  /** Position of the first '.' in `s`, or `|s|` when there is none. */
  function FirstDot(s: string): (k: nat)
    ensures k <= |s|
    ensures k < |s| ==> s[k] == '.'
    ensures forall i | 0 <= i < k :: s[i] != '.'
  {
    if s == [] || s[0] == '.' then 0 else 1 + FirstDot(s[1..])
  }

  /** The number a string denotes when it is an unsigned decimal numeral
      (`"12"`, `"5.5"`, `".5"`, `"5."`): digits with at most one point and at least one digit. */
  function DecimalText(s: string): (r: Option<real>)
    ensures r.Some? ==> r.value >= 0.0
    ensures r.Some? ==> exists i | 0 <= i < |s| :: IsDigit(s[i])
    ensures AllDigits(s) && s != [] ==> r == Some(DigitsValue(s) as real)
  {
    var k := FirstDot(s);
    assert AllDigits(s) ==> k == |s| && s[..k] == s;
    var whole := s[..k];
    var frac := if k < |s| then s[k + 1..] else [];
    if AllDigits(whole) && AllDigits(frac) && |whole| + |frac| > 0 then
      assert |whole| > 0 ==> IsDigit(s[0]);
      assert |whole| == 0 ==> IsDigit(s[k + 1]);
      Some(NumeralValue(whole, frac))
    else
      None
  }

  /** The number written by whole-part digits, a point, and fraction digits. */
  function NumeralValue(whole: string, frac: string): (v: real)
    requires AllDigits(whole) && AllDigits(frac)
    ensures DigitsValue(whole) as real <= v < (DigitsValue(whole) + 1) as real
    ensures DigitsValue(frac) == 0 ==> v == DigitsValue(whole) as real
  {
    FractionBelowOne(DigitsValue(frac) as real, Pow10(|frac|) as real);
    DigitsValue(whole) as real + DigitsValue(frac) as real / Pow10(|frac|) as real
  }

  lemma FractionBelowOne(b: real, c: real)
    requires 0.0 <= b < c
    ensures 0.0 <= b / c < 1.0
  {
    assert b / c * c == b;
  }

  /** A numeral with a point denotes its whole part plus its fraction digits over
      the matching power of ten: `"5.5"` is 5.5, `"0.0"` is 0, `".5"` is 0.5. */
  lemma DecimalTextWithPoint(whole: string, frac: string)
    requires AllDigits(whole) && AllDigits(frac) && |whole| + |frac| > 0
    ensures DecimalText(whole + "." + frac) == Some(NumeralValue(whole, frac))
  {
    var s := whole + "." + frac;
    FirstDotAfterDigits(whole, frac);
    var k := FirstDot(s);
    assert k < |s|;
    assert s[..k] == whole;
    assert s[k + 1..] == frac;
  }

  lemma FirstDotAfterDigits(whole: string, frac: string)
    requires AllDigits(whole)
    ensures FirstDot(whole + "." + frac) == |whole|
  {
    var s := whole + "." + frac;
    var k := FirstDot(s);
    assert s[|whole|] == '.';
    assert forall i | 0 <= i < |whole| :: s[i] == whole[i] && s[i] != '.';
  }

  /** A string with a character that is neither a digit nor a point, such as an
      exponent or a sign, is not a numeral. */
  lemma DecimalTextRefusesOtherChars(s: string, i: nat)
    requires i < |s| && !IsDigit(s[i]) && s[i] != '.'
    ensures DecimalText(s) == None
  {
    var k := FirstDot(s);
    if i < k {
      assert s[..k][i] == s[i];
    } else {
      assert i != k;
      assert s[k + 1..][i - k - 1] == s[i];
    }
  }
}
