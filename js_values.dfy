/** The parts of JavaScript value semantics that the two log back ends rely on:
    JSON values as Express hands them to a handler, truthiness, `Number(...)`,
    `String(...)` and `String.prototype.trim`. Numbers are integers here. */
module JsValues {

  /** A request-body or query value; `Missing` stands for `undefined`. */
  datatype Value =
    | Missing
    | Null
    | Bool(b: bool)
    | Num(n: int)
    | Str(s: string)
    | Obj(fields: map<string, Value>)

  /** What `Number(...)` yields: NaN, an infinity or a finite (here integral) value. */
  datatype Number = NaN | PosInf | NegInf | Fin(v: int)

  /** Property access `v[key]`: a missing key, or any key of a non-object, is `undefined`. */
  function Field(v: Value, key: string): Value {
    match v
    case Obj(m) => if key in m then m[key] else Missing
    case _ => Missing
  }

  /** JavaScript truthiness (`!!v`). */
  predicate Truthy(v: Value) {
    match v
    case Missing => false
    case Null => false
    case Bool(b) => b
    case Num(n) => n != 0
    case Str(s) => s != ""
    case Obj(_) => true
  }

  /** The characters `trim()` and `Number(...)` strip: WhiteSpace and LineTerminator. */
  predicate IsWhitespace(c: char) {
    c == '\t' || c == '\n' || c == '\U{000B}' || c == '\U{000C}' || c == '\r' ||
    c == ' ' || c == '\U{00A0}' || c == '\U{1680}' || ('\U{2000}' <= c <= '\U{200A}') ||
    c == '\U{2028}' || c == '\U{2029}' || c == '\U{202F}' || c == '\U{205F}' ||
    c == '\U{3000}' || c == '\U{FEFF}'
  }

  /** Every character of `s` is whitespace. */
  predicate AllWhitespace(s: string) {
    forall i | 0 <= i < |s| :: IsWhitespace(s[i])
  }

  /** Drops the leading whitespace of `s`. */
  function TrimStart(s: string): (r: string)
    ensures |r| <= |s| && r == s[|s| - |r|..]
    ensures AllWhitespace(s[..|s| - |r|])
    ensures r == [] || !IsWhitespace(r[0])
  {
    if s != [] && IsWhitespace(s[0]) then
      var r := TrimStart(s[1..]);
      WhitespacePrefixCons(s, |s[1..]| - |r|);
      r
    else s
  }

  lemma WhitespacePrefixCons(s: string, k: nat)
    requires s != [] && IsWhitespace(s[0]) && k <= |s| - 1
    requires AllWhitespace(s[1..][..k])
    ensures AllWhitespace(s[..k + 1])
  {
    var p, q := s[..k + 1], s[1..][..k];
    forall i | 0 <= i < k + 1 ensures IsWhitespace(p[i]) {
      if i > 0 {
        assert p[i] == q[i - 1];
      }
    }
  }

  /** Drops the trailing whitespace of `s`. */
  function TrimEnd(s: string): (r: string)
    ensures |r| <= |s| && r == s[..|r|]
    ensures AllWhitespace(s[|r|..])
    ensures r == [] || !IsWhitespace(r[|r| - 1])
  {
    if s != [] && IsWhitespace(s[|s| - 1]) then
      var r := TrimEnd(s[..|s| - 1]);
      WhitespaceSuffixSnoc(s, |r|);
      r
    else s
  }

  lemma WhitespaceSuffixSnoc(s: string, k: nat)
    requires s != [] && IsWhitespace(s[|s| - 1]) && k <= |s| - 1
    requires AllWhitespace(s[..|s| - 1][k..])
    ensures AllWhitespace(s[k..])
  {
    var p, q := s[k..], s[..|s| - 1][k..];
    forall i | 0 <= i < |s| - k ensures IsWhitespace(p[i]) {
      if i < |s| - 1 - k {
        assert p[i] == q[i];
      }
    }
  }

  /** The length of the run of whitespace that `s` starts with. */
  function LeadingWhitespace(s: string): (n: nat)
    ensures n <= |s| && AllWhitespace(s[..n])
    ensures n < |s| ==> !IsWhitespace(s[n])
  {
    var r := TrimStart(s);
    assert r != [] ==> r[0] == s[|s| - |r|];
    |s| - |r|
  }

  /** `s.trim()`: the slice of `s` that starts after its leading whitespace and is
      followed only by whitespace; empty exactly when `s` is all whitespace,
      otherwise bounded by non-whitespace characters. */
  function Trim(s: string): (r: string)
    ensures LeadingWhitespace(s) + |r| <= |s|
    ensures r == s[LeadingWhitespace(s)..LeadingWhitespace(s) + |r|]
    ensures AllWhitespace(s[LeadingWhitespace(s) + |r|..])
    ensures r == [] <==> AllWhitespace(s)
    ensures r != [] ==> !IsWhitespace(r[0]) && !IsWhitespace(r[|r| - 1])
  {
    TrimParts(s, LeadingWhitespace(s), TrimStart(s), TrimEnd(TrimStart(s)));
    TrimEnd(TrimStart(s))
  }

  /** Cutting whitespace off the front of `s` (giving `t`) and then off the back of
      `t` (giving `r`) leaves a slice of `s` with only whitespace around it, and
      leaves nothing exactly when `s` is all whitespace. */
  lemma TrimParts(s: string, n: nat, t: string, r: string)
    requires n == |s| - |t| && t == s[n..] && AllWhitespace(s[..n])
    requires t == [] || !IsWhitespace(t[0])
    requires |r| <= |t| && r == t[..|r|] && AllWhitespace(t[|r|..])
    requires r == [] || !IsWhitespace(r[|r| - 1])
    ensures n + |r| <= |s|
    ensures r == s[n..n + |r|]
    ensures AllWhitespace(s[n + |r|..])
    ensures r == [] <==> AllWhitespace(s)
    ensures r != [] ==> !IsWhitespace(r[0]) && !IsWhitespace(r[|r| - 1])
  {
    var b := n + |r|;
    assert r == s[n..b] by {
      assert s[n..][..|r|] == s[n..b];
    }
    assert s[b..] == t[|r|..];
    if r == [] {
      assert t[|r|..] == t;
      assert t == [];
      forall i | 0 <= i < |s| ensures IsWhitespace(s[i]) {
        assert s[i] == s[..n][i];
      }
    } else {
      assert r[0] == s[n] == t[0];
    }
  }


  predicate IsDigit(c: char) {
    '0' <= c <= '9'
  }

  /** A non-empty run of decimal digits. */
  predicate IsDecimal(s: string) {
    s != [] && forall i | 0 <= i < |s| :: IsDigit(s[i])
  }

  function DigitChar(d: nat): (c: char)
    requires d < 10
    ensures IsDigit(c)
  {
    ('0' as int + d) as char
  }

  function DigitValue(c: char): (d: nat)
    requires IsDigit(c)
    ensures d < 10
  {
    c as int - '0' as int
  }

  /** The value of a run of decimal digits, most significant first. */
  function DigitsValue(s: string): nat
    requires forall i | 0 <= i < |s| :: IsDigit(s[i])
  {
    if s == [] then 0
    else 10 * DigitsValue(s[..|s| - 1]) + DigitValue(s[|s| - 1])
  }

  /** The decimal spelling of `n`, read back by `DigitsValue`. */
  function NatToDecimal(n: nat): (r: string)
    ensures IsDecimal(r)
    ensures DigitsValue(r) == n
    ensures r[0] == '0' ==> r == "0"
  {
    if n < 10 then [DigitChar(n)]
    else
      var prefix := NatToDecimal(n / 10);
      var r := prefix + [DigitChar(n % 10)];
      assert r[..|r| - 1] == prefix;
      r
  }

  /** `String(v)`. */
  function ToJsString(v: Value): string {
    match v
    case Missing => "undefined"
    case Null => "null"
    case Bool(b) => if b then "true" else "false"
    case Num(n) => if n < 0 then "-" + NatToDecimal(-n) else NatToDecimal(n)
    case Str(s) => s
    case Obj(_) => "[object Object]"
  }

  /** `Number(s)` for a string: surrounding whitespace is ignored, a blank string is 0,
      an optionally signed run of decimal digits is its value, and the signed or
      unsigned word Infinity is an infinity; anything else is NaN. */
  function StringToNumber(s: string): Number {
    var t := Trim(s);
    if t == "" then Fin(0)
    else if t == "Infinity" || t == "+Infinity" then PosInf
    else if t == "-Infinity" then NegInf
    else if t[0] == '-' && IsDecimal(t[1..]) then Fin(-(DigitsValue(t[1..]) as int))
    else if t[0] == '+' && IsDecimal(t[1..]) then Fin(DigitsValue(t[1..]))
    else if IsDecimal(t) then Fin(DigitsValue(t))
    else NaN
  }

  /** `Number(v)`. */
  function ToNumber(v: Value): Number {
    match v
    case Missing => NaN
    case Null => Fin(0)
    case Bool(b) => Fin(if b then 1 else 0)
    case Num(n) => Fin(n)
    case Str(s) => StringToNumber(s)
    case Obj(_) => NaN
  }

  /** A string that starts and ends with non-whitespace is its own trim. */
  lemma TrimUnchanged(s: string)
    requires s != [] && !IsWhitespace(s[0]) && !IsWhitespace(s[|s| - 1])
    ensures Trim(s) == s
  {
    assert TrimStart(s) == s;
    assert TrimEnd(s) == s;
  }

  /** `Number(String(n))` gives `n` back: the decimal spelling of an integer
      parses to that integer. */
  lemma NumberStringRoundTrip(n: int)
    ensures StringToNumber(ToJsString(Num(n))) == Fin(n)
  {
    var s := ToJsString(Num(n));
    if n < 0 {
      var d := NatToDecimal(-n);
      assert s == "-" + d && s[1..] == d && s[|s| - 1] == d[|d| - 1];
      assert IsDigit(d[|d| - 1]);
      TrimUnchanged(s);
      NegativeDecimalStringValue(s);
    } else {
      assert IsDigit(s[0]) && IsDigit(s[|s| - 1]);
      TrimUnchanged(s);
      DecimalStringValue(s);
    }
  }

  /** A trimmed string that is not one of the three spellings of Infinity: it starts
      with neither `I` nor a sign followed by `I`. */
  lemma NotInfinity(t: string)
    requires t != [] && t[0] != 'I'
    requires t[0] == '+' || t[0] == '-' ==> |t| > 1 && t[1] != 'I'
    ensures t != "Infinity" && t != "+Infinity" && t != "-Infinity"
  {
    assert "Infinity"[0] == 'I' && "+Infinity"[1] == 'I' && "-Infinity"[1] == 'I';
  }

  /** A string whose trimmed form starts with anything but a digit, a sign, a
      decimal point or the letter I is not a number. */
  lemma NonNumericStringIsNaN(s: string)
    requires Trim(s) != [] && !IsDigit(Trim(s)[0])
    requires Trim(s)[0] != '+' && Trim(s)[0] != '-' && Trim(s)[0] != '.' && Trim(s)[0] != 'I'
    ensures StringToNumber(s) == NaN
  {
    var t := Trim(s);
    NotInfinity(t);
    assert !IsDecimal(t);
  }

  /** A string whose trimmed form is a run of decimal digits is the number those
      digits spell. */
  lemma DecimalStringValue(s: string)
    requires IsDecimal(Trim(s))
    ensures StringToNumber(s) == Fin(DigitsValue(Trim(s)))
  {
    var t := Trim(s);
    assert IsDigit(t[0]);
    NotInfinity(t);
  }

  /** A string whose trimmed form is `-` followed by a run of decimal digits is the
      negation of the number those digits spell. */
  lemma NegativeDecimalStringValue(s: string)
    requires |Trim(s)| > 1 && Trim(s)[0] == '-' && IsDecimal(Trim(s)[1..])
    ensures StringToNumber(s) == Fin(-(DigitsValue(Trim(s)[1..]) as int))
  {
    var t := Trim(s);
    assert t[1] == t[1..][0];
    NotInfinity(t);
  }

  /** The values JavaScript treats as false are exactly `undefined`, `null`,
      `false`, `0` and the empty string. */
  lemma FalsyValues(v: Value)
    ensures !Truthy(v) <==> v in {Missing, Null, Bool(false), Num(0), Str("")}
  {
  }

  /** `Number(v)` of a falsy value is NaN or zero. */
  lemma FalsyNumber(v: Value)
    requires !Truthy(v)
    ensures ToNumber(v) == NaN || ToNumber(v) == Fin(0)
  {
    FalsyValues(v);
    if v == Str("") {
      assert Trim("") == "";
    }
  }
}
