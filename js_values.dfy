/** JavaScript values as the nutrition core sees them, and the coercions the
    source relies on: `Number(v)`, `String(v)`, truthiness, `??`, `?.`,
    `toLowerCase` and `Math.round`. Numbers are exact reals. */
module JsValues {
  import opened Wrappers

  /** The outcome of `Number(v)`: a finite number, NaN or an infinity. */
  datatype JsNumber = Finite(value: real) | NotANumber | Infinite(negative: bool)

  /** A JSON-like JavaScript value. `Num` holds a finite number; NaN and the
      infinities have constructors of their own. */
  datatype JsValue =
    | Undefined
    | Null
    | Bool(b: bool)
    | Num(n: real)
    | NaN
    | Inf(negative: bool)
    | Str(s: string)
    | Arr(items: seq<JsValue>)
    | Obj(fields: map<string, JsValue>)

  /** The JavaScript value of a number. */
  function FromNumber(x: JsNumber): (v: JsValue)
    ensures x.Finite? <==> v.Num?
    ensures x.Finite? ==> v.n == x.value
  {
    match x
    case Finite(r) => Num(r)
    case NotANumber => NaN
    case Infinite(neg) => Inf(neg)
  }

  /** A helper's optional number as the value it returns: a number or null. */
  function FromReal(o: Option<real>): (v: JsValue)
    ensures v.Null? <==> o.None?
    ensures o.Some? ==> v == Num(o.value)
  {
    match o
    case Some(r) => Num(r)
    case None => Null
  }

  function FromInt(o: Option<int>): (v: JsValue)
    ensures v.Null? <==> o.None?
    ensures o.Some? ==> v == Num(o.value as real)
  {
    match o
    case Some(k) => Num(k as real)
    case None => Null
  }

  function FromString(o: Option<string>): (v: JsValue)
    ensures v.Null? <==> o.None?
    ensures o.Some? ==> v == Str(o.value)
  {
    match o
    case Some(s) => Str(s)
    case None => Null
  }

  /** `v == null` with loose equality: null or undefined. */
  predicate Nullish(v: JsValue) {
    v.Undefined? || v.Null?
  }

  /** JavaScript truthiness (`if (v)`, `!v`, `v || w`). */
  predicate Truthy(v: JsValue) {
    match v
    case Undefined => false
    case Null => false
    case Bool(b) => b
    case Num(n) => n != 0.0
    case NaN => false
    case Inf(_) => true
    case Str(s) => s != ""
    case Arr(_) => true
    case Obj(_) => true
  }

  /** `a ?? b`. */
  function Coalesce(a: JsValue, b: JsValue): (r: JsValue)
    ensures Nullish(a) ==> r == b
    ensures !Nullish(a) ==> r == a
  {
    if Nullish(a) then b else a
  }

  /** `a || b`. */
  function Or(a: JsValue, b: JsValue): (r: JsValue)
    ensures Truthy(a) ==> r == a
    ensures !Truthy(a) ==> r == b
  {
    if Truthy(a) then a else b
  }

  /** `v?.key`: the field of an object, undefined for anything else and for a
      missing key. It never throws. */
  function Get(v: JsValue, key: string): (r: JsValue)
    ensures v.Obj? && key in v.fields ==> r == v.fields[key]
    ensures !(v.Obj? && key in v.fields) ==> r == Undefined
  {
    if v.Obj? && key in v.fields then v.fields[key] else Undefined
  }

  /** `v.key` without optional chaining: None stands for the TypeError raised
      when `v` is null or undefined. */
  function Property(v: JsValue, key: string): (r: Option<JsValue>)
    ensures r.None? <==> Nullish(v)
    ensures r.Some? ==> r.value == Get(v, key)
  {
    if Nullish(v) then None else Some(Get(v, key))
  }

  /** `{ ...v }` for an object or null: the own fields of an object, no fields
      for anything else. */
  function Spread(v: JsValue): (m: map<string, JsValue>)
    ensures v.Obj? ==> m == v.fields
    ensures !v.Obj? ==> m == map[]
  {
    if v.Obj? then v.fields else map[]
  }

  // ---------------------------------------------------------------- Math.round

  /** `r` is within half a unit of `x`, the upper end included, as a
      rounding to the nearest integer with ties upward leaves it. */
  predicate RoundsTo(x: real, r: int) {
    x - 0.5 < r as real <= x + 0.5
  }

  /** `Math.round(x)`: the nearest integer, halves rounded towards +infinity
      (so -2.5 rounds to -2). */
  function Round(x: real): (r: int)
    ensures RoundsTo(x, r)
  {
    (x + 0.5).Floor
  }

  lemma RoundShift(x: real, k: int)
    ensures Round(x + k as real) == Round(x) + k
  {
    var a, b := Round(x + k as real), Round(x);
    assert a - k == b by {
      assert (a - k) as real <= x + 0.5 < (a - k) as real + 1.0;
      assert b as real <= x + 0.5 < b as real + 1.0;
    }
  }

  lemma RoundOfInteger(k: int)
    ensures Round(k as real) == k
  {
  }

  /** `Number.isInteger` on a number. */
  predicate IsIntegral(r: real) {
    r.Floor as real == r
  }

  // ---------------------------------------------------------------- Number(v)

  /** `Number(v)`. An array converts through its string form: [] is 0, a
      one-element array converts like its element's string, a longer array
      is NaN (its string form holds a comma). Any plain object is NaN. */
  function ToNumber(v: JsValue): (x: JsNumber)
    ensures v.Num? ==> x == Finite(v.n)
    ensures Nullish(v) ==> (x.Finite? <==> v.Null?)
  {
    match v
    case Undefined => NotANumber
    case Null => Finite(0.0)
    case Bool(b) => Finite(if b then 1.0 else 0.0)
    case Num(n) => Finite(n)
    case NaN => NotANumber
    case Inf(neg) => Infinite(neg)
    case Str(s) => StringToNumber(s)
    case Obj(_) => NotANumber
    case Arr(items) =>
      if |items| == 0 then Finite(0.0)
      else if |items| > 1 then NotANumber
      else
        var x := items[0];
        if Nullish(x) then Finite(0.0)
        else if x.Bool? || x.Obj? then NotANumber
        else ToNumber(x)
  }

  /** The white space and line terminators that `Number(string)` trims. */
  predicate IsJsSpace(c: char) {
    var k := c as int;
    k == 0x09 || k == 0x0A || k == 0x0B || k == 0x0C || k == 0x0D || k == 0x20 ||
    k == 0xA0 || k == 0x1680 || (0x2000 <= k <= 0x200A) || k == 0x2028 || k == 0x2029 ||
    k == 0x202F || k == 0x205F || k == 0x3000 || k == 0xFEFF
  }

  function TrimStart(s: string): (t: string)
    ensures |t| <= |s| && t == s[|s| - |t|..]
    ensures |t| > 0 ==> !IsJsSpace(t[0])
  {
    if |s| > 0 && IsJsSpace(s[0]) then TrimStart(s[1..]) else s
  }

  function TrimEnd(s: string): (t: string)
    ensures |t| <= |s| && t == s[..|t|]
    ensures |t| > 0 ==> !IsJsSpace(t[|t| - 1])
  {
    if |s| > 0 && IsJsSpace(s[|s| - 1]) then TrimEnd(s[..|s| - 1]) else s
  }

  function Trim(s: string): string {
    TrimEnd(TrimStart(s))
  }

  predicate IsDigit(c: char) {
    '0' <= c <= '9'
  }

  function DigitValue(c: char): (d: nat)
    ensures d < 10
  {
    if IsDigit(c) then (c as int - '0' as int) else 0
  }

  function DigitChar(d: nat): (c: char)
    requires d < 10
    ensures IsDigit(c) && DigitValue(c) == d
  {
    ('0' as int + d) as char
  }

  /** The length of the run of decimal digits that starts `s`. */
  function DigitRun(s: string): (n: nat)
    ensures n <= |s|
    ensures n < |s| ==> !IsDigit(s[n])
  {
    if |s| > 0 && IsDigit(s[0]) then 1 + DigitRun(s[1..]) else 0
  }

  function Pow10(n: nat): (p: nat)
    ensures p >= 1
  {
    if n == 0 then 1 else 10 * Pow10(n - 1)
  }

  /** The value of a string of decimal digits. */
  function DecimalValue(s: string): nat {
    if |s| == 0 then 0 else DecimalValue(s[..|s| - 1]) * 10 + DigitValue(s[|s| - 1])
  }

  function RadixDigit(c: char, radix: nat): (d: Option<nat>)
    ensures d.Some? ==> d.value < radix
  {
    var k :=
      if '0' <= c <= '9' then c as int - '0' as int
      else if 'a' <= c <= 'z' then c as int - 'a' as int + 10
      else if 'A' <= c <= 'Z' then c as int - 'A' as int + 10
      else 36;
    if k < radix then Some(k) else None
  }

  /** The value of a string of digits in `radix`, None if one is not a digit. */
  function RadixValue(s: string, radix: nat): Option<nat> {
    if |s| == 0 then Some(0)
    else
      match (RadixValue(s[..|s| - 1], radix), RadixDigit(s[|s| - 1], radix))
      case (Some(hi), Some(lo)) => Some(hi * radix + lo)
      case _ => None
  }

  function Negate(x: JsNumber): JsNumber {
    match x
    case Finite(r) => Finite(-r)
    case NotANumber => NotANumber
    case Infinite(neg) => Infinite(!neg)
  }

  /** An optional exponent part (`e+3`, `E-2`) applied to the mantissa `m`. */
  function WithExponent(m: real, rest: string): JsNumber {
    if rest == [] then Finite(m)
    else if rest[0] != 'e' && rest[0] != 'E' then NotANumber
    else
      var e := rest[1..];
      var neg := |e| > 0 && e[0] == '-';
      var digits := if |e| > 0 && (e[0] == '-' || e[0] == '+') then e[1..] else e;
      if |digits| == 0 || DigitRun(digits) != |digits| then NotANumber
      else
        var p := Pow10(DecimalValue(digits)) as real;
        Finite(if neg then m / p else m * p)
  }

  /** An unsigned decimal literal: `Infinity`, `12`, `12.`, `12.5`, `.5`, each
      with an optional exponent. */
  function UnsignedDecimal(u: string): JsNumber {
    if u == "Infinity" then Infinite(false)
    else
      var i := DigitRun(u);
      if i < |u| && u[i] == '.' then
        var f := u[i + 1..];
        var j := DigitRun(f);
        if i == 0 && j == 0 then NotANumber
        else
          var fraction := DecimalValue(f[..j]) as real / Pow10(j) as real;
          WithExponent(DecimalValue(u[..i]) as real + fraction, f[j..])
      else if i == 0 then NotANumber
      else WithExponent(DecimalValue(u[..i]) as real, u[i..])
  }

  /** `Number(s)` for a string: surrounding white space is ignored, the empty
      string is 0, then a signed decimal literal or an unsigned `0x`, `0o` or
      `0b` literal; anything else is NaN. */
  function StringToNumber(s: string): JsNumber {
    var t := Trim(s);
    if t == [] then Finite(0.0)
    else if |t| >= 2 && t[0] == '0' && t[1] in "xXoObB" then
      var radix := if t[1] in "xX" then 16 else if t[1] in "oO" then 8 else 2;
      if |t| == 2 then NotANumber
      else
        match RadixValue(t[2..], radix)
        case Some(k) => Finite(k as real)
        case None => NotANumber
    else if t[0] == '+' then UnsignedDecimal(t[1..])
    else if t[0] == '-' then Negate(UnsignedDecimal(t[1..]))
    else UnsignedDecimal(t)
  }

  // ---------------------------------------------------------------- String(v)

  /** The decimal digits of a natural number. */
  function NatToString(n: nat): (s: string)
    ensures |s| > 0
  {
    if n < 10 then [DigitChar(n)] else NatToString(n / 10) + [DigitChar(n % 10)]
  }

  /** The fraction digits of `f` (0 <= f < 1), stopping when the rest is zero
      or after `budget` digits. */
  function FractionDigits(f: real, budget: nat): (s: string)
    requires 0.0 <= f < 1.0
    decreases budget
  {
    if budget == 0 || f == 0.0 then []
    else
      var d := (f * 10.0).Floor;
      [DigitChar(d)] + FractionDigits(f * 10.0 - d as real, budget - 1)
  }

  /** `String(n)` for a finite number: integers exactly; other numbers by
      their decimal expansion, cut after 20 fraction digits. */
  function NumberToString(n: real): (s: string)
    ensures |s| > 0
  {
    var a := if n < 0.0 then -n else n;
    var whole := a.Floor;
    var body :=
      if whole as real == a then NatToString(whole)
      else NatToString(whole) + "." + FractionDigits(a - whole as real, 20);
    if n < 0.0 then "-" + body else body
  }

  /** `String(n)` of a natural number consists of decimal digits. */
  lemma {:induction false} NatToStringIsDigits(n: nat)
    ensures forall i :: 0 <= i < |NatToString(n)| ==> IsDigit(NatToString(n)[i])
  {
    if n >= 10 {
      NatToStringIsDigits(n / 10);
      var s := NatToString(n);
      assert forall i :: 0 <= i < |s| - 1 ==> s[i] == NatToString(n / 10)[i];
    }
  }

  lemma {:induction false} DecimalValueOfNat(n: nat)
    ensures DecimalValue(NatToString(n)) == n
  {
    var s := NatToString(n);
    if n >= 10 {
      assert s[..|s| - 1] == NatToString(n / 10);
      DecimalValueOfNat(n / 10);
    } else {
      assert s[..|s| - 1] == [];
    }
  }

  lemma {:induction false} DigitRunOfDigits(s: string)
    requires forall i :: 0 <= i < |s| ==> IsDigit(s[i])
    ensures DigitRun(s) == |s|
  {
    if |s| > 0 {
      DigitRunOfDigits(s[1..]);
    }
  }

  /** `Number(String(n))` is `n` for every natural number: the digits that
      `String` writes are read back by `Number`. */
  lemma NumberOfNatText(n: nat)
    ensures StringToNumber(NatToString(n)) == Finite(n as real)
  {
    var s := NatToString(n);
    NatToStringIsDigits(n);
    assert !IsJsSpace(s[0]) && !IsJsSpace(s[|s| - 1]);
    assert TrimStart(s) == s;
    assert Trim(s) == s;
    assert |s| >= 2 ==> s[1] !in "xXoObB";
    assert s[0] != '+' && s[0] != '-';
    assert s != "Infinity" by { assert s[0] != 'I'; }
    DigitRunOfDigits(s);
    assert s[..|s|] == s && s[|s|..] == [];
    DecimalValueOfNat(n);
  }

  /** `Number("")` and `Number(null)` are 0 while `Number(undefined)` is
      NaN; an empty array reads as 0 and a one-element array as its element. */
  lemma NumberOfEmptyValues()
    ensures StringToNumber("") == Finite(0.0)
    ensures ToNumber(Null) == Finite(0.0) && ToNumber(Undefined) == NotANumber
  {
    assert TrimStart("") == "" && TrimEnd("") == "";
  }

  lemma NumberOfArrays()
    ensures ToNumber(Arr([])) == Finite(0.0)
    ensures ToNumber(Arr([Num(7.0)])) == Finite(7.0)
    ensures ToNumber(Arr([Num(1.0), Num(2.0)])) == NotANumber
  {
  }

  /** Surrounding white space is trimmed and a fraction is read. */
  lemma NumberOfDecimalText()
    ensures StringToNumber(" 12.5 ") == Finite(12.5)
  {
    TrimAroundDecimal();
    FractionLiteral();
    var u := "12.5";
    assert u[0] != '0' && u[0] != '+' && u[0] != '-';
  }

  lemma TrimAroundDecimal()
    ensures Trim(" 12.5 ") == "12.5"
  {
    TrimLeadingSpace();
    TrimTrailingSpace();
  }

  lemma TrimLeadingSpace()
    ensures TrimStart(" 12.5 ") == "12.5 "
  {
    assert IsJsSpace(' ') && !IsJsSpace('1');
    assert " 12.5 "[1..] == "12.5 ";
  }

  lemma TrimTrailingSpace()
    ensures TrimEnd("12.5 ") == "12.5"
  {
    assert IsJsSpace(' ') && !IsJsSpace('5');
    assert "12.5 "[..4] == "12.5";
  }

  lemma FractionLiteral()
    ensures UnsignedDecimal("12.5") == Finite(12.5)
  {
    var u := "12.5";
    assert u != "Infinity" by { assert u[0] != 'I'; }
    assert u[1..] == "2.5" && "2.5"[1..] == ".5";
    assert DigitRun(".5") == 0;
    assert DigitRun(u) == 2;
    assert u[3..] == "5" && u[..2] == "12" && "12"[..1] == "1";
    assert "5"[1..] == [];
    assert DigitRun("5") == 1;
    assert "5"[..1] == "5" && "5"[..0] == [] && "1"[..0] == [];
    assert DecimalValue("12") == 12 && DecimalValue("5") == 5;
  }

  /** A sign and an exponent are read. */
  lemma NumberOfExponentText()
    ensures StringToNumber("-1e3") == Finite(-1000.0)
  {
    var t := "-1e3";
    assert !IsJsSpace('-') && !IsJsSpace('3');
    assert TrimStart(t) == t && TrimEnd(t) == t;
    assert t[0] == '-' && t[1..] == "1e3";
    ExponentLiteral();
  }

  lemma ExponentLiteral()
    ensures UnsignedDecimal("1e3") == Finite(1000.0)
  {
    var u := "1e3";
    assert u[0] == '1' && u != "Infinity";
    assert DigitRun(u) == 1 by { assert u[1..] == "e3" && DigitRun("e3") == 0; }
    assert u[..1] == "1" && u[1..] == "e3";
    assert DecimalValue("1") == 1;
    ExponentPart();
  }

  lemma ExponentPart()
    ensures WithExponent(1.0, "e3") == Finite(1000.0)
  {
    var e := "e3";
    assert e[0] == 'e' && e[1..] == "3";
    assert DigitRun("3") == 1 && "3"[1..] == [];
    assert DecimalValue("3") == 3 && Pow10(3) == 1000;
  }

  /** A hexadecimal literal is read. */
  lemma NumberOfHexText()
    ensures StringToNumber("0x1F") == Finite(31.0)
  {
    var t := "0x1F";
    assert Trim(t) == t;
    assert t[2..] == "1F";
    var u := "1F";
    assert u[..1] == "1" && u[1] == 'F' && "1"[..0] == [] && "1"[0] == '1';
    assert RadixValue("1", 16) == Some(1);
    assert RadixValue(u, 16) == Some(31);
  }

  /** Text that is not a number reads as NaN. */
  lemma NumberOfOtherText()
    ensures StringToNumber("abc") == NotANumber
  {
    var t := "abc";
    assert !IsJsSpace('a') && !IsJsSpace('c');
    assert TrimStart(t) == t && TrimEnd(t) == t;
    assert t[0] == 'a' && t != "Infinity";
    assert DigitRun(t) == 0;
  }

  function Join(parts: seq<string>, sep: string): string {
    if |parts| == 0 then ""
    else if |parts| == 1 then parts[0]
    else parts[0] + sep + Join(parts[1..], sep)
  }

  /** `String(v)` (and the conversion of a template literal `${v}`). */
  function ToJsString(v: JsValue): string {
    match v
    case Undefined => "undefined"
    case Null => "null"
    case Bool(b) => if b then "true" else "false"
    case Num(n) => NumberToString(n)
    case NaN => "NaN"
    case Inf(neg) => if neg then "-Infinity" else "Infinity"
    case Str(s) => s
    case Obj(_) => "[object Object]"
    case Arr(items) =>
      Join(seq(|items|, i requires 0 <= i < |items| =>
             if Nullish(items[i]) then "" else ToJsString(items[i])), ",")
  }

  function LowerChar(c: char): char {
    if 'A' <= c <= 'Z' then (c as int + 32) as char else c
  }

  /** `s.toLowerCase()` on the ASCII letters. */
  function ToLower(s: string): string {
    seq(|s|, i requires 0 <= i < |s| => LowerChar(s[i]))
  }

  predicate StartsWith(s: string, prefix: string) {
    |prefix| <= |s| && s[..|prefix|] == prefix
  }
}
