/**
 * The JavaScript values that flow through the parameter parser, and the
 * built-in conversions the parser relies on: `String(v)`, `Number(v)`,
 * `Boolean(v)`, `String.prototype.toLowerCase`, `trim` and `split`.
 *
 * Numbers are kept as exact decimals: a finite number is `mant / 10^scale`.
 * The rounding and the range of IEEE-754 doubles are not modelled.
 */
module JsValues {

  datatype Option<+T> = None | Some(value: T)

  /** A JavaScript number: an exact decimal, NaN, or one of the two infinities. */
  datatype JsNumber = Finite(mant: int, scale: nat) | NaN | Infinity(negative: bool)

  /** The values a request's params and query can hold, and what coercion produces. */
  datatype JsVal =
    | Undef
    | Null
    | Bool(b: bool)
    | Num(n: JsNumber)
    | Str(s: string)
    | Arr(elems: seq<JsVal>)
    | Obj(fields: map<string, JsVal>)

  // ---------------------------------------------------------------- numbers

  function Pow10(k: nat): (r: nat)
    ensures r >= 1
  {
    if k == 0 then 1 else 10 * Pow10(k - 1)
  }

  /** `Number.isInteger` */
  predicate IsInteger(n: JsNumber) {
    n.Finite? && n.mant % Pow10(n.scale) == 0
  }

  /** `Number.isFinite` */
  predicate IsFinite(n: JsNumber) {
    n.Finite?
  }

  /** `n === 0` (NaN and the infinities are not zero) */
  predicate IsZero(n: JsNumber) {
    n.Finite? && n.mant == 0
  }

  /** A finite number whose mantissa carries no redundant trailing zero. */
  predicate Canonical(n: JsNumber) {
    n.Finite? ==> (n.scale > 0 ==> n.mant % 10 != 0)
  }

  /** The canonical spelling of `m / 10^k`. */
  function Normalize(m: int, k: nat): (r: JsNumber)
    ensures r.Finite? && Canonical(r)
    ensures r.mant * Pow10(k) == m * Pow10(r.scale)
    ensures r.scale <= k
    decreases k
  {
    if k > 0 && m % 10 == 0 then
      var r := Normalize(m / 10, k - 1);
      assert Pow10(k) == 10 * Pow10(k - 1);
      r
    else
      Finite(m, k)
  }

  // ---------------------------------------------------------------- characters

  /** ECMAScript WhiteSpace and LineTerminator code points (what `trim` and `Number` skip). */
  predicate IsJsWhitespace(c: char) {
    var x := c as int;
    x == 0x09 || x == 0x0A || x == 0x0B || x == 0x0C || x == 0x0D || x == 0x20
    || x == 0xA0 || x == 0x1680 || (0x2000 <= x <= 0x200A) || x == 0x2028 || x == 0x2029
    || x == 0x202F || x == 0x205F || x == 0x3000 || x == 0xFEFF
  }

  predicate IsDecimalDigit(c: char) {
    '0' <= c <= '9'
  }

  /** The value of `c` as a digit in base `base`, or `base` when it is not one. */
  function DigitValue(c: char, base: nat): (d: nat)
    requires 2 <= base <= 16
    ensures d <= base
  {
    var v :=
      if '0' <= c <= '9' then (c as int) - ('0' as int)
      else if 'a' <= c <= 'f' then (c as int) - ('a' as int) + 10
      else if 'A' <= c <= 'F' then (c as int) - ('A' as int) + 10
      else 16;
    if v < base then v else base
  }

  predicate AllDigits(s: string, base: nat)
    requires 2 <= base <= 16
  {
    forall i :: 0 <= i < |s| ==> DigitValue(s[i], base) < base
  }

  function DigitsValue(s: string, base: nat): (v: nat)
    requires 2 <= base <= 16
    decreases |s|
  {
    if s == [] then 0
    else
      var d := DigitValue(s[|s| - 1], base);
      DigitsValue(s[..|s| - 1], base) * base + (if d < base then d else 0)
  }

  function DigitChar(d: nat): (c: char)
    requires d < 10
    ensures IsDecimalDigit(c) && DigitValue(c, 10) == d
  {
    (('0' as int) + d) as char
  }

  /** The decimal spelling of a natural number, without leading zeros. */
  function NatToDecimal(n: nat): (s: string)
    ensures |s| >= 1 && AllDigits(s, 10)
    ensures forall i :: 0 <= i < |s| ==> IsDecimalDigit(s[i])
    ensures s[0] == '0' ==> n == 0
    decreases n
  {
    if n < 10 then [DigitChar(n)] else NatToDecimal(n / 10) + [DigitChar(n % 10)]
  }

  /** `String(n)` for an integer `n`. */
  function IntToDecimal(n: int): (s: string)
    ensures |s| >= 1
  {
    if n < 0 then "-" + NatToDecimal(-n) else NatToDecimal(n)
  }

  /** `String(n)` of an integer has no comma and nothing for `trim` to remove. */
  lemma IntToDecimalShape(n: int)
    ensures ',' !in IntToDecimal(n)
    ensures Trim(IntToDecimal(n)) == IntToDecimal(n)
  {
    var s := IntToDecimal(n);
    if n < 0 {
      var a: nat := -n;
      var d := NatToDecimal(a);
      assert s == "-" + d;
      NegativeUntrimmed(a);
      assert ',' !in d;
      assert forall i :: 1 <= i < |s| ==> s[i] == d[i - 1];
    } else {
      assert s == NatToDecimal(n);
      DecimalEnds(n);
      TrimUntouched(s);
    }
  }

  lemma {:induction false} NatToDecimalValue(n: nat)
    ensures DigitsValue(NatToDecimal(n), 10) == n
    decreases n
  {
    var s := NatToDecimal(n);
    if n >= 10 {
      NatToDecimalValue(n / 10);
      assert s[..|s| - 1] == NatToDecimal(n / 10);
    }
  }

  // ---------------------------------------------------------------- strings

  /** ASCII `toLowerCase`; the other code points that lower-case to ASCII letters are not modelled. */
  function ToLower(s: string): (r: string)
    ensures |r| == |s|
    ensures forall i :: 0 <= i < |s| ==>
      r[i] == (if 'A' <= s[i] <= 'Z' then (s[i] as int + 32) as char else s[i])
  {
    seq(|s|, i requires 0 <= i < |s| =>
      if 'A' <= s[i] <= 'Z' then (s[i] as int + 32) as char else s[i])
  }

  function TrimStart(s: string): (r: string)
    ensures |r| <= |s| && r == s[|s| - |r|..]
    ensures r != [] ==> !IsJsWhitespace(r[0])
    decreases |s|
  {
    if s != [] && IsJsWhitespace(s[0]) then TrimStart(s[1..]) else s
  }

  function TrimEnd(s: string): (r: string)
    ensures |r| <= |s| && r == s[..|r|]
    ensures r != [] ==> !IsJsWhitespace(r[|r| - 1])
    decreases |s|
  {
    if s != [] && IsJsWhitespace(s[|s| - 1]) then TrimEnd(s[..|s| - 1]) else s
  }

  /** `String.prototype.trim` */
  function Trim(s: string): (r: string)
    ensures r == [] || (!IsJsWhitespace(r[0]) && !IsJsWhitespace(r[|r| - 1]))
  {
    var t := TrimEnd(TrimStart(s));
    assert t != [] ==> t[0] == TrimStart(s)[0];
    t
  }

  lemma TrimUntouched(s: string)
    requires s == [] || (!IsJsWhitespace(s[0]) && !IsJsWhitespace(s[|s| - 1]))
    ensures Trim(s) == s
  {
  }

  function Count(s: string, c: char): (n: nat)
    ensures n <= |s|
  {
    if s == [] then 0 else (if s[0] == c then 1 else 0) + Count(s[1..], c)
  }

  /** `s.split(sep)` for a one-character separator: always at least one piece. */
  function Split(s: string, sep: char): (pieces: seq<string>)
    ensures |pieces| >= 1
  {
    if s == [] then [""]
    else if s[0] == sep then [""] + Split(s[1..], sep)
    else
      var rest := Split(s[1..], sep);
      [[s[0]] + rest[0]] + rest[1..]
  }

  /** `s.endsWith(suffix)` */
  predicate EndsWith(s: string, suffix: string) {
    |suffix| <= |s| && s[|s| - |suffix|..] == suffix
  }

  /** `pieces.join(sep)` */
  function Join(pieces: seq<string>, sep: string): string {
    if pieces == [] then ""
    else if |pieces| == 1 then pieces[0]
    else pieces[0] + sep + Join(pieces[1..], sep)
  }

  /** Splitting on `sep` yields one piece more than there are separators, none containing `sep`. */
  lemma {:induction false} SplitPieces(s: string, sep: char)
    ensures |Split(s, sep)| == Count(s, sep) + 1
    ensures forall k :: 0 <= k < |Split(s, sep)| ==> sep !in Split(s, sep)[k]
    decreases |s|
  {
    if s != [] {
      SplitPieces(s[1..], sep);
      if s[0] != sep {
        var rest := Split(s[1..], sep);
        forall k | 0 <= k < |Split(s, sep)| ensures sep !in Split(s, sep)[k] {
          if k == 0 {
            assert Split(s, sep)[0] == [s[0]] + rest[0];
            assert sep !in rest[0];
          } else {
            assert Split(s, sep)[k] == rest[k];
          }
        }
      }
    }
  }

  /** A piece free of the separator, then the separator: that piece comes first. */
  lemma {:induction false} SplitAfterPiece(a: string, sep: char, b: string)
    requires sep !in a
    ensures Split(a + [sep] + b, sep) == [a] + Split(b, sep)
    decreases |a|
  {
    if a == [] {
      assert ([] + [sep] + b)[1..] == b;
    } else {
      SplitAfterPiece(a[1..], sep, b);
      assert (a + [sep] + b)[1..] == a[1..] + [sep] + b;
      assert [a[0]] + a[1..] == a;
    }
  }

  /** A string free of the separator is a single piece. */
  lemma {:induction false} SplitWhole(a: string, sep: char)
    requires sep !in a
    ensures Split(a, sep) == [a]
    decreases |a|
  {
    if a != [] {
      SplitWhole(a[1..], sep);
      assert [a[0]] + a[1..] == a;
    }
  }

  /** Splitting a join of separator-free pieces gives the pieces back. */
  lemma {:induction false} JoinSplit(pieces: seq<string>, sep: char)
    requires |pieces| >= 1
    requires forall k :: 0 <= k < |pieces| ==> sep !in pieces[k]
    ensures Split(Join(pieces, [sep]), sep) == pieces
    decreases |pieces|
  {
    if |pieces| == 1 {
      SplitWhole(pieces[0], sep);
    } else {
      JoinSplit(pieces[1..], sep);
      SplitAfterPiece(pieces[0], sep, Join(pieces[1..], [sep]));
      assert [pieces[0]] + pieces[1..] == pieces;
    }
  }

  /** Joining the pieces back with the separator gives the original string. */
  lemma {:induction false} SplitJoin(s: string, sep: char)
    ensures Join(Split(s, sep), [sep]) == s
    decreases |s|
  {
    if s != [] {
      SplitJoin(s[1..], sep);
      var rest := Split(s[1..], sep);
      if s[0] == sep {
        assert Split(s, sep) == [""] + rest;
        assert Join(Split(s, sep), [sep]) == "" + [sep] + Join(rest, [sep]);
      } else {
        assert Split(s, sep) == [[s[0]] + rest[0]] + rest[1..];
        JoinPrepend(s[0], rest, [sep]);
      }
      assert s == [s[0]] + s[1..];
    }
  }

  /** Prefixing the first piece with a character prefixes the join with it. */
  lemma JoinPrepend(c: char, pieces: seq<string>, sep: string)
    requires |pieces| >= 1
    ensures Join([[c] + pieces[0]] + pieces[1..], sep) == [c] + Join(pieces, sep)
  {
    var q := [[c] + pieces[0]] + pieces[1..];
    assert q[1..] == pieces[1..];
    if |pieces| > 1 {
      assert Join(q, sep) == [c] + pieces[0] + sep + Join(pieces[1..], sep);
    }
  }

  // ---------------------------------------------------------------- String(v)

  /** The decimal spelling of `m / 10^k` once canonical (plain notation, never exponent form). */
  function DecimalString(m: int, k: nat): string {
    if k == 0 then IntToDecimal(m)
    else
      var digits := NatToDecimal(if m < 0 then -m else m);
      var padded := if |digits| <= k then seq(k + 1 - |digits|, _ => '0') + digits else digits;
      (if m < 0 then "-" else "") + padded[..|padded| - k] + "." + padded[|padded| - k..]
  }

  /** `String(n)` for a number. */
  function NumberToString(n: JsNumber): string {
    match n
    case NaN => "NaN"
    case Infinity(neg) => if neg then "-Infinity" else "Infinity"
    case Finite(m, k) =>
      var c := Normalize(m, k);
      DecimalString(c.mant, c.scale)
  }

  /** `String(v)`; an array is joined with commas, its null and undefined elements written as "". */
  function ToJsString(v: JsVal): string
    decreases v
  {
    match v
    case Undef => "undefined"
    case Null => "null"
    case Bool(b) => if b then "true" else "false"
    case Num(n) => NumberToString(n)
    case Str(s) => s
    case Arr(es) =>
      Join(seq(|es|, i requires 0 <= i < |es| =>
        if es[i].Null? || es[i].Undef? then "" else ToJsString(es[i])), ",")
    case Obj(_) => "[object Object]"
  }

  // ---------------------------------------------------------------- Number(v)

  /** The number of leading decimal digits of `s`. */
  function DigitRun(s: string): (n: nat)
    ensures n <= |s|
    ensures forall i :: 0 <= i < n ==> IsDecimalDigit(s[i])
    ensures n < |s| ==> !IsDecimalDigit(s[n])
  {
    if s != [] && IsDecimalDigit(s[0]) then 1 + DigitRun(s[1..]) else 0
  }

  /** An optional sign followed by decimal digits, as after the `e` of an exponent. */
  function ParseExponent(s: string): Option<int> {
    if s == [] then None
    else if s[0] == '+' || s[0] == '-' then
      if s[1..] != [] && AllDigits(s[1..], 10) then
        var e: int := DigitsValue(s[1..], 10);
        Some(if s[0] == '-' then -e else e)
      else None
    else if AllDigits(s, 10) then Some(DigitsValue(s, 10) as int)
    else None
  }

  /** The fraction digits after a leading '.', and what follows them. */
  function FractionPart(rest: string): (string, string) {
    if rest != [] && rest[0] == '.' then
      var after := rest[1..];
      var j := DigitRun(after);
      (after[..j], after[j..])
    else ("", rest)
  }

  /** The optional exponent that ends a decimal literal. */
  function ExponentPart(tail: string): Option<int> {
    if tail == [] then Some(0)
    else if tail[0] == 'e' || tail[0] == 'E' then ParseExponent(tail[1..])
    else None
  }

  /** `m * 10^e` */
  function Scaled(m: nat, e: int): JsNumber {
    if e >= 0 then Finite(m * Pow10(e), 0) else Normalize(m, -e)
  }

  /** An unsigned StrDecimalLiteral: digits, an optional fraction, an optional exponent. */
  function ParseUnsignedDecimal(u: string): Option<JsNumber> {
    var i := DigitRun(u);
    var (frac, tail) := FractionPart(u[i..]);
    var exp := ExponentPart(tail);
    if i + |frac| == 0 || exp.None? then None
    else Some(Scaled(DigitsValue(u[..i] + frac, 10), exp.value - |frac|))
  }

  function Negate(n: JsNumber): JsNumber {
    match n
    case Finite(m, k) => Finite(-m, k)
    case NaN => NaN
    case Infinity(neg) => Infinity(!neg)
  }

  /** A literal that starts with 0x, 0o or 0b (any case). */
  predicate HasRadixPrefix(t: string) {
    |t| > 2 && t[0] == '0' && t[1] in "xXoObB"
  }

  function RadixLiteral(t: string): JsNumber
    requires HasRadixPrefix(t)
  {
    var base := if t[1] in "xX" then 16 else if t[1] in "oO" then 8 else 2;
    if AllDigits(t[2..], base) then Finite(DigitsValue(t[2..], base), 0) else NaN
  }

  /** A StrDecimalLiteral with an optional sign, or NaN. */
  function SignedDecimal(t: string): JsNumber
    requires t != []
  {
    var parsed :=
      if t[0] == '-' then (match ParseUnsignedDecimal(t[1..]) case Some(n) => Some(Negate(n)) case None => None)
      else if t[0] == '+' then ParseUnsignedDecimal(t[1..])
      else ParseUnsignedDecimal(t);
    match parsed
    case Some(n) => n
    case None => NaN
  }

  /** StringNumericLiteral, applied once the surrounding whitespace is gone. */
  function NumericLiteral(t: string): JsNumber {
    if t == "" then Finite(0, 0)
    else if t == "Infinity" || t == "+Infinity" then Infinity(false)
    else if t == "-Infinity" then Infinity(true)
    else if HasRadixPrefix(t) then RadixLiteral(t)
    else SignedDecimal(t)
  }

  /** ECMAScript StringToNumber: whitespace is trimmed, "" is 0, otherwise a numeric literal or NaN. */
  function StringToNumber(s: string): JsNumber {
    NumericLiteral(Trim(s))
  }

  /** `Number(v)` */
  function ToNumber(v: JsVal): JsNumber {
    match v
    case Undef => NaN
    case Null => Finite(0, 0)
    case Bool(b) => Finite(if b then 1 else 0, 0)
    case Num(n) => n
    case Str(s) => StringToNumber(s)
    case Arr(_) => StringToNumber(ToJsString(v))
    case Obj(_) => NaN
  }

  /** The unsigned decimal spelling of a natural number reads back as that number. */
  lemma NatDecimalReadsBack(n: nat)
    ensures ParseUnsignedDecimal(NatToDecimal(n)) == Some(Finite(n, 0))
  {
    var u := NatToDecimal(n);
    assert DigitRun(u) == |u|;
    assert u[|u|..] == [];
    assert u[..|u|] + "" == u;
    NatToDecimalValue(n);
  }

  /** A literal whose first character is a decimal digit is read as an unsigned decimal. */
  lemma DigitLedLiteral(t: string)
    requires t != [] && IsDecimalDigit(t[0]) && (|t| > 1 ==> IsDecimalDigit(t[1]))
    ensures NumericLiteral(t) == (match ParseUnsignedDecimal(t) case Some(n) => n case None => NaN)
  {
    assert t != "Infinity" && t != "+Infinity" && t != "-Infinity" by {
      assert t[0] != 'I' && t[0] != '+' && t[0] != '-';
    }
  }

  /** A literal that starts with neither a digit, a sign, a point nor the `I` of `Infinity` is NaN. */
  lemma WordLedLiteral(t: string)
    requires t != [] && !IsDecimalDigit(t[0]) && t[0] !in ".+-I"
    ensures NumericLiteral(t) == NaN
  {
    assert t != "Infinity" && t != "+Infinity" && t != "-Infinity" by {
      assert t[0] != 'I' && t[0] != '+' && t[0] != '-';
    }
    assert !HasRadixPrefix(t) by { assert t[0] != '0'; }
    assert DigitRun(t) == 0;
    assert t[0..] == t;
    assert FractionPart(t) == ("", t);
    assert ParseUnsignedDecimal(t) == None;
  }

  /** The first and last characters of a decimal spelling are digits. */
  lemma DecimalEnds(a: nat)
    ensures IsDecimalDigit(NatToDecimal(a)[0]) && IsDecimalDigit(NatToDecimal(a)[|NatToDecimal(a)| - 1])
    ensures |NatToDecimal(a)| > 1 ==> IsDecimalDigit(NatToDecimal(a)[1])
  {
    var u := NatToDecimal(a);
    assert DigitValue(u[0], 10) < 10 && DigitValue(u[|u| - 1], 10) < 10;
    if |u| > 1 { assert DigitValue(u[1], 10) < 10; }
  }

  /** `Number(String(n))` is `n` for every integer `n`. */
  lemma {:induction false} IntegerStringReadsBack(n: int)
    ensures StringToNumber(IntToDecimal(n)) == Finite(n, 0)
  {
    var s := IntToDecimal(n);
    if n < 0 {
      var a: nat := -n;
      assert s == "-" + NatToDecimal(a);
      NegativeReadsBack(a);
    } else {
      assert s == NatToDecimal(n);
      NatReadsBack(n);
    }
  }

  /** The decimal spelling of `a` reads back as `a`. */
  lemma NatReadsBack(a: nat)
    ensures StringToNumber(NatToDecimal(a)) == Finite(a, 0)
  {
    var u := NatToDecimal(a);
    NatLiteral(a);
    DecimalEnds(a);
    TrimUntouched(u);
    assert StringToNumber(u) == NumericLiteral(Trim(u));
  }

  /** A decimal spelling is the literal of its number. */
  lemma NatLiteral(a: nat)
    ensures NumericLiteral(NatToDecimal(a)) == Finite(a, 0)
  {
    var u := NatToDecimal(a);
    DecimalEnds(a);
    NatDecimalReadsBack(a);
    DigitLedLiteral(u);
  }

  /** `-` followed by the decimal spelling of `a` reads back as `-a`. */
  lemma NegativeReadsBack(a: nat)
    ensures StringToNumber("-" + NatToDecimal(a)) == Finite(-(a as int), 0)
  {
    var s := "-" + NatToDecimal(a);
    NegativeUntrimmed(a);
    NegativeLiteral(a);
    assert StringToNumber(s) == NumericLiteral(Trim(s));
  }

  /** `trim` leaves a negative decimal spelling alone. */
  lemma NegativeUntrimmed(a: nat)
    ensures Trim("-" + NatToDecimal(a)) == "-" + NatToDecimal(a)
  {
    var u := NatToDecimal(a);
    var s := "-" + u;
    DecimalEnds(a);
    assert s[0] == '-' && s[|s| - 1] == u[|u| - 1];
    TrimUntouched(s);
  }

  /** A negative decimal spelling is the literal of the negated number. */
  lemma NegativeLiteral(a: nat)
    ensures NumericLiteral("-" + NatToDecimal(a)) == Finite(-(a as int), 0)
  {
    var u := NatToDecimal(a);
    var s := "-" + u;
    DecimalEnds(a);
    NatDecimalReadsBack(a);
    assert s[1..] == u && s[0] == '-' && s[1] == u[0];
    MinusDigitLiteral(s);
  }

  /** A literal of a minus sign and then a digit is read as a negated unsigned decimal. */
  lemma MinusDigitLiteral(s: string)
    requires |s| > 1 && s[0] == '-' && IsDecimalDigit(s[1])
    ensures NumericLiteral(s) == (match ParseUnsignedDecimal(s[1..]) case Some(n) => Negate(n) case None => NaN)
  {
    assert s != "" && s != "Infinity" && s != "+Infinity" by { assert s[0] == '-'; }
    assert s != "-Infinity" by { assert s[1] != 'I'; }
    assert !HasRadixPrefix(s) by { assert s[0] != '0'; }
  }

  // ---------------------------------------------------------------- Boolean(v)

  /** `Boolean(v)`: JavaScript truthiness. */
  predicate Truthy(v: JsVal) {
    match v
    case Undef => false
    case Null => false
    case Bool(b) => b
    case Num(n) => !IsZero(n) && !n.NaN?
    case Str(s) => s != ""
    case Arr(_) => true
    case Obj(_) => true
  }
}
