/** Numbers as SQL text: what std::to_string prints, what std::stod accepts, and the value the text has. */
module Numerals {
  import opened Options
  import opened Chars
  import opened Decimal
  import opened SqlText

  // ---- The value of a numeral ----

  /** Where the point is; at the end when there is none. */
  function PointAt(s: string): (n: nat)
    ensures n <= |s| && (n < |s| ==> s[n] == '.') && forall i :: 0 <= i < n ==> s[i] != '.'
  {
    if s == "" || s[0] == '.' then 0 else 1 + PointAt(s[1..])
  }

  function Whole(s: string): string {
    s[..PointAt(s)]
  }

  function Fraction(s: string): string {
    if PointAt(s) < |s| then s[PointAt(s) + 1..] else ""
  }

  /** The value of digits, with or without a point. */
  function MantissaOf(s: string): real {
    FromDec(Whole(s)) as real + FromDec(Fraction(s)) as real / Pow10(|Fraction(s)|) as real
  }

  function IntegerOf(s: string): int {
    if s != "" && IsSign(s[0]) then (if s[0] == '-' then -1 else 1) * FromDec(s[1..]) else FromDec(s)
  }

  function Scaled(x: real, exponent: int): real {
    if exponent >= 0 then x * Pow10(exponent) as real else x / Pow10(-exponent) as real
  }

  function HexDigitValue(c: char): nat {
    if 'a' <= c <= 'f' then c as int - 'a' as int + 10
    else if 'A' <= c <= 'F' then c as int - 'A' as int + 10
    else DigitValue(c)
  }

  function FromHex(s: string): nat {
    if s == "" then 0 else FromHex(s[..|s| - 1]) * 16 + HexDigitValue(s[|s| - 1])
  }

  /** The value of an unsigned numeral: decimal, with or without an exponent, or hexadecimal. */
  function RealOf(s: string): real {
    if IsHexInteger(s) then FromHex(s[2..]) as real
    else
      var m := MantissaEnd(s);
      Scaled(MantissaOf(s[..m]), if m < |s| then IntegerOf(s[m + 1..]) else 0)
  }

  lemma NoExponent(s: string)
    requires MantissaEnd(s) == |s| && !StartsHex(s)
    ensures RealOf(s) == MantissaOf(s)
  {
    hide MantissaOf, MantissaEnd, StartsHex;
    assert s[..|s|] == s;
    assert Scaled(MantissaOf(s), 0) == MantissaOf(s) by {
      assert Pow10(0) == 1;
    }
  }

  // ---- Exponents and hexadecimal digits ----

  lemma DigitsThen(m: string, rest: string)
    requires m != "" && AllDigits(m) && rest != "" && !IsDigit(rest[0]) && rest[0] != '.' && rest[0] !in "xX"
    ensures MantissaEnd(m + rest) == |m| && !StartsHex(m + rest)
  {
    var s := m + rest;
    assert forall i :: 0 <= i < |m| ==> s[i] == m[i];
    assert s[|m|] == rest[0];
    assert DigitRun(s, 0) == |m|;
  }

  /** An exponent moves the point to the right, or with a minus sign to the left. */
  lemma ExponentValue(m: string, e: char, sign: string, k: nat)
    requires m != "" && AllDigits(m) && e in "eE" && sign in ["", "+", "-"]
    ensures RealOf(m + ([e] + sign + ToDec(k)))
         == if sign == "-" then FromDec(m) as real / Pow10(k) as real else FromDec(m) as real * Pow10(k) as real
  {
    hide *;
    SplitAtExponent(m, e, sign + ToDec(k));
    assert [e] + sign + ToDec(k) == [e] + (sign + ToDec(k));
    SignedInteger(sign, k);
    NoPoint(m);
    NothingAfter(m);
    ScaledBy(FromDec(m) as real, sign == "-", k);
  }

  lemma ScaledBy(x: real, negative: bool, k: nat)
    ensures Scaled(x, (if negative then -1 else 1) * k)
         == if negative then x / Pow10(k) as real else x * Pow10(k) as real
  {
    if k == 0 {
      PowNought();
    }
    hide Pow10;
  }

  lemma PowNought()
    ensures Pow10(0) == 1
  {
  }

  lemma SplitAtExponent(m: string, e: char, exponent: string)
    requires m != "" && AllDigits(m) && e in "eE"
    ensures RealOf(m + ([e] + exponent)) == Scaled(MantissaOf(m), IntegerOf(exponent))
  {
    var s := m + ([e] + exponent);
    DigitsThen(m, [e] + exponent);
    HexIntegerStarts(s);
    assert s[..|m|] == m && s[|m| + 1..] == exponent;
    hide MantissaEnd, StartsHex, IsHexInteger, MantissaOf, IntegerOf, Scaled;
  }

  lemma HexIntegerStarts(s: string)
    ensures IsHexInteger(s) ==> StartsHex(s)
  {
  }

  lemma NothingAfter(m: string)
    requires PointAt(m) == |m|
    ensures MantissaOf(m) == FromDec(m) as real
  {
    assert Whole(m) == m && Fraction(m) == "";
    assert FromDec("") == 0 && Pow10(0) == 1;
  }

  lemma SignedInteger(sign: string, k: nat)
    requires sign in ["", "+", "-"]
    ensures IntegerOf(sign + ToDec(k)) == (if sign == "-" then -1 else 1) * k
  {
    DecRoundTrip(k);
    var digits := ToDec(k);
    assert digits != "" && !IsSign(digits[0]);
    hide FromDec, ToDec;
    if sign == "" {
      assert sign + digits == digits;
    } else {
      assert (sign + digits)[0] == sign[0] && (sign + digits)[1..] == digits;
    }
  }

  const LOWER := "0123456789abcdef"
  const UPPER := "0123456789ABCDEF"

  /** The hexadecimal digits of a number. */
  function ToHex(n: nat, digits: string): string
    requires |digits| == 16
  {
    (if n < 16 then "" else ToHex(n / 16, digits)) + [digits[n % 16]]
  }

  lemma {:induction false} HexValue(n: nat, digits: string)
    requires digits == LOWER || digits == UPPER
    ensures ToHex(n, digits) != "" && FromHex(ToHex(n, digits)) == n
    ensures forall i :: 0 <= i < |ToHex(n, digits)| ==> IsHexDigit(ToHex(n, digits)[i])
  {
    hide IsHexDigit, HexDigitValue, FromHex;
    OneHexDigit(n % 16, digits);
    HexMore(if n < 16 then "" else ToHex(n / 16, digits), digits[n % 16]);
    HexNothing();
    if n >= 16 {
      HexValue(n / 16, digits);
    }
  }

  lemma HexMore(front: string, c: char)
    ensures FromHex(front + [c]) == FromHex(front) * 16 + HexDigitValue(c)
  {
    assert (front + [c])[..|front|] == front;
  }

  lemma HexNothing()
    ensures FromHex("") == 0
  {
  }

  lemma OneHexDigit(d: nat, digits: string)
    requires d < 16 && (digits == LOWER || digits == UPPER)
    ensures IsHexDigit(digits[d]) && HexDigitValue(digits[d]) == d
  {
  }

  // ---- Six decimals ----

  const MICRO := 1000000

  function FixedText(micros: nat): string {
    ToDec(micros / MICRO) + "." + PadTo(micros % MICRO, 6)
  }

  lemma {:induction false} PointAfter(front: string, back: string)
    requires AllDigits(front)
    ensures PointAt(front + "." + back) == |front|
  {
    var s := front + "." + back;
    if front != "" {
      assert s[1..] == front[1..] + "." + back;
      PointAfter(front[1..], back);
    } else {
      assert s[0] == '.';
    }
  }

  lemma {:induction false} NoPoint(s: string)
    requires AllDigits(s)
    ensures PointAt(s) == |s|
  {
    if s != "" {
      NoPoint(s[1..]);
    }
  }

  lemma DigitsEnd(s: string)
    requires s != "" && AllDigits(s)
    ensures MantissaEnd(s) == |s| && !StartsHex(s) && Printable(Num(s))
  {
    assert DigitRun(s, 0) == |s|;
  }

  lemma PointedEnd(front: string, back: string)
    requires front != "" && AllDigits(front) && AllDigits(back)
    ensures MantissaEnd(front + "." + back) == |front + "." + back| && !StartsHex(front + "." + back)
    ensures Printable(Num(front + "." + back))
  {
    var s := front + "." + back;
    assert forall i :: 0 <= i < |front| ==> s[i] == front[i];
    assert s[|front|] == '.';
    assert forall i :: |front| < i < |s| ==> s[i] == back[i - |front| - 1];
    assert DigitRun(s, 0) == |front|;
    assert DigitRun(s, |front| + 1) == |s|;
  }

  lemma FixedIsNumeral(micros: nat)
    ensures Printable(Num(FixedText(micros))) && RealOf(FixedText(micros)) == MantissaOf(FixedText(micros))
  {
    hide MantissaEnd, MantissaOf, StartsHex, RealOf, Printable;
    PointedEnd(ToDec(micros / MICRO), PadTo(micros % MICRO, 6));
    NoExponent(FixedText(micros));
  }

  lemma FixedValue(micros: nat)
    ensures RealOf(FixedText(micros)) == micros as real / 1000000.0
  {
    hide *;
    FixedIsNumeral(micros);
    FixedMantissa(micros);
  }

  lemma FixedMantissa(micros: nat)
    ensures MantissaOf(FixedText(micros)) == micros as real / 1000000.0
  {
    var front, back := ToDec(micros / MICRO), PadTo(micros % MICRO, 6);
    PointAfter(front, back);
    assert Whole(FixedText(micros)) == front;
    assert Fraction(FixedText(micros)) == back;
    DecRoundTrip(micros / MICRO);
    assert Pow10(6) == MICRO;
    PadValue(micros % MICRO, 6);
    assert micros == micros / MICRO * MICRO + micros % MICRO;
    FixedSum(micros / MICRO, micros % MICRO);
  }

  lemma FixedSum(q: nat, r: nat)
    ensures q as real + r as real / 1000000.0 == (q * MICRO + r) as real / 1000000.0
  {
    assert (q * MICRO) as real == q as real * 1000000.0;
  }

  lemma WholeValue(n: nat)
    ensures RealOf(ToDec(n)) == n as real
  {
    DigitsEnd(ToDec(n));
    NoExponent(ToDec(n));
    NoPoint(ToDec(n));
    DecRoundTrip(n);
    hide RealOf, MantissaEnd, StartsHex, Printable;
    assert Whole(ToDec(n)) == ToDec(n) && Fraction(ToDec(n)) == "";
  }

  // ---- Printing a double ----

  function Abs(d: real): real {
    if d < 0.0 then -d else d
  }

  /** The nearest number of millionths, ties to even, as printf rounds. */
  function Micros(x: real): nat
    requires x >= 0.0
  {
    var q := (x * 1000000.0).Floor;
    var rest := x * 1000000.0 - q as real;
    if rest > 0.5 || (rest == 0.5 && q % 2 == 1) then q + 1 else q
  }

  predicate IsWhole(d: real) {
    d == d.Floor as real
  }

  /** The text of a number in a numeric comparison. */
  function NumberText(d: real): string {
    (if d < 0.0 then "-" else "") + Magnitude(d)
  }

  function Magnitude(d: real): string {
    if IsWhole(d) && Abs(d) < 1000000000000000.0 then ToDec(Abs(d).Floor) else FixedText(Micros(Abs(d)))
  }

  /** std::to_string of a double. */
  function SixDecimals(d: real): string {
    (if d < 0.0 then "-" else "") + FixedText(Micros(Abs(d)))
  }

  /** The number that the printed text denotes. */
  function Shown(d: real): real {
    if IsWhole(d) then d else SignedValue(d < 0.0, Micros(Abs(d)) as real / 1000000.0)
  }

  function SignedValue(negative: bool, x: real): real {
    if negative then -x else x
  }

  lemma MicrosClose(x: real)
    requires x >= 0.0
    ensures var y := x * 1000000.0; -0.5 <= Micros(x) as real - y <= 0.5 && (IsWhole(y) ==> Micros(x) as real == y)
  {
  }

  lemma TiesToEven(x: real)
    requires x >= 0.0 && (x * 1000000.0 - Micros(x) as real == 0.5 || x * 1000000.0 - Micros(x) as real == -0.5)
    ensures Micros(x) % 2 == 0
  {
  }

  lemma WholeNegated(y: real)
    requires IsWhole(y)
    ensures IsWhole(-y)
  {
    assert -y == (-y.Floor) as real;
  }

  /** Printing loses at most half a millionth, and nothing of a number with six decimals. */
  lemma ShownClose(d: real)
    ensures -0.0000005 <= Shown(d) - d <= 0.0000005
    ensures IsWhole(d * 1000000.0) ==> Shown(d) == d
  {
    MicrosClose(Abs(d));
    if IsWhole(d * 1000000.0) {
      WholeNegated(d * 1000000.0);
    }
    hide Micros, IsWhole;
  }

  lemma WholeMicros(x: real)
    requires x >= 0.0 && IsWhole(x)
    ensures Micros(x) as real / 1000000.0 == x
  {
    assert x * 1000000.0 == (x.Floor * MICRO) as real;
  }

  lemma MagnitudeValue(d: real)
    ensures SignedValue(d < 0.0, RealOf(Magnitude(d))) == Shown(d)
  {
    FixedValue(Micros(Abs(d)));
    if IsWhole(d) {
      WholeNegated(d);
      WholeValue(Abs(d).Floor);
      WholeMicros(Abs(d));
      assert Abs(d).Floor as real == Abs(d);
    }
    hide FixedText, RealOf, Micros, IsWhole;
  }

  // ---- Numeric strings ----

  /** A string that std::stod reads to its end: blanks, a sign and a body. To the server the body is a
      numeral, or a name, or it is torn: it is no single token. */
  datatype Numeral =
    | Numeric(blanks: string, sign: string, digits: string)
    | Named(blanks: string, sign: string, word: string)
    | Torn(blanks: string, sign: string, text: string)

  predicate IsDecimal(s: string) {
    StartsNumeral(s) && ExponentEnd(s, MantissaEnd(s), 'e') == |s|
  }

  function HexMantissaEnd(s: string): (n: nat)
    requires |s| >= 2
    ensures 2 <= n <= |s|
  {
    var h := HexRun(s, 2);
    if h < |s| && s[h] == '.' then HexRun(s, h + 1) else h
  }

  /** 0x or 0X, hexadecimal digits with or without a point, and perhaps a binary exponent. */
  predicate IsHex(s: string) {
    && |s| > 2 && s[0] == '0' && LowerChar(s[1]) == 'x'
    && (IsHexDigit(s[2]) || (s[2] == '.' && |s| > 3 && IsHexDigit(s[3])))
    && ExponentEnd(s, HexMantissaEnd(s), 'p') == |s|
  }

  predicate NamesNoNumber(w: string) {
    Lower(w) == "inf" || Lower(w) == "infinity" || Lower(w) == "nan"
  }

  /** nan and word characters in parentheses. */
  predicate IsTaggedNan(s: string) {
    |s| >= 5 && Lower(s[..3]) == "nan" && s[3] == '(' && s[|s| - 1] == ')' && AllWord(s[4..|s| - 1])
  }

  /** A number to std::stod and a name to the server: no number's name, or a hexadecimal number that the
      server does not take for one. */
  predicate OddWord(w: string) {
    NamesNoNumber(w) || (HexWord(w) && !IsHexInteger(w))
  }

  function Blanks(s: string): (n: nat)
    ensures n <= |s| && forall i :: 0 <= i < n ==> IsSpace(s[i])
  {
    if s != "" && IsSpace(s[0]) then 1 + Blanks(s[1..]) else 0
  }

  function SignOf(t: string): (sign: string)
    ensures sign in {"", "-", "+"} && |sign| <= |t| && t[..|sign|] == sign
  {
    if t != "" && t[0] == '-' then "-" else if t != "" && t[0] == '+' then "+" else ""
  }

  function ReadNumeral(s: string): Option<Numeral> {
    var blanks, t := s[..Blanks(s)], s[Blanks(s)..];
    var sign, body := SignOf(t), t[|SignOf(t)|..];
    ReadBody(blanks, sign, body)
  }

  function ReadBody(blanks: string, sign: string, body: string): Option<Numeral> {
    if IsDecimal(body) || IsHexInteger(body) then Some(Numeric(blanks, sign, body))
    else if NamesNoNumber(body) || (IsHex(body) && AllWord(body)) then Some(Named(blanks, sign, body))
    else if IsHex(body) || IsTaggedNan(body) then Some(Torn(blanks, sign, body))
    else None
  }

  function BodyOf(n: Numeral): string {
    match n
    case Numeric(_, _, digits) => digits
    case Named(_, _, word) => word
    case Torn(_, _, text) => text
  }

  /** What a body is, by kind. */
  predicate IsBody(n: Numeral) {
    match n
    case Numeric(_, _, digits) => IsDecimal(digits) || IsHexInteger(digits)
    case Named(_, _, word) => OddWord(word)
    case Torn(_, _, text) => !AllWord(text) && (IsHex(text) || IsTaggedNan(text))
  }

  /** The parts of an accepted string, in order. */
  lemma NumeralParts(s: string)
    requires ReadNumeral(s).Some?
    ensures var n := ReadNumeral(s).value;
            && s == n.blanks + (n.sign + BodyOf(n))
            && (forall i :: 0 <= i < |n.blanks| ==> IsSpace(n.blanks[i]))
            && n.sign in {"", "-", "+"} && IsBody(n)
  {
    var t := s[Blanks(s)..];
    CutParts(s);
    BodyRead(s[..Blanks(s)], SignOf(t), t[|SignOf(t)|..]);
    hide IsSpace, SignOf, Blanks, ReadBody, IsBody;
  }

  lemma CutParts(s: string)
    ensures var t := s[Blanks(s)..];
            && s == s[..Blanks(s)] + (SignOf(t) + t[|SignOf(t)|..])
            && (forall i :: 0 <= i < Blanks(s) ==> IsSpace(s[..Blanks(s)][i]))
  {
    hide IsSpace, SignOf, Blanks;
    var t := s[Blanks(s)..];
    assert t == SignOf(t) + t[|SignOf(t)|..];
    assert s == s[..Blanks(s)] + t;
    assert forall i :: 0 <= i < Blanks(s) ==> s[..Blanks(s)][i] == s[i];
  }

  lemma BodyRead(blanks: string, sign: string, body: string)
    requires ReadBody(blanks, sign, body).Some?
    ensures var n := ReadBody(blanks, sign, body).value;
            n.blanks == blanks && n.sign == sign && BodyOf(n) == body && IsBody(n)
  {
    BodyIs(body);
    hide IsDecimal, NamesNoNumber, IsHex, IsTaggedNan, IsHexInteger, AllWord, OddWord;
  }

  lemma BodyIs(body: string)
    ensures NamesNoNumber(body) ==> OddWord(body)
    ensures IsHex(body) && AllWord(body) && !IsHexInteger(body) ==> OddWord(body)
    ensures IsTaggedNan(body) ==> !AllWord(body)
  {
    hide NamesNoNumber, IsHexInteger, ExponentEnd, HexMantissaEnd, Lower;
    TornIsNoWord(body);
  }

  lemma TornIsNoWord(s: string)
    ensures IsTaggedNan(s) ==> !AllWord(s)
  {
    assert |s| > 3 && s[3] == '(' ==> !IsWordChar(s[3]);
  }

  lemma DecimalStarts(s: string)
    requires IsDecimal(s)
    ensures Printable(Num(s))
  {
    assert StartsHex(s) ==> DigitRun(s, 0) == 1;
  }

  lemma HexStarts(s: string)
    requires IsHexInteger(s)
    ensures Printable(Num(s))
  {
  }

  lemma WordStarts(w: string)
    requires NamesNoNumber(w)
    ensures Printable(Word(w))
  {
    assert forall i :: 0 <= i < |w| ==> Lower(w)[i] == LowerChar(w[i]);
    assert |w| == 3 || |w| == 8;
    assert forall i :: 0 <= i < |w| ==> 'a' <= Lower(w)[i] <= 'z';
  }

  /** An odd word is one word of the text. */
  lemma OddWordYields(w: string)
    requires OddWord(w)
    ensures Yields(w, [Word(w)])
  {
    if NamesNoNumber(w) {
      WordStarts(w);
      TokenYields(Word(w));
    } else {
      forall follow | Loose(follow)
        ensures Lex(w + follow) == Prepend([Word(w)], Lex(follow))
      {
        hide Lex, HexWord, IsHexInteger;
        LexHexWord(w, follow);
      }
    }
  }

  lemma {:induction false} LeadsBlanks(s: string)
    requires forall i :: 0 <= i < |s| ==> IsSpace(s[i])
    ensures Leads(s, [])
  {
    if s == "" {
      forall follow
        ensures Lex(s + follow) == Prepend([], Lex(follow))
      {
        hide Lex;
        assert s + follow == follow;
        if Lex(follow).Some? {
          assert [] + Lex(follow).value == Lex(follow).value;
        }
      }
    } else {
      LeadsSpace(s[0]);
      LeadsBlanks(s[1..]);
      var none: seq<Token> := [];
      LeadsThen([s[0]], none, s[1..], none);
      assert [s[0]] + s[1..] == s;
      assert none + none == none;
    }
  }

  function SignTokens(sign: string): seq<Token> {
    if sign == "" then [] else [Sym(sign)]
  }

  lemma SignLeads(sign: string)
    requires sign in {"", "-", "+"}
    ensures Leads(sign, SignTokens(sign))
  {
    if sign == "" {
      LeadsBlanks("");
    } else {
      MarkLeads(sign);
    }
  }

  /** A signed numeral is its sign and itself. */
  lemma SignedYields(sign: string, t: Token)
    requires sign in {"", "-", "+"} && Printable(t)
    ensures Yields(sign + Print(t), SignTokens(sign) + [t])
  {
    SignLeads(sign);
    TokenYields(t);
    hide Leads, Yields, Print, SignTokens;
    LeadsYields(sign, SignTokens(sign), Print(t), [t]);
  }

  function NumeralTokens(n: Numeral): seq<Token> {
    SignTokens(n.sign) + [if n.Numeric? then Num(n.digits) else Word(BodyOf(n))]
  }

  lemma BodyYields(n: Numeral)
    requires IsBody(n) && !n.Torn?
    ensures Yields(BodyOf(n), [if n.Numeric? then Num(n.digits) else Word(BodyOf(n))])
  {
    hide Yields, OddWord, IsDecimal, IsHexInteger, Printable;
    if n.Numeric? {
      if IsDecimal(n.digits) {
        DecimalStarts(n.digits);
      } else {
        HexStarts(n.digits);
      }
      TokenYields(Num(n.digits));
    } else {
      OddWordYields(n.word);
    }
  }

  /** An accepted string that is not torn lexes as its sign and its numeral or name. */
  lemma NumeralYields(s: string)
    requires ReadNumeral(s).Some? && !ReadNumeral(s).value.Torn?
    ensures Yields(s, NumeralTokens(ReadNumeral(s).value))
  {
    var n := ReadNumeral(s).value;
    NumeralParts(s);
    hide ReadNumeral, IsBody, Leads, Yields;
    SignLeads(n.sign);
    BodyYields(n);
    LeadsBlanks(n.blanks);
    var t := if n.Numeric? then Num(n.digits) else Word(BodyOf(n));
    LeadsYields(n.sign, SignTokens(n.sign), BodyOf(n), [t]);
    LeadsYields(n.blanks, [], n.sign + BodyOf(n), SignTokens(n.sign) + [t]);
    assert [] + (SignTokens(n.sign) + [t]) == NumeralTokens(n);
  }

  lemma Unsigned(s: string)
    requires s != "" && !IsSpace(s[0]) && !IsSign(s[0])
    ensures ReadNumeral(s) == ReadBody("", "", s)
  {
    hide ReadBody;
    assert Blanks(s) == 0 && s[0..] == s && s[..0] == "" && SignOf(s) == "";
  }

  predicate AllHex(s: string) {
    forall i :: 0 <= i < |s| ==> IsHexDigit(s[i])
  }

  /** A hexadecimal number with a binary exponent is a name to the server. */
  lemma HexPowerIsNamed(h: string, e: string)
    requires h != "" && AllHex(h) && e != "" && AllDigits(e)
    ensures ReadNumeral("0x" + h + "p" + e) == Some(Named("", "", "0x" + h + "p" + e))
  {
    var s := "0x" + h + "p" + e;
    Unsigned(s);
    HexPowerParts(s, |h|);
    hide IsTaggedNan, ExponentEnd, HexMantissaEnd, MantissaEnd, AllWord, IsHexInteger, IsDecimal, IsHex, NamesNoNumber;
  }

  lemma HexPowerParts(s: string, n: nat)
    requires n > 0 && |s| > n + 3 && s[0] == '0' && s[1] == 'x' && s[n + 2] == 'p'
    requires forall i :: 2 <= i < n + 2 ==> IsHexDigit(s[i])
    requires forall i :: n + 3 <= i < |s| ==> IsDigit(s[i])
    ensures IsHex(s) && AllWord(s) && !IsHexInteger(s) && !IsDecimal(s)
  {
    assert HexRun(s, 2) == n + 2 && DigitRun(s, n + 3) == |s| && DigitRun(s, 0) == 1;
  }

  /** A hexadecimal number with a point is torn: to the server it ends at the point. */
  lemma HexPointIsTorn(h: string, f: string)
    requires h != "" && AllHex(h) && AllHex(f)
    ensures ReadNumeral("0x" + h + "." + f) == Some(Torn("", "", "0x" + h + "." + f))
  {
    var s := "0x" + h + "." + f;
    Unsigned(s);
    HexPointParts(s, |h|);
    hide IsTaggedNan, ExponentEnd, HexMantissaEnd, MantissaEnd, AllWord, IsHexInteger, IsDecimal, IsHex, NamesNoNumber;
  }

  lemma HexPointParts(s: string, n: nat)
    requires n > 0 && |s| > n + 2 && s[0] == '0' && s[1] == 'x' && s[n + 2] == '.'
    requires forall i :: 2 <= i < |s| ==> i == n + 2 || IsHexDigit(s[i])
    ensures IsHex(s) && !AllWord(s) && !IsHexInteger(s) && !IsDecimal(s) && !NamesNoNumber(s)
  {
    assert HexRun(s, 2) == n + 2 && HexRun(s, n + 3) == |s| && DigitRun(s, 0) == 1;
    assert !IsWordChar(s[n + 2]);
    assert |Lower(s)| == |s| && Lower(s)[0] == '0';
  }

  // ---- Torn numerals ----

  /** What stands in a torn numeral after its first word. */
  predicate Tears(c: char) {
    c == '.' || c == '(' || IsSign(c)
  }

  function FirstWordOf(s: string): string {
    s[..Span(s)]
  }

  function AfterWord(s: string): string {
    s[Span(s)..]
  }

  predicate IsTorn(s: string) {
    !AllWord(s) && (IsHex(s) || IsTaggedNan(s))
  }

  /** A torn numeral begins with a numeral or a name, and goes on with a point, a sign or a parenthesis. */
  lemma TornBegins(s: string)
    requires IsTorn(s)
    ensures AfterWord(s) != "" && Tears(AfterWord(s)[0]) && (HexWord(FirstWordOf(s)) || NamesNoNumber(FirstWordOf(s)))
    ensures IsHexInteger(FirstWordOf(s)) ==> AfterWord(s)[0] == '.'
  {
    var q := Span(s);
    if IsHex(s) {
      HexTorn(s);
    } else {
      assert AllWord(s[..3]) by {
        WordStarts(s[..3]);
      }
      assert forall i :: 0 <= i < 3 ==> IsWordChar(s[..3][i]) && s[..3][i] == s[i];
      assert q == 3;
      assert Lower(s[..3])[0] == LowerChar(s[0]);
    }
  }

  lemma HexTorn(s: string)
    requires !AllWord(s) && IsHex(s)
    ensures Span(s) < |s| && Tears(s[Span(s)]) && HexWord(s[..Span(s)])
    ensures IsHexInteger(s[..Span(s)]) ==> s[Span(s)] == '.'
  {
    hide Span, HexRun;
    var q, h := Span(s), HexRun(s, 2);
    assert 2 <= q < |s|;
    assert forall i :: 0 <= i < h ==> IsWordChar(s[i]);
    assert h <= q;
    if h < |s| && s[h] == '.' {
      assert q == h;
    } else {
      assert LowerChar(s[h]) == 'p' && s[..q][h] == s[h];
      assert forall i :: h + 1 < i < |s| ==> IsDigit(s[i]);
    }
  }

  /** How the text of a torn numeral lexes, whatever follows it. */
  lemma TornLexes(s: string, follow: string)
    requires ReadNumeral(s).Some? && ReadNumeral(s).value.Torn?
    ensures var n := ReadNumeral(s).value;
            IsTorn(n.text) && Lex(s + follow)
            == Prepend(SignTokens(n.sign) + [HexToken(FirstWordOf(n.text))], Lex(AfterWord(n.text) + follow))
  {
    var n := ReadNumeral(s).value;
    NumeralParts(s);
    hide ReadNumeral, IsHex, IsTaggedNan, Lex, SignTokens, HexToken, FirstWordOf, AfterWord;
    TornTextLexes(n.blanks, n.sign, n.text, follow);
  }

  lemma TornTextLexes(blanks: string, sign: string, text: string, follow: string)
    requires sign in {"", "-", "+"} && (forall i :: 0 <= i < |blanks| ==> IsSpace(blanks[i])) && IsTorn(text)
    ensures Lex(blanks + (sign + text) + follow)
         == Prepend(SignTokens(sign) + [HexToken(FirstWordOf(text))], Lex(AfterWord(text) + follow))
  {
    TornBegins(text);
    var w, rest := FirstWordOf(text), AfterWord(text);
    assert text == w + rest;
    hide IsTorn, Lex, SignTokens, HexToken, FirstWordOf, AfterWord, IsSpace, NamesNoNumber, HexWord;
    FrontLexes(blanks, sign, w + (rest + follow));
    FirstWord(w, rest + follow);
    PrependTwice(SignTokens(sign), [HexToken(w)], Lex(rest + follow));
    TornText(blanks, sign, w, rest, follow);
  }

  lemma TornText(blanks: string, sign: string, w: string, rest: string, follow: string)
    ensures blanks + (sign + (w + rest)) + follow == blanks + (sign + (w + (rest + follow)))
  {
  }

  lemma FrontLexes(blanks: string, sign: string, text: string)
    requires sign in {"", "-", "+"} && forall i :: 0 <= i < |blanks| ==> IsSpace(blanks[i])
    ensures Lex(blanks + (sign + text)) == Prepend(SignTokens(sign), Lex(text))
  {
    LeadsBlanks(blanks);
    SignLeads(sign);
    hide Lex, SignTokens, IsSpace;
    assert Lex(sign + text) == Prepend(SignTokens(sign), Lex(text));
    assert Lex(blanks + (sign + text)) == Prepend([], Lex(sign + text));
    NothingPrepended(Lex(sign + text));
  }

  lemma NothingPrepended(r: Option<seq<Token>>)
    ensures Prepend([], r) == r
  {
    if r.Some? {
      assert [] + r.value == r.value;
    }
  }

  lemma FirstWord(w: string, more: string)
    requires (HexWord(w) || NamesNoNumber(w)) && more != "" && !IsWordChar(more[0])
    ensures Lex(w + more) == Prepend([HexToken(w)], Lex(more))
  {
    hide Lex;
    if HexWord(w) {
      LexHexWord(w, more);
    } else {
      WordStarts(w);
      LexWord(w, more);
      assert !IsHexInteger(w);
    }
  }

  /** A printed number lexes as a sign, if it is negative, and a numeral. */
  lemma NumberYields(d: real)
    ensures Yields(NumberText(d), SignTokens(if d < 0.0 then "-" else "") + [Num(Magnitude(d))])
  {
    MagnitudeIsNumeral(d);
    hide Magnitude;
    SignedYields(if d < 0.0 then "-" else "", Num(Magnitude(d)));
  }

  lemma MagnitudeIsNumeral(d: real)
    ensures Printable(Num(Magnitude(d)))
  {
    FixedIsNumeral(Micros(Abs(d)));
    hide Printable, ToDec, FixedText, MantissaEnd, StartsHex;
    if IsWhole(d) {
      DigitsEnd(ToDec(Abs(d).Floor));
    }
  }
}
