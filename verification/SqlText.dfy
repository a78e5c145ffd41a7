/** SQL text: the server's escaping and lexing of literals, and text printed token by token. */
module SqlText {
  import opened Chars
  import opened Decimal
  import opened Options

  datatype Token = Word(name: string) | Num(digits: string) | Str(body: string) | Sym(mark: string)

  predicate IsWordChar(c: char) {
    IsDigit(c) || 'a' <= c <= 'z' || 'A' <= c <= 'Z' || c == '_'
  }

  predicate IsSign(c: char) {
    c == '+' || c == '-'
  }

  // ---- String literals ----

  /** mysql_real_escape_string, for one character. */
  function EscapeChar(c: char): string {
    match c
    case '\0' => "\\0"
    case '\n' => "\\n"
    case '\r' => "\\r"
    case '\U{1A}' => "\\Z"
    case '\\' => "\\\\"
    case '\'' => "\\'"
    case '\"' => "\\\""
    case _ => [c]
  }

  function Escape(s: string): string {
    if s == "" then "" else EscapeChar(s[0]) + Escape(s[1..])
  }

  /** What the server makes of a backslash and the character after it: \% and \_ stay as they are. */
  function Unescape(c: char): string {
    match c
    case '0' => "\0"
    case 'n' => "\n"
    case 'r' => "\r"
    case 'Z' => "\U{1A}"
    case 'b' => "\U{8}"
    case 't' => "\t"
    case '%' => "\\%"
    case '_' => "\\_"
    case _ => [c]
  }

  datatype Scanned = Unterminated | Closed(body: string, rest: string)

  /** Scan a string literal from just after its opening quote. */
  function ScanString(s: string): (r: Scanned)
    ensures r.Closed? ==> |r.rest| < |s|
  {
    if s == "" then Unterminated
    else if s[0] == '\'' then
      if |s| > 1 && s[1] == '\'' then Before("'", ScanString(s[2..])) else Closed("", s[1..])
    else if s[0] == '\\' then
      if |s| == 1 then Unterminated else Before(Unescape(s[1]), ScanString(s[2..]))
    else Before([s[0]], ScanString(s[1..]))
  }

  function Before(front: string, r: Scanned): Scanned {
    if r.Closed? then Closed(front + r.body, r.rest) else r
  }

  lemma ScanClosing(rest: string)
    requires rest == "" || rest[0] != '\''
    ensures ScanString("'" + rest) == Closed("", rest)
  {
    assert ("'" + rest)[1..] == rest;
  }

  /** An escaped and quoted string is one literal, and denotes the string: whatever the string is,
      nothing of it leaks into the statement. */
  lemma {:induction false} ScanEscaped(s: string, rest: string)
    requires rest == "" || rest[0] != '\''
    ensures ScanString(Escape(s) + "'" + rest) == Closed(s, rest)
  {
    hide ScanString, EscapeChar;
    if s == "" {
      ScanClosing(rest);
      assert Escape(s) + "'" + rest == "'" + rest;
    } else {
      var tail := Escape(s[1..]) + "'" + rest;
      ScanEscaped(s[1..], rest);
      assert Escape(s) + "'" + rest == EscapeChar(s[0]) + tail;
      ScanEscapedChar(s[0], tail);
      assert s == [s[0]] + s[1..];
    }
  }

  lemma EscapeSnoc(c: char, s: string)
    ensures Escape([c] + s) == EscapeChar(c) + Escape(s)
  {
    assert ([c] + s)[1..] == s;
    hide EscapeChar;
  }

  lemma {:induction false} EscapeConcat(a: string, b: string)
    ensures Escape(a + b) == Escape(a) + Escape(b)
  {
    hide Escape, EscapeChar;
    NoEscape();
    if a == "" {
      assert a + b == b;
    } else {
      EscapeConcat(a[1..], b);
      EscapeSnoc(a[0], a[1..] + b);
      EscapeSnoc(a[0], a[1..]);
      assert [a[0]] + (a[1..] + b) == a + b && [a[0]] + a[1..] == a;
    }
  }

  lemma NoEscape()
    ensures Escape("") == "" && Escape("%") == "%" && Escape(".%") == ".%"
  {
    assert "%"[1..] == "" && ".%"[1..] == "%";
  }

  lemma ScanEscapedChar(c: char, tail: string)
    ensures ScanString(EscapeChar(c) + tail) == Before([c], ScanString(tail))
  {
    var e := EscapeChar(c);
    if |e| == 1 {
      assert (e + tail)[1..] == tail;
    } else {
      assert e[0] == '\\' && Unescape(e[1]) == [c];
      assert (e + tail)[2..] == tail;
    }
  }

  // ---- The lexer ----

  /** How many leading characters are word characters. */
  function Span(s: string): (n: nat)
    ensures n <= |s| && (n < |s| ==> !IsWordChar(s[n]))
    ensures forall i :: 0 <= i < n ==> IsWordChar(s[i])
  {
    if s != "" && IsWordChar(s[0]) then 1 + Span(s[1..]) else 0
  }

  function Prepend(ts: seq<Token>, r: Option<seq<Token>>): Option<seq<Token>> {
    if r.Some? then Some(ts + r.value) else None
  }

  predicate IsMark(c: char) {
    c == '(' || c == ')' || c == ',' || c == '=' || c == '-' || c == '+' || c == '.'
  }

  /** A digit, or a point before a digit. */
  predicate StartsNumeral(s: string) {
    s != "" && (IsDigit(s[0]) || (s[0] == '.' && |s| > 1 && IsDigit(s[1])))
  }

  /** How many characters from position d on are hexadecimal digits, counted from the start. */
  function HexRun(s: string, d: nat): (n: nat)
    requires d <= |s|
    ensures d <= n <= |s| && (n < |s| ==> !IsHexDigit(s[n]))
    ensures forall i :: d <= i < n ==> IsHexDigit(s[i])
    decreases |s| - d
  {
    if d < |s| && IsHexDigit(s[d]) then HexRun(s, d + 1) else d
  }

  /** Where a whole number at position d, with or without a sign, ends; d when there is none. */
  function IntegerEnd(s: string, d: nat): (n: nat)
    requires d <= |s|
    ensures d <= n <= |s|
  {
    var g := if d < |s| && IsSign(s[d]) then d + 1 else d;
    if DigitRun(s, g) > g then DigitRun(s, g) else d
  }

  /** Where an exponent at position d, introduced by a letter, ends; d when there is none. */
  function ExponentEnd(s: string, d: nat, letter: char): (n: nat)
    requires d <= |s|
    ensures d <= n <= |s|
  {
    if d < |s| && LowerChar(s[d]) == letter && IntegerEnd(s, d + 1) > d + 1 then IntegerEnd(s, d + 1) else d
  }

  /** Where the digits and the point of a numeral end. */
  function MantissaEnd(s: string): (n: nat)
    ensures n <= |s|
  {
    var d := DigitRun(s, 0);
    if d < |s| && s[d] == '.' then DigitRun(s, d + 1) else d
  }

  /** 0x and a hexadecimal digit. */
  predicate StartsHex(s: string) {
    |s| > 2 && s[0] == '0' && s[1] == 'x' && IsHexDigit(s[2])
  }

  /** Where the numeral at the front ends; 0 when the digits there begin a name. */
  function NumEnd(s: string): (n: nat)
    ensures n <= |s|
  {
    if StartsHex(s) then
      var h := HexRun(s, 2); if h < |s| && IsWordChar(s[h]) then 0 else h
    else
      var d, e := DigitRun(s, 0), ExponentEnd(s, MantissaEnd(s), 'e');
      if e == d && d < |s| && IsWordChar(s[d]) then 0 else e
  }

  function Lex(s: string): Option<seq<Token>>
    decreases |s|
  {
    if s == "" then Some([])
    else if IsSpace(s[0]) then Lex(s[1..])
    else if s[0] == '\'' then
      var r := ScanString(s[1..]);
      if r.Closed? then Prepend([Str(r.body)], Lex(r.rest)) else None
    else if StartsNumeral(s) && NumEnd(s) > 0 then
      var n := NumEnd(s);
      Prepend([Num(s[..n])], Lex(s[n..]))
    else if IsWordChar(s[0]) then
      var n := Span(s);
      Prepend([Word(s[..n])], Lex(s[n..]))
    else if s[0] == '<' || s[0] == '>' then
      if |s| > 1 && (s[1] == '=' || (s[0] == '<' && s[1] == '>')) then Prepend([Sym(s[..2])], Lex(s[2..]))
      else Prepend([Sym(s[..1])], Lex(s[1..]))
    else if IsMark(s[0]) then Prepend([Sym(s[..1])], Lex(s[1..]))
    else None
  }

  // ---- Printing ----

  /** A token with or without a blank after it. */
  datatype Piece = Piece(token: Token, blank: bool)

  function Print(t: Token): string {
    match t
    case Word(w) => w
    case Num(d) => d
    case Str(b) => "'" + Escape(b) + "'"
    case Sym(m) => m
  }

  function Render(ps: seq<Piece>): string {
    if ps == [] then "" else Print(ps[0].token) + (if ps[0].blank then " " else "") + Render(ps[1..])
  }

  function Tokens(ps: seq<Piece>): seq<Token> {
    seq(|ps|, i requires 0 <= i < |ps| => ps[i].token)
  }

  predicate AllWord(s: string) {
    forall i :: 0 <= i < |s| ==> IsWordChar(s[i])
  }

  /** Tokens the lexer can give back. */
  predicate Printable(t: Token) {
    match t
    case Word(w) => w != "" && !IsDigit(w[0]) && AllWord(w)
    case Num(d) => StartsNumeral(d) && NumEnd(d) == |d|
    case Str(_) => true
    case Sym(m) => m in {"(", ")", ",", "=", "-", "+", ".", "<", ">", "<=", ">=", "<>"}
  }

  /** t ends where it is followed by this text. */
  predicate Ends(t: Token, follow: string) {
    follow == "" ||
    match t
    case Word(_) => !IsWordChar(follow[0])
    case Num(_) => !IsWordChar(follow[0]) && follow[0] != '.'
    case Str(_) => follow[0] != '\''
    case Sym(m) => if m == "." then !IsDigit(follow[0]) else (m == "<" || m == ">") ==>
        follow[0] != '=' && follow[0] != '>'
  }

  lemma SpanExact(s: string, follow: string)
    requires AllWord(s) && (follow == "" || !IsWordChar(follow[0]))
    ensures Span(s + follow) == |s|
  {
    var all := s + follow;
    assert forall i :: 0 <= i < |s| ==> all[i] == s[i];
    assert follow != "" ==> all[|s|] == follow[0];
  }

  lemma LexWord(w: string, follow: string)
    requires Printable(Word(w)) && Ends(Word(w), follow)
    ensures Lex(w + follow) == Prepend([Word(w)], Lex(follow))
  {
    var s := w + follow;
    SpanExact(w, follow);
    assert s[0] == w[0] && s[..|w|] == w && s[|w|..] == follow;
  }

  // ---- Numerals stay what they are ----

  lemma DigitRunStays(s: string, d: nat, follow: string)
    requires d <= |s| && (follow == "" || !IsDigit(follow[0]))
    ensures DigitRun(s + follow, d) == DigitRun(s, d)
  {
    var all := s + follow;
    assert forall i :: 0 <= i < |s| ==> all[i] == s[i];
    assert follow != "" ==> all[|s|] == follow[0];
  }

  lemma HexRunStays(s: string, d: nat, follow: string)
    requires d <= |s| && (follow == "" || !IsHexDigit(follow[0]))
    ensures HexRun(s + follow, d) == HexRun(s, d)
  {
    var all := s + follow;
    assert forall i :: 0 <= i < |s| ==> all[i] == s[i];
    assert follow != "" ==> all[|s|] == follow[0];
  }

  lemma ExponentStays(s: string, d: nat, follow: string)
    requires d <= |s| && ExponentEnd(s, d, 'e') == |s| && (follow == "" || !IsWordChar(follow[0]))
    ensures ExponentEnd(s + follow, d, 'e') == |s|
  {
    var all := s + follow;
    if d < |s| {
      var g := if IsSign(s[d + 1]) then d + 2 else d + 1;
      assert all[d] == s[d] && all[d + 1] == s[d + 1];
      DigitRunStays(s, g, follow);
    } else if follow != "" {
      assert all[d] == follow[0];
    }
  }

  lemma MantissaStays(s: string, follow: string)
    requires follow == "" || (!IsWordChar(follow[0]) && follow[0] != '.')
    ensures MantissaEnd(s + follow) == MantissaEnd(s)
  {
    var all, d := s + follow, DigitRun(s, 0);
    DigitRunStays(s, 0, follow);
    if d < |s| {
      assert all[d] == s[d];
      DigitRunStays(s, d + 1, follow);
    } else if follow != "" {
      assert all[d] == follow[0];
    }
  }

  /** A numeral ends where it is followed by neither a word character nor a point. */
  lemma NumEndStays(d: string, follow: string)
    requires StartsNumeral(d) && NumEnd(d) == |d| && Ends(Num(d), follow)
    ensures NumEnd(d + follow) == |d|
  {
    hide ExponentEnd, MantissaEnd;
    var s := d + follow;
    assert forall i :: 0 <= i < |d| ==> s[i] == d[i];
    assert follow != "" ==> s[|d|] == follow[0];
    if StartsHex(d) {
      HexRunStays(d, 2, follow);
    } else {
      NoHex(d);
      DigitRunStays(d, 0, follow);
      MantissaStays(d, follow);
      ExponentStays(d, MantissaEnd(d), follow);
    }
  }

  /** A decimal numeral has no x after a first 0. */
  lemma NoHex(d: string)
    requires StartsNumeral(d) && NumEnd(d) == |d| && !StartsHex(d)
    ensures |d| > 1 ==> d[0] != '0' || d[1] != 'x'
  {
    assert |d| > 1 && IsDigit(d[0]) && !IsDigit(d[1]) ==> DigitRun(d, 0) == 1;
  }

  lemma LexNum(d: string, follow: string)
    requires Printable(Num(d)) && Ends(Num(d), follow)
    ensures Lex(d + follow) == Prepend([Num(d)], Lex(follow))
  {
    hide NumEnd;
    var s := d + follow;
    NumEndStays(d, follow);
    assert s[0] == d[0] && (|d| > 1 ==> s[1] == d[1]);
    assert StartsNumeral(s);
    assert s[..|d|] == d && s[|d|..] == follow;
  }

  /** 0x or 0X, and word characters. */
  predicate HexWord(w: string) {
    |w| >= 2 && w[0] == '0' && LowerChar(w[1]) == 'x' && AllWord(w)
  }

  predicate IsHexInteger(s: string) {
    StartsHex(s) && HexRun(s, 2) == |s|
  }

  /** A numeral with small x and nothing but hexadecimal digits, and a name otherwise. */
  function HexToken(w: string): Token {
    if IsHexInteger(w) then Num(w) else Word(w)
  }

  lemma HexWordEnd(w: string, follow: string)
    requires HexWord(w) && Ends(Word(w), follow)
    ensures NumEnd(w + follow) == if HexToken(w).Num? then |w| else 0
  {
    var s := w + follow;
    assert forall i :: 0 <= i < |w| ==> s[i] == w[i];
    assert follow != "" ==> s[|w|] == follow[0];
    HexRunStays(w, 2, follow);
    assert DigitRun(s, 0) == 1;
    assert StartsHex(s) ==> StartsHex(w);
  }

  lemma LexHexWord(w: string, follow: string)
    requires HexWord(w) && Ends(Word(w), follow)
    ensures Lex(w + follow) == Prepend([HexToken(w)], Lex(follow))
  {
    hide NumEnd;
    var s := w + follow;
    HexWordEnd(w, follow);
    SpanExact(w, follow);
    assert s[0] == w[0] && s[..|w|] == w && s[|w|..] == follow;
  }

  lemma LexStr(b: string, follow: string)
    requires Ends(Str(b), follow)
    ensures Lex("'" + Escape(b) + "'" + follow) == Prepend([Str(b)], Lex(follow))
  {
    hide ScanString, Escape;
    var s := "'" + Escape(b) + "'" + follow;
    ScanEscaped(b, follow);
    assert s[1..] == Escape(b) + "'" + follow;
  }

  lemma LexSym(m: string, follow: string)
    requires Printable(Sym(m)) && Ends(Sym(m), follow)
    ensures Lex(m + follow) == Prepend([Sym(m)], Lex(follow))
  {
    var s := m + follow;
    assert s[0] == m[0] && s[..|m|] == m && s[|m|..] == follow;
    if |m| == 1 {
      assert |s| > 1 ==> s[1] == follow[0];
    } else {
      assert s[1] == m[1];
    }
  }

  /** The lexer reads one printed token and goes on with the rest. */
  lemma LexToken(t: Token, follow: string)
    requires Printable(t) && Ends(t, follow)
    ensures Lex(Print(t) + follow) == Prepend([t], Lex(follow))
  {
    hide Lex, Printable, Ends;
    match t
    case Word(w) => LexWord(w, follow);
    case Num(d) => LexNum(d, follow);
    case Str(b) => LexStr(b, follow);
    case Sym(m) => LexSym(m, follow);
  }

  lemma LexBlank(follow: string)
    ensures Lex(" " + follow) == Lex(follow)
  {
    assert (" " + follow)[1..] == follow;
  }

  lemma PrependTwice(a: seq<Token>, b: seq<Token>, r: Option<seq<Token>>)
    ensures Prepend(a, Prepend(b, r)) == Prepend(a + b, r)
  {
    if r.Some? {
      assert a + (b + r.value) == (a + b) + r.value;
    }
  }

  /** Pieces are printable, and those without a blank end where the next begins. */
  predicate Spaced(ps: seq<Piece>) {
    && (forall i :: 0 <= i < |ps| ==> Printable(ps[i].token))
    && (forall i :: 0 <= i < |ps| - 1 ==> ps[i].blank || Apart(ps[i].token, ps[i + 1].token))
  }

  /** t ends where u begins. */
  predicate Apart(t: Token, u: Token) {
    match t
    case Word(_) => u.Str? || u.Sym?
    case Num(_) => u.Str? || (u.Sym? && u.mark != ".")
    case Str(_) => !u.Str?
    case Sym(m) => if m == "." then u.Word? else (m == "<" || m == ">") ==> u.Word? || u.Num? || u.Str?
  }

  lemma ApartEnds(t: Token, u: Token, follow: string)
    requires Printable(t) && Printable(u) && Apart(t, u)
    ensures Ends(t, Print(u) + follow)
  {
  }

  /** The pieces end where they are followed by this text. */
  predicate EndsAt(ps: seq<Piece>, follow: string) {
    ps == [] || ps[|ps| - 1].blank || Ends(ps[|ps| - 1].token, follow)
  }

  /** The first piece ends where the rest of the text begins. */
  lemma HeadEnds(ps: seq<Piece>, follow: string)
    requires Spaced(ps) && EndsAt(ps, follow) && ps != [] && !ps[0].blank
    ensures Ends(ps[0].token, Render(ps[1..]) + follow)
  {
    if |ps| > 1 {
      var u := ps[1].token;
      var rest := (if ps[1].blank then " " else "") + Render(ps[1..][1..]) + follow;
      assert Render(ps[1..]) + follow == Print(u) + rest;
      ApartEnds(ps[0].token, u, rest);
    } else {
      assert Render(ps[1..]) + follow == follow;
    }
  }

  lemma LexPiece(p: Piece, more: string)
    requires Printable(p.token) && (p.blank || Ends(p.token, more))
    ensures Lex(Print(p.token) + (if p.blank then " " else "") + more) == Prepend([p.token], Lex(more))
  {
    hide Lex, Print, Printable;
    if p.blank {
      assert Print(p.token) + " " + more == Print(p.token) + (" " + more);
      LexToken(p.token, " " + more);
      LexBlank(more);
    } else {
      assert Print(p.token) + "" + more == Print(p.token) + more;
      LexToken(p.token, more);
    }
  }

  /** Printed text lexes back to its tokens, whatever follows it. */
  lemma {:induction false} LexRendered(ps: seq<Piece>, follow: string)
    requires Spaced(ps) && EndsAt(ps, follow)
    ensures Lex(Render(ps) + follow) == Prepend(Tokens(ps), Lex(follow))
  {
    hide Lex, Print, Printable, Ends, Apart;
    if ps == [] {
      assert Render(ps) + follow == follow;
      if Lex(follow).Some? {
        assert Tokens(ps) + Lex(follow).value == Lex(follow).value;
      }
    } else {
      var more := Render(ps[1..]) + follow;
      LexRendered(ps[1..], follow);
      if !ps[0].blank {
        HeadEnds(ps, follow);
      }
      LexPiece(ps[0], more);
      assert Render(ps) + follow == Print(ps[0].token) + (if ps[0].blank then " " else "") + more;
      assert Tokens(ps) == [ps[0].token] + Tokens(ps[1..]);
      PrependTwice([ps[0].token], Tokens(ps[1..]), Lex(follow));
    }
  }

  lemma {:induction false} RenderConcat(a: seq<Piece>, b: seq<Piece>)
    ensures Render(a + b) == Render(a) + Render(b)
  {
    hide Print;
    if a == [] {
      assert a + b == b;
      assert Render(a) + Render(b) == Render(b);
    } else {
      RenderConcat(a[1..], b);
      assert (a + b)[1..] == a[1..] + b && (a + b)[0] == a[0];
      var head := Print(a[0].token) + (if a[0].blank then " " else "");
      assert head + Render(a[1..]) + Render(b) == head + (Render(a[1..]) + Render(b));
    }
  }

  lemma TokensConcat(a: seq<Piece>, b: seq<Piece>)
    ensures Tokens(a + b) == Tokens(a) + Tokens(b)
  {
  }

  // ---- Texts and the tokens they are read as ----

  /** What every token but an opening string quote may be followed by. */
  predicate Loose(follow: string) {
    follow == "" || follow[0] == ' ' || follow[0] == ')' || follow[0] == ','
  }

  /** The text is these tokens, where a blank, a closing parenthesis or a comma follows. */
  ghost predicate Yields(text: string, ts: seq<Token>) {
    forall follow {:trigger Lex(text + follow)} :: Loose(follow) ==> Lex(text + follow) == Prepend(ts, Lex(follow))
  }

  /** The text is these tokens, whatever follows. */
  ghost predicate Leads(text: string, ts: seq<Token>) {
    forall follow {:trigger Lex(text + follow)} :: Lex(text + follow) == Prepend(ts, Lex(follow))
  }

  lemma LeadsRendered(ps: seq<Piece>)
    requires Spaced(ps) && (ps == [] || ps[|ps| - 1].blank || ps[|ps| - 1].token == Sym("("))
    ensures Leads(Render(ps), Tokens(ps))
  {
    hide Lex, Render, Tokens, Spaced;
    forall follow
      ensures Lex(Render(ps) + follow) == Prepend(Tokens(ps), Lex(follow))
    {
      LexRendered(ps, follow);
    }
  }

  lemma YieldsRendered(ps: seq<Piece>)
    requires Spaced(ps)
    ensures Yields(Render(ps), Tokens(ps))
  {
    hide Lex, Render, Tokens, Spaced;
    forall follow | Loose(follow)
      ensures Lex(Render(ps) + follow) == Prepend(Tokens(ps), Lex(follow))
    {
      LexRendered(ps, follow);
    }
  }

  lemma LeadsThen(a: string, ta: seq<Token>, b: string, tb: seq<Token>)
    requires Leads(a, ta) && Leads(b, tb)
    ensures Leads(a + b, ta + tb)
  {
    hide Lex;
    forall follow
      ensures Lex(a + b + follow) == Prepend(ta + tb, Lex(follow))
    {
      assert a + b + follow == a + (b + follow);
      assert Lex(b + follow) == Prepend(tb, Lex(follow));
      PrependTwice(ta, tb, Lex(follow));
    }
  }

  lemma LeadsYields(a: string, ta: seq<Token>, b: string, tb: seq<Token>)
    requires Leads(a, ta) && Yields(b, tb)
    ensures Yields(a + b, ta + tb)
  {
    hide Lex;
    forall follow | Loose(follow)
      ensures Lex(a + b + follow) == Prepend(ta + tb, Lex(follow))
    {
      assert a + b + follow == a + (b + follow);
      assert Lex(b + follow) == Prepend(tb, Lex(follow));
      PrependTwice(ta, tb, Lex(follow));
    }
  }

  lemma YieldsThen(a: string, ta: seq<Token>, b: string, tb: seq<Token>)
    requires Yields(a, ta) && Yields(b, tb) && b != "" && Loose(b)
    ensures Yields(a + b, ta + tb)
  {
    hide Lex;
    forall follow | Loose(follow)
      ensures Lex(a + b + follow) == Prepend(ta + tb, Lex(follow))
    {
      assert a + b + follow == a + (b + follow);
      assert Loose(b + follow);
      assert Lex(b + follow) == Prepend(tb, Lex(follow));
      PrependTwice(ta, tb, Lex(follow));
    }
  }

  lemma YieldsLeads(a: string, ta: seq<Token>, b: string, tb: seq<Token>)
    requires Yields(a, ta) && Leads(b, tb) && b != "" && Loose(b)
    ensures Leads(a + b, ta + tb)
  {
    hide Lex;
    forall follow
      ensures Lex(a + b + follow) == Prepend(ta + tb, Lex(follow))
    {
      assert a + b + follow == a + (b + follow);
      assert Loose(b + follow);
      assert Lex(b + follow) == Prepend(tb, Lex(follow));
      PrependTwice(ta, tb, Lex(follow));
    }
  }

  /** Before any token, blanks do not matter. */
  lemma LeadsSpace(c: char)
    requires IsSpace(c)
    ensures Leads([c], [])
  {
    forall follow
      ensures Lex([c] + follow) == Prepend([], Lex(follow))
    {
      assert ([c] + follow)[1..] == follow;
      if Lex(follow).Some? {
        assert [] + Lex(follow).value == Lex(follow).value;
      }
    }
  }

  lemma RenderOne(p: Piece)
    ensures Render([p]) == Print(p.token) + (if p.blank then " " else "")
  {
    assert [p][1..] == [];
    hide Print;
  }

  lemma TokenYields(t: Token)
    requires Printable(t)
    ensures Yields(Print(t), [t])
  {
    var ps := [Piece(t, false)];
    assert Spaced(ps);
    YieldsRendered(ps);
    RenderOne(ps[0]);
    assert Tokens(ps) == [t];
    hide Print, Yields, Render;
    assert Print(t) + "" == Print(t);
  }

  lemma MarkLeads(m: string)
    requires m in {"(", ")", ",", "=", "-", "+"}
    ensures Leads(m, [Sym(m)])
  {
    forall follow
      ensures Lex(m + follow) == Prepend([Sym(m)], Lex(follow))
    {
      LexSym(m, follow);
    }
  }
}
