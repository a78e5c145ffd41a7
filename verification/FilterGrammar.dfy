/** The other half of how filters are read: a filter with a torn number has no reading that keeps to the
    vocabulary, wherever in the filter the number stands. */
module FilterGrammar {
  import opened Options
  import opened Chars
  import opened Canon
  import opened SqlText
  import opened SqlParser
  import opened SqlReading
  import opened Numerals
  import opened SqlMeaning
  import opened Query
  import opened FilterMeaning
  import opened FilterReading
  import opened FilterLaws

  // ---- Readings that go astray ----

  /** No context goes on from here. */
  predicate Stuck(ts: seq<Token>) {
    ts != [] && (ts[0].Num? || ts[0] == Sym("."))
  }

  predicate OffOperand(r: Parse<Operand>) {
    r.Parsed? ==> Stuck(r.rest) || !(OperandNames(r.value) <= VOCABULARY)
  }

  predicate OffList(r: Parse<seq<Operand>>) {
    r.Parsed? ==> !(ListNames(r.value) <= VOCABULARY)
  }

  ghost predicate Off(r: Parse<Expr>) {
    r.Parsed? ==> Stuck(r.rest) || !(Names(r.value) <= VOCABULARY)
  }

  /** Read as an operand, the text ends where nothing can go on, or names something outside the vocabulary. */
  ghost predicate AstrayOperand(text: string) {
    forall follow {:trigger Lex(text + follow)} ::
      Loose(follow) && Lex(text + follow).Some? ==> OffOperand(ParseOperand(Lex(text + follow).value))
  }

  /** The same of a text read as a condition. */
  ghost predicate Astray(text: string) {
    forall follow {:trigger Lex(text + follow)} ::
      Loose(follow) && Lex(text + follow).Some? ==> Off(ParseNot(Lex(text + follow).value))
  }

  // ---- Operands ----

  /** Text that begins with a point lexes as a point or as a numeral. */
  lemma PointSticks(s: string)
    requires s != "" && s[0] == '.' && Lex(s).Some?
    ensures Stuck(Lex(s).value)
  {
  }

  lemma WordIsOff(w: string, sign: string, more: seq<Token>)
    requires sign in {"", "-", "+"} && w !in VOCABULARY && !IsKeyword(w)
    ensures OffOperand(ParseOperand(SignTokens(sign) + [Word(w)] + more))
  {
    hide VOCABULARY, IsKeyword, Stuck;
    var ts := SignTokens(sign) + [Word(w)] + more;
    if sign == "" {
      assert ts[0] == Word(w);
      assert w != "CAST" by {
        assert IsKeyword("CAST") by { CastIsKeyword(); }
      }
    } else {
      assert ts[0] == Sym(sign) && ts[1] == Word(w);
    }
  }

  lemma CastIsKeyword()
    ensures IsKeyword("CAST")
  {
  }

  lemma NumberIsOff(digits: string, sign: string, more: seq<Token>)
    requires sign in {"", "-", "+"} && Stuck(more)
    ensures OffOperand(ParseOperand(SignTokens(sign) + [Num(digits)] + more))
  {
    hide VOCABULARY, Stuck;
    var ts := SignTokens(sign) + [Num(digits)] + more;
    if sign == "" {
      assert ts[0] == Num(digits) && ts[1..] == more;
    } else {
      assert ts[0] == Sym(sign) && ts[1] == Num(digits) && ts[2..] == more;
    }
  }

  lemma TornHead(text: string, follow: string)
    requires IsTorn(text) && Lex(AfterWord(text) + follow).Some?
    ensures var t := HexToken(FirstWordOf(text));
            if t.Num? then Stuck(Lex(AfterWord(text) + follow).value)
            else t.Word? && t.name !in VOCABULARY && !IsKeyword(t.name)
  {
    TornBegins(text);
    var w, rest := FirstWordOf(text), AfterWord(text);
    NotKeyword(w);
    hide IsTorn, FirstWordOf, AfterWord, Lex, VOCABULARY, Stuck, NamesNoNumber, IsKeyword, IsHexInteger, HexWord;
    if IsHexInteger(w) {
      PointSticks(rest + follow);
    } else {
      NoNumberUnnamed(w);
    }
  }

  lemma TornIsAstray(s: string)
    requires ReadNumeral(s).Some? && ReadNumeral(s).value.Torn?
    ensures AstrayOperand(s)
  {
    hide ReadNumeral, IsTorn, Lex, ParseOperand, OffOperand, FirstWordOf, AfterWord, HexToken, SignTokens, VOCABULARY,
        IsKeyword;
    var n := ReadNumeral(s).value;
    NumeralParts(s);
    hide IsBody;
    forall follow | Loose(follow) && Lex(s + follow).Some?
      ensures OffOperand(ParseOperand(Lex(s + follow).value))
    {
      TornLexes(s, follow);
      TornHead(n.text, follow);
      var t, more := HexToken(FirstWordOf(n.text)), Lex(AfterWord(n.text) + follow).value;
      if t.Num? {
        NumberIsOff(t.digits, n.sign, more);
      } else {
        WordIsOff(t.name, n.sign, more);
      }
    }
  }

  lemma LiteralAstray(kind: Kind, v: Json)
    requires Literal(kind, v).Some? && !ScalarRead(true, kind, v)
    ensures AstrayOperand(Literal(kind, v).value)
  {
    hide ReadNumeral, AstrayOperand;
    TornIsAstray(v.s);
  }

  // ---- Single conditions ----

  /** How a text lexes behind another that lexes by itself. */
  lemma Behind(front: string, ts: seq<Token>, text: string, follow: string)
    requires Leads(front, ts) && Lex(front + text + follow).Some?
    ensures Lex(text + follow).Some? && Lex(front + text + follow).value == ts + Lex(text + follow).value
  {
    hide Lex;
    assert front + text + follow == front + (text + follow);
  }

  /** A field and what stands between it and its value. */
  lemma FieldLeads(field: string, middle: string, ts: seq<Token>)
    requires Plain(field) && Leads(middle, ts) && middle != "" && middle[0] == ' '
    ensures Leads(field + middle, [Word(field)] + ts)
  {
    FieldReads(field);
    hide Plain, Leads, Yields, OperandReads;
    YieldsLeads(field, [Word(field)], middle, ts);
  }

  /** The condition that begins with a field and a suffix. */
  lemma FieldSuffix(field: string, ts: seq<Token>)
    requires Plain(field) && ts != [] && ts[0] != Sym(".")
    ensures ParseNot([Word(field)] + ts) == ParseSuffix(Column("", field), ts)
  {
    hide ParseSuffix;
    var all := [Word(field)] + ts;
    assert all[0] == Word(field) && all[1..] == ts && all[1] == ts[0];
    FieldIsNoKeyword(field);
    hide IsKeyword;
    assert ParseOperand(all) == Parsed(Column("", field), ts);
  }

  lemma FieldIsNoKeyword(field: string)
    requires Plain(field)
    ensures !IsKeyword(field) && field != "NOT" && field != "EXISTS" && field != "CAST"
  {
  }

  lemma SuffixCompares(left: Operand, op: Token, more: seq<Token>)
    requires ComparisonOf(op).Some? && OffOperand(ParseOperand(more))
    ensures Off(ParseSuffix(left, [op] + more))
  {
    hide VOCABULARY, OperandNames, ParseOperand, Stuck;
    assert ([op] + more)[1..] == more;
  }

  lemma ComparedAstray(field: string, op: Token, text: string)
    requires Plain(field) && Printable(op) && ComparisonOf(op).Some? && AstrayOperand(text)
    ensures Astray(Compared(field, op, text))
  {
    hide Plain, Printable, Leads, Lex, Off, OffOperand, ParseOperand, ParseSuffix, ParseNot, Print, ComparisonOf;
    BetweenBlanks(op);
    var middle := " " + Print(op) + " ";
    FieldLeads(field, middle, [op]);
    forall follow | Loose(follow) && Lex(Compared(field, op, text) + follow).Some?
      ensures Off(ParseNot(Lex(Compared(field, op, text) + follow).value))
    {
      assert Compared(field, op, text) == field + middle + text;
      Behind(field + middle, [Word(field)] + [op], text, follow);
      var more := Lex(text + follow).value;
      SuffixCompares(Column("", field), op, more);
      OperatorIsNoPoint(op);
      FieldSuffix(field, [op] + more);
      assert [Word(field)] + [op] + more == [Word(field)] + ([op] + more);
    }
  }

  lemma OperatorIsNoPoint(op: Token)
    requires ComparisonOf(op).Some?
    ensures op != Sym(".")
  {
  }

  // ---- Lists ----

  lemma {:induction false} ListNamesMore(o: Operand, os: seq<Operand>)
    ensures ListNames([o] + os) == OperandNames(o) + ListNames(os)
  {
    assert ([o] + os)[1..] == os;
    hide OperandNames;
  }

  lemma ListIsOff(ts: seq<Token>)
    requires OffOperand(ParseOperand(ts))
    ensures OffList(ParseList(ts))
  {
    hide VOCABULARY, OperandNames, ParseOperand;
    if ParseList(ts).Parsed? {
      var o := ParseOperand(ts).value;
      var os := ParseList(ts).value;
      assert os == [o] + os[1..];
      ListNamesMore(o, os[1..]);
    }
  }

  lemma ListGoesOff(ts: seq<Token>, o: Operand, more: seq<Token>)
    requires ParseOperand(ts) == Parsed(o, [Sym(",")] + more) && OffList(ParseList(more))
    ensures OffList(ParseList(ts))
  {
    hide VOCABULARY, OperandNames, ParseOperand, ListNames;
    assert ([Sym(",")] + more)[1..] == more;
    if ParseList(more).Parsed? {
      ListNamesMore(o, ParseList(more).value);
    }
  }

  /** The texts of a list, the parenthesis that closes it, and what follows. */
  function ListText(texts: seq<string>, follow: string): string
    requires texts != []
  {
    JoinText(", ", texts) + (")" + follow)
  }

  lemma ListTextSplits(texts: seq<string>, follow: string)
    requires texts != []
    ensures ListText(texts, follow)
         == texts[0] + (if |texts| == 1 then ")" + follow else ", " + ListText(texts[1..], follow))
  {
  }

  lemma {:induction false} ListAstray(kind: Kind, vs: seq<Json>, texts: seq<string>, follow: string)
    requires vs != [] && |texts| == |vs| && forall i :: 0 <= i < |vs| ==> Literal(kind, vs[i]) == Some(texts[i])
    requires !ScalarsRead(true, kind, vs) && Lex(ListText(texts, follow)).Some?
    ensures OffList(ParseList(Lex(ListText(texts, follow)).value))
    decreases |vs|
  {
    hide Lex, Literal, ScalarRead, ListText, OffList, OffOperand, ParseList, ParseOperand, Yields, OperandReads, Leads;
    ListTextSplits(texts, follow);
    var rest := if |texts| == 1 then ")" + follow else ", " + ListText(texts[1..], follow);
    assert Loose(rest);
    if !ScalarRead(true, kind, vs[0]) {
      LiteralAstray(kind, vs[0]);
      assert OffOperand(ParseOperand(Lex(texts[0] + rest).value));
      ListIsOff(Lex(texts[0] + rest).value);
    } else {
      TailTorn(kind, vs);
      ListStep(kind, vs[0], texts[0], ListText(texts[1..], follow));
      ListAstray(kind, vs[1..], texts[1..], follow);
      ListGoesOff(Lex(texts[0] + rest).value, LiteralOperand(kind, vs[0]), Lex(ListText(texts[1..], follow)).value);
    }
  }

  lemma TailTorn(kind: Kind, vs: seq<Json>)
    requires vs != [] && ScalarRead(true, kind, vs[0]) && !ScalarsRead(true, kind, vs)
    ensures |vs| > 1 && !ScalarsRead(true, kind, vs[1..])
  {
    hide ScalarRead;
    assert forall i :: 1 <= i < |vs| ==> vs[i] == vs[1..][i - 1];
  }

  lemma ListStep(kind: Kind, v: Json, text: string, more: string)
    requires Literal(kind, v) == Some(text) && ScalarRead(true, kind, v) && Lex(text + (", " + more)).Some?
    ensures Lex(more).Some?
    ensures ParseOperand(Lex(text + (", " + more)).value)
        == Parsed(LiteralOperand(kind, v), [Sym(",")] + Lex(more).value)
  {
    hide Lex, Literal, LiteralOperand, ScalarRead, ParseOperand;
    var ts := LiteralReads(kind, v);
    CommaLeads();
    assert Lex(text + (", " + more)) == Prepend(ts, Lex(", " + more));
    assert Lex(", " + more) == Prepend([Sym(",")], Lex(more));
    var rest := [Sym(",")] + Lex(more).value;
    assert ParseOperand(ts + rest) == Parsed(LiteralOperand(kind, v), rest);
  }

  lemma InIsOff(field: string, more: seq<Token>)
    requires Plain(field) && OffList(ParseList(more))
    ensures Off(ParseNot([Word(field)] + [Word("IN"), Sym("(")] + more))
  {
    hide VOCABULARY, Plain, ParseList, ListNames, ParseNot;
    var ts := [Word("IN"), Sym("(")] + more;
    assert [Word(field)] + [Word("IN"), Sym("(")] + more == [Word(field)] + ts;
    FieldSuffix(field, ts);
    assert ts[2..] == more;
  }

  lemma InLeads()
    ensures Leads(" IN (", [Word("IN"), Sym("(")])
  {
    WordBetween("IN");
    MarkLeads("(");
    hide Leads;
    LeadsThen(" " + "IN" + " ", [Word("IN")], "(", [Sym("(")]);
    assert " " + "IN" + " " + "(" == " IN (" && [Word("IN")] + [Sym("(")] == [Word("IN"), Sym("(")];
  }

  lemma InAstray(field: string, kind: Kind, vs: seq<Json>, texts: seq<string>)
    requires vs != [] && |texts| == |vs| && forall i :: 0 <= i < |vs| ==> Literal(kind, vs[i]) == Some(texts[i])
    requires Plain(field) && !ScalarsRead(true, kind, vs)
    ensures Astray(field + " IN (" + JoinText(", ", texts) + ")")
  {
    hide Plain, Leads, Lex, Off, OffList, ParseList, ParseNot, Literal, ScalarsRead, JoinText;
    InLeads();
    FieldLeads(field, " IN (", [Word("IN"), Sym("(")]);
    var text := field + " IN (" + JoinText(", ", texts) + ")";
    forall follow | Loose(follow) && Lex(text + follow).Some?
      ensures Off(ParseNot(Lex(text + follow).value))
    {
      assert text + follow == field + " IN (" + ListText(texts, follow) + "";
      Behind(field + " IN (", [Word(field)] + [Word("IN"), Sym("(")], ListText(texts, follow), "");
      assert ListText(texts, follow) + "" == ListText(texts, follow);
      ListAstray(kind, vs, texts, follow);
      InIsOff(field, Lex(ListText(texts, follow)).value);
    }
  }

  // ---- Ranges ----

  lemma BetweenIsOff(field: string, more: seq<Token>)
    requires Plain(field) && OffOperand(ParseOperand(more))
    ensures Off(ParseNot([Word(field)] + [Word("BETWEEN")] + more))
  {
    hide VOCABULARY, Plain, ParseOperand, OperandNames, ParseNot;
    var ts := [Word("BETWEEN")] + more;
    assert [Word(field)] + [Word("BETWEEN")] + more == [Word(field)] + ts;
    FieldSuffix(field, ts);
    assert ts[1..] == more;
  }

  lemma BetweenGoesOff(field: string, ts: seq<Token>, low: Operand, more: seq<Token>)
    requires Plain(field) && ParseOperand(ts) == Parsed(low, [Word("AND")] + more) && OffOperand(ParseOperand(more))
    ensures Off(ParseNot([Word(field)] + [Word("BETWEEN")] + ts))
  {
    hide VOCABULARY, Plain, ParseOperand, OperandNames, ParseNot, Stuck;
    var all := [Word("BETWEEN")] + ts;
    assert [Word(field)] + [Word("BETWEEN")] + ts == [Word(field)] + all;
    FieldSuffix(field, all);
    assert all[1..] == ts && ([Word("AND")] + more)[1..] == more;
  }

  lemma BetweenAstray(field: string, kind: Kind, low: Json, high: Json, a: string, b: string)
    requires Literal(kind, low) == Some(a) && Literal(kind, high) == Some(b)
    requires Plain(field) && !(ScalarRead(true, kind, low) && ScalarRead(true, kind, high))
    ensures Astray(field + " BETWEEN " + a + " AND " + b)
  {
    hide Plain, Leads, Lex, Off, OffOperand, ParseOperand, ParseNot, Literal, ScalarRead;
    WordBetween("BETWEEN");
    assert " " + "BETWEEN" + " " == " BETWEEN ";
    FieldLeads(field, " BETWEEN ", [Word("BETWEEN")]);
    var text := field + " BETWEEN " + a + " AND " + b;
    forall follow | Loose(follow) && Lex(text + follow).Some?
      ensures Off(ParseNot(Lex(text + follow).value))
    {
      var rest := " AND " + (b + follow);
      assert text + follow == field + " BETWEEN " + a + rest;
      Behind(field + " BETWEEN ", [Word(field)] + [Word("BETWEEN")], a, rest);
      if !ScalarRead(true, kind, low) {
        LiteralAstray(kind, low);
        assert OffOperand(ParseOperand(Lex(a + rest).value));
        BetweenIsOff(field, Lex(a + rest).value);
      } else {
        LiteralAstray(kind, high);
        RangeStep(kind, low, a, b + follow);
        BetweenGoesOff(field, Lex(a + rest).value, LiteralOperand(kind, low), Lex(b + follow).value);
      }
    }
  }

  lemma RangeStep(kind: Kind, v: Json, text: string, more: string)
    requires Literal(kind, v) == Some(text) && ScalarRead(true, kind, v) && Lex(text + (" AND " + more)).Some?
    ensures Lex(more).Some?
    ensures ParseOperand(Lex(text + (" AND " + more)).value)
        == Parsed(LiteralOperand(kind, v), [Word("AND")] + Lex(more).value)
  {
    hide Lex, Literal, LiteralOperand, ScalarRead, ParseOperand;
    var ts := LiteralReads(kind, v);
    WordBetween("AND");
    assert " " + "AND" + " " == " AND ";
    assert Lex(text + (" AND " + more)) == Prepend(ts, Lex(" AND " + more));
    assert Lex(" AND " + more) == Prepend([Word("AND")], Lex(more));
    var rest := [Word("AND")] + Lex(more).value;
    assert ParseOperand(ts + rest) == Parsed(LiteralOperand(kind, v), rest);
  }

  // ---- Fields ----

  /** A comparison with a torn number has no reading that keeps to the vocabulary. */
  lemma FieldAstray(field: string, kind: Kind, op: string, node: Node)
    requires Plain(field) && FieldKind(field) == Some(kind) && CompileField(field, kind, op, node).Ok?
    requires !FieldRead(true, kind, op, node)
    ensures Astray(CompileField(field, kind, op, node).value)
  {
    hide Plain, Astray, Literal, ScalarRead, JoinText, FieldKind, Designations, DesignationTexts, ComparisonOf,
        Printable, BinOp, Compared;
    if ByDesignation(field, op, node) {
      ObjectRead(kind, op, node);
    } else {
      ValueCompiled(field, kind, op, node);
      var v := node["value"];
      if op == "in" {
        InAstray(field, kind, v.items, Literals(kind, v.items).value);
      } else if op == "between" {
        PairIsRead(true, kind, v.items);
        BetweenAstray(field, kind, v.items[0], v.items[1], Literal(kind, v.items[0]).value,
            Literal(kind, v.items[1]).value);
      } else {
        BinOpReads(op);
        LiteralAstray(kind, v);
        ComparedAstray(field, BinOp(op).value, Literal(kind, v).value);
      }
    }
  }

  lemma ObjectRead(kind: Kind, op: string, node: Node)
    requires FieldKind("object") == Some(kind) && ByDesignation("object", op, node)
    ensures FieldRead(true, kind, op, node)
  {
    ObjectColumn();
    hide FieldKind;
  }

  lemma PairIsRead(named: bool, kind: Kind, vs: seq<Json>)
    requires |vs| == 2
    ensures ScalarsRead(named, kind, vs) <==> ScalarRead(named, kind, vs[0]) && ScalarRead(named, kind, vs[1])
  {
    hide ScalarRead;
  }

  lemma ComparisonAstray(node: Node)
    requires CompileComparison(node).Ok? && !ComparisonRead(true, node)
    ensures Astray(CompileComparison(node).value)
  {
    hide Astray, Plain, CompileField, FieldRead, FieldKind, CompileKeyword;
    var field := node["field"].s;
    FieldIsPlain(field);
    FieldAstray(field, FieldKind(field).value, OpOf(node, "eq").value, node);
  }

  // ---- Conditions in conditions ----

  /** A name outside the vocabulary stays in the conjunction. */
  lemma {:induction false} AndTailOff(e: Expr, ts: seq<Token>)
    requires !(Names(e) <= VOCABULARY)
    ensures AndTail(e, ts).Parsed? ==> !(Names(AndTail(e, ts).value) <= VOCABULARY)
    decreases |ts|
  {
    hide VOCABULARY, ParseNot;
    if Starts(ts, Word("AND")) && ParseNot(ts[1..]).Parsed? {
      AndTailOff(And(e, ParseNot(ts[1..]).value), ParseNot(ts[1..]).rest);
    }
  }

  lemma {:induction false} OrTailOff(e: Expr, ts: seq<Token>)
    requires !(Names(e) <= VOCABULARY)
    ensures OrTail(e, ts).Parsed? ==> !(Names(OrTail(e, ts).value) <= VOCABULARY)
    decreases |ts|
  {
    hide VOCABULARY, ParseAnd;
    if Starts(ts, Word("OR")) && ParseAnd(ts[1..]).Parsed? {
      OrTailOff(Or(e, ParseAnd(ts[1..]).value), ParseAnd(ts[1..]).rest);
    }
  }

  lemma StuckTails(e: Expr, ts: seq<Token>)
    requires Stuck(ts)
    ensures AndTail(e, ts) == Parsed(e, ts) && OrTail(e, ts) == Parsed(e, ts)
  {
  }

  lemma AndIsOff(ts: seq<Token>)
    requires Off(ParseNot(ts))
    ensures Off(ParseAnd(ts))
  {
    hide VOCABULARY, ParseNot, AndTail, Names, Stuck;
    if ParseNot(ts).Parsed? {
      var e, rest := ParseNot(ts).value, ParseNot(ts).rest;
      if Stuck(rest) {
        StuckTails(e, rest);
      } else {
        AndTailOff(e, rest);
      }
    }
  }

  lemma OrIsOff(ts: seq<Token>)
    requires Off(ParseAnd(ts))
    ensures Off(ParseOr(ts))
  {
    hide VOCABULARY, ParseAnd, OrTail, Names, Stuck;
    if ParseAnd(ts).Parsed? {
      var e, rest := ParseAnd(ts).value, ParseAnd(ts).rest;
      if Stuck(rest) {
        StuckTails(e, rest);
      } else {
        OrTailOff(e, rest);
      }
    }
  }

  lemma ParensAreOff(ts: seq<Token>)
    requires Off(ParseOr(ts))
    ensures Off(ParseNot([Sym("(")] + ts))
  {
    hide VOCABULARY, ParseOr, Names;
    var all := [Sym("(")] + ts;
    assert all[0] == Sym("(") && all[1..] == ts;
    var r := ParseOr(ts);
    assert ParsePredicate(all) == if r.Parsed? && Starts(r.rest, Sym(")")) then Parsed(r.value, r.rest[1..]) else Fail;
  }

  lemma NotIsOff(ts: seq<Token>)
    requires Off(ParseNot(ts))
    ensures Off(ParseNot([Word("NOT")] + ts))
  {
    hide VOCABULARY, ParsePredicate, Stuck;
    var all := [Word("NOT")] + ts;
    assert all[0] == Word("NOT") && all[1..] == ts;
    var r := ParseNot(ts);
    assert ParseNot(all) == if r.Parsed? then Parsed(Not(r.value), r.rest) else Fail;
  }

  lemma NotParenLeads()
    ensures Leads("NOT (", [Word("NOT"), Sym("(")])
  {
    WordLeads("NOT");
    MarkLeads("(");
    hide Leads;
    LeadsThen("NOT" + " ", [Word("NOT")], "(", [Sym("(")]);
    assert "NOT" + " " + "(" == "NOT (" && [Word("NOT")] + [Sym("(")] == [Word("NOT"), Sym("(")];
  }

  lemma NotAstray(text: string)
    requires Astray(text)
    ensures Astray("NOT (" + text + ")")
  {
    hide Leads, Lex, Off, ParseNot, ParseOr, ParseAnd;
    NotParenLeads();
    var whole := "NOT (" + text + ")";
    forall follow | Loose(follow) && Lex(whole + follow).Some?
      ensures Off(ParseNot(Lex(whole + follow).value))
    {
      assert whole + follow == "NOT (" + text + (")" + follow);
      Behind("NOT (", [Word("NOT"), Sym("(")], text, ")" + follow);
      var more := Lex(text + (")" + follow)).value;
      AndIsOff(more);
      OrIsOff(more);
      ParensAreOff(more);
      NotIsOff([Sym("(")] + more);
      assert [Word("NOT"), Sym("(")] + more == [Word("NOT")] + ([Sym("(")] + more);
    }
  }

  // ---- Groups ----

  /** A text that reads as some condition in every context. */
  ghost predicate Good(text: string) {
    exists ts: seq<Token>, e: Expr :: Yields(text, ts) && Reads(ts, e)
  }

  ghost predicate Mixed(texts: seq<string>) {
    forall i :: 0 <= i < |texts| ==> Good(texts[i]) || Astray(texts[i])
  }

  ghost predicate SomeAstray(texts: seq<string>) {
    exists i :: 0 <= i < |texts| && Astray(texts[i])
  }

  function Joiner(and: bool): string {
    if and then " AND " else " OR "
  }

  function JoinToken(and: bool): Token {
    if and then Word("AND") else Word("OR")
  }

  /** The texts of a group, the parenthesis that closes it, and what follows. */
  function GroupText(and: bool, texts: seq<string>, follow: string): string
    requires texts != []
  {
    JoinText(Joiner(and), texts) + (")" + follow)
  }

  lemma GroupTextSplits(and: bool, texts: seq<string>, follow: string)
    requires texts != []
    ensures GroupText(and, texts, follow)
         == texts[0] + (if |texts| == 1 then ")" + follow else Joiner(and) + GroupText(and, texts[1..], follow))
  {
  }

  lemma JoinerLeads(and: bool)
    ensures Leads(Joiner(and), [JoinToken(and)]) && Loose(Joiner(and)) && Joiner(and) != ""
  {
    var w := if and then "AND" else "OR";
    WordBetween(w);
    hide Leads;
    assert " " + w + " " == Joiner(and) && JoinToken(and) == Word(w);
  }

  /** A good part of a group is read, and the joining word follows. */
  lemma GoodStep(and: bool, text: string, more: string)
    requires Good(text) && Lex(text + (Joiner(and) + more)).Some?
    ensures Lex(more).Some?
    ensures exists e ::
              ParseNot(Lex(text + (Joiner(and) + more)).value) == Parsed(e, [JoinToken(and)] + Lex(more).value)
  {
    hide Lex, ParseNot, Joiner;
    JoinerLeads(and);
    var ts: seq<Token>, e: Expr :| Yields(text, ts) && Reads(ts, e);
    assert Loose(Joiner(and) + more);
    assert Lex(text + (Joiner(and) + more)) == Prepend(ts, Lex(Joiner(and) + more));
    assert Lex(Joiner(and) + more) == Prepend([JoinToken(and)], Lex(more));
    var rest := [JoinToken(and)] + Lex(more).value;
    assert ParseNot(ts + rest) == Parsed(e, rest);
  }

  lemma TailAstray(texts: seq<string>)
    requires Mixed(texts) && SomeAstray(texts) && !Astray(texts[0])
    ensures |texts| > 1 && Good(texts[0]) && Mixed(texts[1..]) && SomeAstray(texts[1..])
  {
    hide Astray, Good;
    var i :| 0 <= i < |texts| && Astray(texts[i]);
    assert texts[i] == texts[1..][i - 1];
  }

  /** One more conjunct. */
  lemma AndStep(acc: Expr, ts: seq<Token>)
    ensures AndTail(acc, [Word("AND")] + ts)
         == if ParseNot(ts).Fail? then Fail else AndTail(And(acc, ParseNot(ts).value), ParseNot(ts).rest)
  {
    hide ParseNot;
    assert ([Word("AND")] + ts)[1..] == ts;
  }

  lemma OrStep(acc: Expr, ts: seq<Token>)
    ensures OrTail(acc, [Word("OR")] + ts)
         == if ParseAnd(ts).Fail? then Fail else OrTail(Or(acc, ParseAnd(ts).value), ParseAnd(ts).rest)
  {
    hide ParseAnd;
    assert ([Word("OR")] + ts)[1..] == ts;
  }

  lemma AndStepOff(acc: Expr, ts: seq<Token>)
    requires Off(ParseNot(ts))
    ensures Off(AndTail(acc, [Word("AND")] + ts))
  {
    hide VOCABULARY, ParseNot, AndTail, Stuck;
    AndStep(acc, ts);
    if ParseNot(ts).Parsed? {
      var e, rest := ParseNot(ts).value, ParseNot(ts).rest;
      if Stuck(rest) {
        StuckTails(And(acc, e), rest);
      } else {
        AndTailOff(And(acc, e), rest);
      }
    }
  }

  lemma OrStepOff(acc: Expr, ts: seq<Token>)
    requires Off(ParseAnd(ts))
    ensures Off(OrTail(acc, [Word("OR")] + ts))
  {
    hide VOCABULARY, ParseAnd, OrTail, Stuck;
    OrStep(acc, ts);
    if ParseAnd(ts).Parsed? {
      var e, rest := ParseAnd(ts).value, ParseAnd(ts).rest;
      if Stuck(rest) {
        StuckTails(Or(acc, e), rest);
      } else {
        OrTailOff(Or(acc, e), rest);
      }
    }
  }

  lemma {:induction false} ConjunctsAstray(acc: Expr, texts: seq<string>, follow: string)
    requires texts != [] && Mixed(texts) && SomeAstray(texts) && Lex(GroupText(true, texts, follow)).Some?
    ensures Off(AndTail(acc, [Word("AND")] + Lex(GroupText(true, texts, follow)).value))
    decreases |texts|
  {
    hide Lex, ParseNot, AndTail, Off, GroupText, Mixed, SomeAstray, Good, Joiner;
    GroupTextSplits(true, texts, follow);
    JoinerLeads(true);
    hide Leads;
    var rest := if |texts| == 1 then ")" + follow else Joiner(true) + GroupText(true, texts[1..], follow);
    assert Loose(rest);
    var ts := Lex(texts[0] + rest).value;
    if Astray(texts[0]) {
      AndStepOff(acc, ts);
    } else {
      TailAstray(texts);
      var more := GroupText(true, texts[1..], follow);
      GoodStep(true, texts[0], more);
      var e :| ParseNot(ts) == Parsed(e, [Word("AND")] + Lex(more).value);
      AndStep(acc, ts);
      ConjunctsAstray(And(acc, e), texts[1..], follow);
    }
  }

  lemma {:induction false} DisjunctsAstray(acc: Expr, texts: seq<string>, follow: string)
    requires texts != [] && Mixed(texts) && SomeAstray(texts) && Lex(GroupText(false, texts, follow)).Some?
    ensures Off(OrTail(acc, [Word("OR")] + Lex(GroupText(false, texts, follow)).value))
    decreases |texts|
  {
    hide Lex, ParseNot, ParseAnd, OrTail, Off, GroupText, Mixed, SomeAstray, Good, Joiner;
    GroupTextSplits(false, texts, follow);
    JoinerLeads(false);
    hide Leads;
    var rest := if |texts| == 1 then ")" + follow else Joiner(false) + GroupText(false, texts[1..], follow);
    assert Loose(rest);
    var ts := Lex(texts[0] + rest).value;
    if Astray(texts[0]) {
      AndIsOff(ts);
      OrStepOff(acc, ts);
    } else {
      TailAstray(texts);
      var more := GroupText(false, texts[1..], follow);
      GoodStep(false, texts[0], more);
      var e :| ParseNot(ts) == Parsed(e, [Word("OR")] + Lex(more).value);
      AndEnds(ts, e, [Word("OR")] + Lex(more).value);
      OrStep(acc, ts);
      DisjunctsAstray(Or(acc, e), texts[1..], follow);
    }
  }

  lemma JoinedAstray(and: bool, texts: seq<string>, follow: string)
    requires texts != [] && Mixed(texts) && SomeAstray(texts) && Lex(GroupText(and, texts, follow)).Some?
    ensures Off(ParseOr(Lex(GroupText(and, texts, follow)).value))
  {
    hide Lex, ParseNot, Off, GroupText, Mixed, SomeAstray, Good, Joiner;
    GroupTextSplits(and, texts, follow);
    JoinerLeads(and);
    hide Leads;
    var rest := if |texts| == 1 then ")" + follow else Joiner(and) + GroupText(and, texts[1..], follow);
    assert Loose(rest);
    var ts := Lex(texts[0] + rest).value;
    if Astray(texts[0]) {
      AndIsOff(ts);
    } else {
      TailAstray(texts);
      var more := GroupText(and, texts[1..], follow);
      GoodStep(and, texts[0], more);
      var e :| ParseNot(ts) == Parsed(e, [JoinToken(and)] + Lex(more).value);
      if and {
        ConjunctsAstray(e, texts[1..], follow);
      } else {
        DisjunctsAstray(e, texts[1..], follow);
        AndEnds(ts, e, [Word("OR")] + Lex(more).value);
        hide ParseAnd;
        assert ParseOr(ts) == OrTail(e, [Word("OR")] + Lex(more).value);
        return;
      }
    }
    OrIsOff(ts);
  }

  lemma GroupAstray(and: bool, texts: seq<string>)
    requires texts != [] && Mixed(texts) && SomeAstray(texts)
    ensures Astray("(" + JoinText(Joiner(and), texts) + ")")
  {
    hide Leads, Lex, Off, ParseNot, ParseOr, Mixed, SomeAstray, JoinText, Joiner;
    MarkLeads("(");
    var text := "(" + JoinText(Joiner(and), texts) + ")";
    forall follow | Loose(follow) && Lex(text + follow).Some?
      ensures Off(ParseNot(Lex(text + follow).value))
    {
      var more := GroupText(and, texts, follow);
      assert text + follow == "(" + more + "" && more + "" == more;
      Behind("(", [Sym("(")], more, "");
      JoinedAstray(and, texts, follow);
      ParensAreOff(Lex(more).value);
    }
  }

  // ---- Nodes ----

  lemma NodeIsGood(node: Json)
    requires CompileNode(node).Ok? && NumbersRead(true, node)
    ensures Good(CompileNode(node).value)
  {
    hide Yields, Reads, CompileNode, NumbersRead, ExprOf;
    var ts := NodeReads(node);
  }

  /** A node with a torn number has no reading that keeps to the vocabulary. */
  lemma {:induction false} NodeAstray(node: Json)
    requires CompileNode(node).Ok? && !NumbersRead(true, node)
    ensures Astray(CompileNode(node).value)
    decreases node
  {
    hide Astray, JoinText, CompileTagged, CompileInCollection, CompileComparison, ComparisonRead, Mixed, SomeAstray;
    var m := node.members;
    var op := OpOf(m, "").value;
    if op == "and" || op == "or" {
      var items := m["clauses"].items;
      NodesAstray(items);
      GroupAstray(op == "and", CompileAll(items).value);
    } else if op == "not" {
      OneRead(true, m["clauses"].items);
      NodeAstray(m["clauses"].items[0]);
      NotAstray(CompileNode(m["clauses"].items[0]).value);
    } else {
      ComparisonAstray(m);
    }
  }

  lemma {:induction false} NodesAstray(nodes: seq<Json>)
    requires CompileAll(nodes).Ok?
    ensures Mixed(CompileAll(nodes).value)
    ensures !AllNumbersRead(true, nodes) ==> SomeAstray(CompileAll(nodes).value)
    decreases nodes
  {
    hide Astray, Good, CompileAll, CompileNode, NumbersRead;
    if nodes != [] {
      FirstOfAll(nodes);
      var texts, rest := CompileAll(nodes).value, CompileAll(nodes[1..]).value;
      assert texts == [CompileNode(nodes[0]).value] + rest;
      if NumbersRead(true, nodes[0]) {
        NodeIsGood(nodes[0]);
      } else {
        NodeAstray(nodes[0]);
        assert Astray(texts[0]);
      }
      NodesAstray(nodes[1..]);
      assert forall i :: 0 <= i < |rest| ==> texts[i + 1] == rest[i];
    }
  }

  // ---- The vocabulary of a filter ----

  lemma FilterAstray(ast: Json)
    requires CompileFilter(ast).Ok? && !UntornNumbers(ast)
    ensures var e := ParseText(CompileFilter(ast).value); e.Some? ==> !(Names(e.value) <= VOCABULARY)
  {
    NodeAstray(ast);
    var text := CompileNode(ast).value;
    assert CompileFilter(ast).value == text;
    hide VOCABULARY, CompileNode, CompileFilter, NumbersRead, Lex, ParseNot, ParseAnd, Names;
    assert text + "" == text;
    if Lex(text).Some? {
      AndIsOff(Lex(text).value);
      OrIsOff(Lex(text).value);
    }
  }

  /** A filter is read as a condition over the fixed vocabulary exactly when its numbers are plain. */
  lemma FilterVocabulary(ast: Json)
    requires CompileFilter(ast).Ok?
    ensures var e := ParseText(CompileFilter(ast).value);
            (e.Some? && Names(e.value) <= VOCABULARY) <==> PlainNumbers(ast)
  {
    if PlainNumbers(ast) {
      PlainIsUntorn(ast);
    }
    hide VOCABULARY, ParseText, ExprOf, CompileNode, UntornNumbers, NumbersRead;
    if !UntornNumbers(ast) {
      FilterAstray(ast);
    } else {
      FilterParses(ast);
      if ast.JNull? || (ast.JObj? && ast.members == map[]) {
        NothingAsked(ast);
        assert Names(FilterExpr(ast)) == {};
      } else {
        NodeNames(ast);
      }
    }
  }

  lemma NothingAsked(ast: Json)
    requires ast.JNull? || (ast.JObj? && ast.members == map[])
    ensures PlainNumbers(ast)
  {
  }
}
