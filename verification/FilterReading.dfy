/** The text of every filter lexes and parses, under the precedence of the server's grammar, to the
    condition the filter stands for: wherever the text is put, and whatever strings it carries. */
module FilterReading {
  import opened Options
  import opened Chars
  import opened Decimal
  import opened Canon
  import opened SqlText
  import opened SqlParser
  import opened SqlReading
  import opened Numerals
  import opened Query
  import opened FilterMeaning

  // ---- Words and marks as text ----

  lemma TokenLeads(t: Token)
    requires Printable(t)
    ensures Leads(Print(t) + " ", [t])
  {
    var ps := [Piece(t, true)];
    assert Spaced(ps);
    LeadsRendered(ps);
    RenderOne(ps[0]);
    assert Tokens(ps) == [t];
    hide Print, Leads, Render;
  }

  /** A token between blanks. */
  lemma BetweenBlanks(t: Token)
    requires Printable(t)
    ensures Leads(" " + Print(t) + " ", [t])
  {
    LeadsSpace(' ');
    TokenLeads(t);
    hide Leads, Print;
    LeadsThen([' '], [], Print(t) + " ", [t]);
    assert [] + [t] == [t];
    assert [' '] + (Print(t) + " ") == " " + Print(t) + " ";
  }

  lemma WordLeads(w: string)
    requires Printable(Word(w))
    ensures Leads(w + " ", [Word(w)])
  {
    TokenLeads(Word(w));
    hide Leads;
  }

  lemma WordBetween(w: string)
    requires Printable(Word(w))
    ensures Leads(" " + w + " ", [Word(w)])
  {
    BetweenBlanks(Word(w));
    hide Leads;
  }

  /** row.name */
  lemma DottedYields(row: string, name: string)
    requires Printable(Word(row)) && Printable(Word(name))
    ensures Yields(row + "." + name, [Word(row), Sym("."), Word(name)])
  {
    var ps := [Piece(Word(row), false), Piece(Sym("."), false), Piece(Word(name), false)];
    assert Spaced(ps);
    YieldsRendered(ps);
    assert Tokens(ps) == [Word(row), Sym("."), Word(name)];
    hide Yields, Printable;
    assert ps[1..][1..] == [Piece(Word(name), false)];
    assert Render(ps[1..][1..]) == name + "" + "";
    assert Render(ps[1..]) == "." + "" + name;
    assert Render(ps) == row + "." + name;
  }

  /** left op right */
  lemma ComparedYields(left: string, tl: seq<Token>, op: Token, right: string, tr: seq<Token>)
    requires Yields(left, tl) && Yields(right, tr) && Printable(op)
    ensures Yields(Compared(left, op, right), tl + ([op] + tr))
  {
    BetweenBlanks(op);
    hide Yields, Leads, Print, Printable;
    var middle := " " + Print(op) + " ";
    LeadsYields(middle, [op], right, tr);
    YieldsThen(left, tl, middle + right, [op] + tr);
    assert left + (middle + right) == Compared(left, op, right);
  }

  /** Parts with a separator between them. */
  lemma {:induction false} JoinYields(separator: string, t: Token, texts: seq<string>, toks: seq<seq<Token>>)
    requires texts != [] && |toks| == |texts| && separator != "" && Loose(separator) && Leads(separator, [t])
    requires forall i :: 0 <= i < |texts| ==> Yields(texts[i], toks[i])
    ensures Yields(JoinText(separator, texts), Chain(t, toks))
    decreases |texts|
  {
    hide Yields, Leads;
    if |texts| > 1 {
      JoinYields(separator, t, texts[1..], toks[1..]);
      var more := JoinText(separator, texts[1..]);
      LeadsYields(separator, [t], more, Chain(t, toks[1..]));
      YieldsThen(texts[0], toks[0], separator + more, [t] + Chain(t, toks[1..]));
      assert texts[0] + (separator + more) == JoinText(separator, texts);
      assert toks[0] + ([t] + Chain(t, toks[1..])) == Chain(t, toks);
    }
  }

  lemma {:induction false} JoinSnoc(parts: seq<string>, last: string)
    ensures JoinText(", ", parts + [last]) == if parts == [] then last else JoinText(", ", parts) + ", " + last
    decreases |parts|
  {
    var all := parts + [last];
    if |parts| == 0 {
      assert all == [last];
    } else {
      assert all[1..] == parts[1..] + [last] && all[0] == parts[0];
      assert JoinText(", ", all) == parts[0] + ", " + JoinText(", ", all[1..]);
      if |parts| == 1 {
        assert all[1..] == [last];
      } else {
        JoinSnoc(parts[1..], last);
        JoinOf(parts[0], JoinText(", ", parts[1..]), last);
      }
    }
  }

  lemma JoinOf(a: string, b: string, c: string)
    ensures a + ", " + (b + ", " + c) == a + ", " + b + ", " + c
  {
  }

  lemma JoinedInParens(w: string, texts: seq<string>, toks: seq<seq<Token>>)
    requires Printable(Word(w)) && texts != [] && |toks| == |texts|
    requires forall i :: 0 <= i < |texts| ==> Yields(texts[i], toks[i])
    ensures Yields("(" + JoinText(" " + w + " ", texts) + ")", [Sym("(")] + Chain(Word(w), toks) + [Sym(")")])
  {
    WordBetween(w);
    hide Yields, Leads, JoinText, Chain, Printable;
    JoinYields(" " + w + " ", Word(w), texts, toks);
    InParens(JoinText(" " + w + " ", texts), Chain(Word(w), toks));
  }

  lemma CloseYields()
    ensures Yields(")", [Sym(")")])
  {
    TokenYields(Sym(")"));
    hide Yields;
  }

  lemma InParens(text: string, ts: seq<Token>)
    requires Yields(text, ts)
    ensures Yields("(" + text + ")", [Sym("(")] + ts + [Sym(")")])
  {
    MarkLeads("(");
    CloseYields();
    hide Yields, Leads;
    LeadsYields("(", [Sym("(")], text, ts);
    YieldsThen("(" + text, [Sym("(")] + ts, ")", [Sym(")")]);
  }

  // ---- Subqueries ----

  lemma ExistsHead()
    ensures Leads("EXISTS (SELECT 1 FROM ", [Word("EXISTS")] + EXISTS_HEAD)
  {
    WordLeads("EXISTS");
    MarkLeads("(");
    WordLeads("SELECT");
    OneLeads();
    WordLeads("FROM");
    hide Leads;
    assert "EXISTS" + " " == "EXISTS " && "SELECT" + " " == "SELECT " && "FROM" + " " == "FROM ";
    LeadsThen("EXISTS ", [Word("EXISTS")], "(", [Sym("(")]);
    LeadsThen("EXISTS " + "(", [Word("EXISTS")] + [Sym("(")], "SELECT ", [Word("SELECT")]);
    LeadsThen("EXISTS " + "(" + "SELECT ", [Word("EXISTS")] + [Sym("(")] + [Word("SELECT")], "1 ", [Num("1")]);
    LeadsThen("EXISTS " + "(" + "SELECT " + "1 ", [Word("EXISTS")] + [Sym("(")] + [Word("SELECT")] + [Num("1")],
        "FROM ", [Word("FROM")]);
    assert "EXISTS (SELECT 1 FROM " == "EXISTS " + "(" + "SELECT " + "1 " + "FROM ";
    assert [Word("EXISTS")] + [Sym("(")] + [Word("SELECT")] + [Num("1")] + [Word("FROM")]
        == [Word("EXISTS")] + EXISTS_HEAD;
  }

  lemma OneLeads()
    ensures Leads("1 ", [Num("1")])
  {
    TokenLeads(Num("1"));
    assert Print(Num("1")) + " " == "1 ";
    hide Leads;
  }

  lemma ExistsYields(source: string, ts: seq<Token>, texts: seq<string>, toks: seq<seq<Token>>)
    requires Yields(source, ts) && texts != [] && |toks| == |texts|
    requires forall i :: 0 <= i < |texts| ==> Yields(texts[i], toks[i])
    ensures Yields(ExistsText(source, texts), ExistsTokens(ts, toks))
  {
    ExistsHead();
    WordBetween("AND");
    WordBetween("WHERE");
    CloseYields();
    hide Yields, Leads, Chain, JoinText;
    assert " " + "AND" + " " == " AND " && " " + "WHERE" + " " == " WHERE ";
    var head, where := "EXISTS (SELECT 1 FROM ", JoinText(" AND ", texts);
    var th, tw := [Word("EXISTS")] + EXISTS_HEAD, Chain(Word("AND"), toks);
    JoinYields(" AND ", Word("AND"), texts, toks);
    YieldsThen(where, tw, ")", [Sym(")")]);
    LeadsYields(" WHERE ", [Word("WHERE")], where + ")", tw + [Sym(")")]);
    YieldsThen(source, ts, " WHERE " + (where + ")"), [Word("WHERE")] + (tw + [Sym(")")]));
    LeadsYields(head, th, source + (" WHERE " + (where + ")")), ts + ([Word("WHERE")] + (tw + [Sym(")")])));
    assert head + (source + (" WHERE " + (where + ")"))) == ExistsText(source, texts);
    assert th + (ts + ([Word("WHERE")] + (tw + [Sym(")")]))) == ExistsTokens(ts, toks);
  }

  /** Two words. */
  lemma PairYields(a: string, b: string)
    requires Printable(Word(a)) && Printable(Word(b))
    ensures Yields(a + " " + b, [Word(a), Word(b)])
  {
    WordLeads(a);
    TokenYields(Word(b));
    assert Print(Word(b)) == b;
    hide Leads, Yields;
    LeadsYields(a + " ", [Word(a)], b, [Word(b)]);
    assert [Word(a)] + [Word(b)] == [Word(a), Word(b)];
  }

  /** An alias or a name: printable and no keyword. */
  predicate Plain(w: string) {
    Printable(Word(w)) && !IsKeyword(w)
  }

  lemma SameFrameReads(alias: string) returns (ts: seq<Token>)
    requires Plain(alias)
    ensures Yields(SameFrame(alias), ts) && Reads(ts, SameFrameExpr(alias))
  {
    DottedYields(alias, "frame_id");
    DottedYields("v_frames", "frame_id");
    assert "v_frames" + "." + "frame_id" == "v_frames.frame_id";
    var tl, tr := [Word(alias), Sym("."), Word("frame_id")], [Word("v_frames"), Sym("."), Word("frame_id")];
    ts := tl + ([Sym("=")] + tr);
    DottedReads(alias, "frame_id");
    DottedReads("v_frames", "frame_id");
    hide Yields, OperandReads, Reads;
    ComparedYields(alias + "." + "frame_id", tl, Sym("="), "v_frames.frame_id", tr);
    ReadsCompare(tl, Column(alias, "frame_id"), Sym("="), tr, Column("v_frames", "frame_id"));
  }

  /** A whole subquery: its rows belong to the frame and meet the conditions. */
  lemma SubqueryReads(source: string, ts: seq<Token>, s: Source, alias: string, texts: seq<string>,
      toks: seq<seq<Token>>, es: seq<Expr>)
      returns (all: seq<Token>)
    requires Plain(alias) && Yields(source, ts) && SourceReads(ts, s) && |texts| == |toks| == |es|
    requires forall i :: 0 <= i < |texts| ==> Yields(texts[i], toks[i]) && Reads(toks[i], es[i])
    ensures Yields(ExistsText(source, [SameFrame(alias)] + texts), all) && Reads(all, Subquery(s, alias, es))
  {
    var own := SameFrameReads(alias);
    hide Yields, Reads, SourceReads, SameFrame, SameFrameExpr;
    ExistsYields(source, ts, [SameFrame(alias)] + texts, [own] + toks);
    all := ExistsTokens(ts, [own] + toks);
    var es' := [SameFrameExpr(alias)] + es;
    assert AllRead([own] + toks, es');
    ReadsExists(ts, s, [own] + toks, es');
    assert es'[1..] == es;
  }

  lemma LinkSourceReads(link: string, l: string, key: string, target: string, t: string) returns (ts: seq<Token>)
    requires Plain(link) && Plain(l) && Plain(key) && Plain(target) && Plain(t)
    ensures Yields(LinkSource(link, l, key, target, t), ts)
    ensures SourceReads(ts, Join(link, l, target, t, Expr.Compare(Column(t, "id"), "=", Column(l, key))))
  {
    var tl, tr := [Word(t), Sym("."), Word("id")], [Word(l), Sym("."), Word(key)];
    ts := JoinTokens(link, l, target, t, tl, tr);
    DottedReads(t, "id");
    DottedReads(l, key);
    DottedYields(t, "id");
    DottedYields(l, key);
    PairYields(link, l);
    PairYields(target, t);
    WordBetween("JOIN");
    WordBetween("ON");
    assert " " + "JOIN" + " " == " JOIN " && " " + "ON" + " " == " ON ";
    assert Printable(Sym("="));
    hide Yields, Leads, OperandReads, SourceReads, Printable, IsKeyword;
    JoinReads(link, l, target, t, tl, Column(t, "id"), tr, Column(l, key));
    var on := Compared(t + "." + "id", Sym("="), l + "." + key);
    ComparedYields(t + "." + "id", tl, Sym("="), l + "." + key, tr);
    var to := tl + ([Sym("=")] + tr);
    LeadsYields(" ON ", [Word("ON")], on, to);
    YieldsThen(target + " " + t, [Word(target), Word(t)], " ON " + on, [Word("ON")] + to);
    var back, tb := target + " " + t + (" ON " + on), [Word(target), Word(t)] + ([Word("ON")] + to);
    LeadsYields(" JOIN ", [Word("JOIN")], back, tb);
    YieldsThen(link + " " + l, [Word(link), Word(l)], " JOIN " + back, [Word("JOIN")] + tb);
    hide Compared;
    assert link + " " + l + (" JOIN " + back) == LinkSource(link, l, key, target, t);
    assert [Word(link), Word(l)] + ([Word("JOIN")] + tb) == ts;
  }

  // ---- Literals ----

  lemma QuotedYields(s: string)
    ensures Yields(Quoted(s), [Str(s)])
  {
    TokenYields(Str(s));
    hide Yields;
  }

  lemma NotKeyword(w: string)
    requires NamesNoNumber(w) || HexWord(w)
    ensures !IsKeyword(w)
  {
    if NamesNoNumber(w) {
      assert |w| == 3 || |w| == 8;
      assert Lower(w)[0] == LowerChar(w[0]) && Lower(w)[1] == LowerChar(w[1]) && Lower(w)[2] == LowerChar(w[2]);
    }
  }

  lemma NumberLiteralReads(d: real) returns (ts: seq<Token>)
    ensures Yields(NumberText(d), ts) && OperandReads(ts, Number(d < 0.0, Magnitude(d)))
  {
    NumberYields(d);
    NumberReads(Magnitude(d));
    SignedNumberReads("-", Magnitude(d));
    hide Yields, OperandReads, Magnitude, NumberText;
    ts := SignTokens(if d < 0.0 then "-" else "") + [Num(Magnitude(d))];
    assert d < 0.0 ==> ts == [Sym("-"), Num(Magnitude(d))];
    assert d >= 0.0 ==> ts == [Num(Magnitude(d))];
  }

  lemma QuotedReads(s: string) returns (ts: seq<Token>)
    ensures Yields(Quoted(s), ts) && OperandReads(ts, Text(s))
  {
    QuotedYields(s);
    TextReads(s);
    ts := [Str(s)];
  }

  /** Whatever its string, a literal that is not torn is one operand. */
  lemma LiteralReads(kind: Kind, v: Json) returns (ts: seq<Token>)
    requires Literal(kind, v).Some? && ScalarRead(true, kind, v)
    ensures Yields(Literal(kind, v).value, ts) && OperandReads(ts, LiteralOperand(kind, v))
  {
    hide Yields, OperandReads, Magnitude, NumberText, Quoted, SixDecimals, ReadNumeral, NumeralTokens;
    if v.JNum? && kind.NumberKind? {
      ts := NumberLiteralReads(v.d);
    } else if v.JNum? {
      ts := QuotedReads(SixDecimals(v.d));
    } else if kind.NumberKind? {
      NumeralYields(v.s);
      NumeralParts(v.s);
      ts := NumeralReads(ReadNumeral(v.s).value);
    } else {
      ts := QuotedReads(v.s);
    }
  }

  lemma NumeralReads(n: Numeral) returns (ts: seq<Token>)
    requires n.sign in {"", "-", "+"} && !n.Torn? && IsBody(n)
    ensures ts == NumeralTokens(n)
    ensures OperandReads(ts,
              match n
              case Numeric(_, sign, digits) => Number(sign == "-", digits)
              case _ => if n.sign == "" then Column("", BodyOf(n)) else Signed(n.sign == "-", BodyOf(n)))
  {
    ts := NumeralTokens(n);
    var t := if n.Numeric? then Num(n.digits) else Word(BodyOf(n));
    assert n.sign == "" ==> ts == [t];
    assert n.sign != "" ==> ts == [Sym(n.sign), t];
    if n.Named? {
      NotKeyword(n.word);
    }
    hide OperandReads, IsBody, IsKeyword;
    match n
    case Numeric(_, sign, digits) =>
      if sign == "" { NumberReads(digits); } else { SignedNumberReads(sign, digits); }
    case Named(_, sign, word) =>
      if sign == "" { ColumnReads(word); } else { SignedNameReads(sign, word); }
  }

  lemma IntReads(n: int) returns (ts: seq<Token>)
    ensures Yields(IntText(n), ts) && OperandReads(ts, IntOperand(n))
  {
    var digits := ToDec(if n < 0 then -n else n);
    var sign := if n < 0 then "-" else "";
    SignedYields(sign, Num(digits));
    NumberReads(digits);
    SignedNumberReads("-", digits);
    ts := SignTokens(sign) + [Num(digits)];
    assert sign + Print(Num(digits)) == IntText(n);
    hide Yields, OperandReads, ToDec;
    assert n < 0 ==> ts == [Sym("-"), Num(digits)];
    assert n >= 0 ==> ts == [Num(digits)];
  }

  /** One condition comparing two operands. */
  lemma ConditionReads(left: string, tl: seq<Token>, l: Operand, op: Token, right: string, tr: seq<Token>, r: Operand)
      returns (ts: seq<Token>)
    requires Yields(left, tl) && OperandReads(tl, l) && Yields(right, tr) && OperandReads(tr, r)
    requires Printable(op) && ComparisonOf(op).Some?
    ensures Yields(Compared(left, op, right), ts) && Reads(ts, Expr.Compare(l, ComparisonOf(op).value, r))
  {
    hide Yields, OperandReads, Reads, ComparisonOf, Printable;
    ComparedYields(left, tl, op, right, tr);
    ReadsCompare(tl, l, op, tr, r);
    ts := tl + ([op] + tr);
  }

  lemma BinOpReads(op: string)
    requires BinOp(op).Some?
    ensures Printable(BinOp(op).value) && ComparisonOf(BinOp(op).value) == Some(Operator(op))
  {
  }

  lemma EqualityReads()
    ensures Printable(Sym("=")) && ComparisonOf(Sym("=")) == Some("=")
  {
  }

  /** alias.name = literal text */
  lemma DottedEquals(alias: string, name: string, right: string, tr: seq<Token>, r: Operand) returns (ts: seq<Token>)
    requires Plain(alias) && Plain(name) && Yields(right, tr) && OperandReads(tr, r)
    ensures Yields(Compared(alias + "." + name, Sym("="), right), ts)
    ensures Reads(ts, Expr.Compare(Column(alias, name), "=", r))
  {
    DottedYields(alias, name);
    DottedReads(alias, name);
    EqualityReads();
    hide Yields, OperandReads, Reads, ComparisonOf, Printable, IsKeyword, Compared;
    ts := ConditionReads(alias + "." + name, [Word(alias), Sym("."), Word(name)], Column(alias, name), Sym("="), right,
        tr, r);
  }

  // ---- Links ----

  /** Every keyword begins with a capital letter. */
  lemma KeywordStarts(w: string)
    requires w != "" && !IsUpper(w[0])
    ensures !IsKeyword(w)
  {
  }

  predicate LowerName(w: string) {
    w != "" && 'a' <= w[0] <= 'z' && forall i :: 0 <= i < |w| ==> 'a' <= w[i] <= 'z' || w[i] == '_' || IsDigit(w[i])
  }

  lemma LowerNameIsPlain(w: string)
    requires LowerName(w)
    ensures Plain(w)
  {
    KeywordStarts(w);
    hide IsKeyword;
  }

  lemma TagNames()
    ensures Plain("frame_tags") && Plain("ft") && Plain("tag_id") && Plain("tags") && Plain("t") && Plain("name")
  {
    hide Plain;
    LowerNameIsPlain("frame_tags");
    LowerNameIsPlain("ft");
    LowerNameIsPlain("tag_id");
    LowerNameIsPlain("tags");
    LowerNameIsPlain("t");
    LowerNameIsPlain("name");
  }

  lemma CollectionNames()
    ensures Plain("collection_frames") && Plain("cf") && Plain("collection_id") && Plain("collections") && Plain("c")
        && Plain("name")
  {
    hide Plain;
    LowerNameIsPlain("collection_frames");
    LowerNameIsPlain("cf");
    LowerNameIsPlain("collection_id");
    LowerNameIsPlain("collections");
    LowerNameIsPlain("c");
    LowerNameIsPlain("name");
  }

  lemma CardNames()
    ensures Plain("frame_keywords") && Plain("k") && Plain("keyword") && Plain("value")
  {
    hide Plain;
    LowerNameIsPlain("frame_keywords");
    LowerNameIsPlain("k");
    LowerNameIsPlain("keyword");
    LowerNameIsPlain("value");
  }

  lemma StringFieldIsPlain(field: string)
    requires field in STRINGS
    ensures Plain(field)
  {
    hide Plain;
    assert LowerName(field);
    LowerNameIsPlain(field);
  }

  const CAMERA_NUMBERS := {"exposure_s", "gain", "offset_adu", "binx", "biny", "ccd_temp_c", "set_temp_c"}

  lemma CameraNumberIsPlain(field: string)
    requires field in CAMERA_NUMBERS
    ensures Plain(field)
  {
    hide Plain;
    assert LowerName(field);
    LowerNameIsPlain(field);
  }

  lemma OtherNumberIsPlain(field: string)
    requires field in NUMBERS - CAMERA_NUMBERS
    ensures Plain(field)
  {
    hide Plain;
    assert LowerName(field);
    LowerNameIsPlain(field);
  }

  lemma FieldIsPlain(field: string)
    requires FieldKind(field).Some?
    ensures Plain(field)
  {
    hide Plain;
    if field in STRINGS {
      StringFieldIsPlain(field);
    } else if field in DATES {
      assert LowerName(field);
      LowerNameIsPlain(field);
    } else if field in CAMERA_NUMBERS {
      CameraNumberIsPlain(field);
    } else {
      OtherNumberIsPlain(field);
    }
  }

  lemma LinkReads(link: string, l: string, key: string, target: string, t: string, node: Node) returns (ts: seq<Token>)
    requires Plain(link) && Plain(l) && Plain(key) && Plain(target) && Plain(t) && Plain("name")
    requires CompileLink(link, l, key, target, t, node).Ok?
    ensures Yields(CompileLink(link, l, key, target, t, node).value, ts)
    ensures Reads(ts, LinkExpr(link, l, key, target, t, node["value"]))
  {
    hide Yields, Reads, OperandReads, SourceReads, Plain, SameFrame, SameFrameExpr, Subquery, LinkSource, ExistsText,
        Compared;
    var source := LinkSourceReads(link, l, key, target, t);
    var s := Join(link, l, target, t, Expr.Compare(Column(t, "id"), "=", Column(l, key)));
    match node["value"]
    case JNum(d) =>
      var n := Truncated(d);
      var tr := IntReads(n);
      var tc := DottedEquals(l, key, IntText(n), tr, IntOperand(n));
      var text := Compared(l + "." + key, Sym("="), IntText(n));
      ts := SubqueryReads(LinkSource(link, l, key, target, t), source, s, l, [text], [tc],
        [Expr.Compare(Column(l, key), "=", IntOperand(n))]);
      assert [SameFrame(l)] + [text] == [SameFrame(l), text];
    case JStr(name) =>
      var tr := LiteralReads(StringKind, node["value"]);
      var tc := DottedEquals(t, "name", Quoted(name), tr, LiteralOperand(StringKind, node["value"]));
      var text := Compared(t + "." + "name", Sym("="), Quoted(name));
      ts := SubqueryReads(LinkSource(link, l, key, target, t), source, s, l, [text], [tc],
        [Expr.Compare(Column(t, "name"), "=", LiteralOperand(StringKind, node["value"]))]);
      assert [SameFrame(l)] + [text] == [SameFrame(l), text];
  }

  lemma NegatedReads(text: string, ts: seq<Token>, e: Expr)
    requires Yields(text, ts) && Reads(ts, e)
    ensures Yields("NOT " + text, [Word("NOT")] + ts) && Reads([Word("NOT")] + ts, Not(e))
  {
    WordLeads("NOT");
    assert "NOT" + " " == "NOT ";
    hide Yields, Leads, Reads;
    LeadsYields("NOT ", [Word("NOT")], text, ts);
    ReadsNot(ts, e);
  }

  // ---- Header cards ----

  lemma CallLeads(f: string)
    requires Printable(Word(f))
    ensures Leads(f + "(", [Word(f), Sym("(")])
  {
    var ps := [Piece(Word(f), false), Piece(Sym("("), false)];
    assert Spaced(ps);
    LeadsRendered(ps);
    assert Tokens(ps) == [Word(f), Sym("(")];
    hide Leads, Printable;
    assert ps[1..] == [Piece(Sym("("), false)];
    RenderOne(ps[1]);
    assert f + "" == f;
    assert Render(ps) == f + "(";
  }

  lemma PrecisionYields()
    ensures Yields("20,6))", [Num("20"), Sym(","), Num("6"), Sym(")"), Sym(")")])
  {
    MarkLeads(",");
    TokenYields(Num("20"));
    TokenYields(Num("6"));
    CloseYields();
    assert Print(Num("20")) == "20" && Print(Num("6")) == "6";
    hide Yields, Leads;
    YieldsThen(")", [Sym(")")], ")", [Sym(")")]);
    YieldsThen("6", [Num("6")], ")" + ")", [Sym(")")] + [Sym(")")]);
    LeadsYields(",", [Sym(",")], "6" + (")" + ")"), [Num("6")] + ([Sym(")")] + [Sym(")")]));
    YieldsThen("20", [Num("20")], "," + ("6" + (")" + ")")), [Sym(",")] + ([Num("6")] + ([Sym(")")] + [Sym(")")])));
    assert "20" + ("," + ("6" + (")" + ")"))) == "20,6))";
    assert [Num("20")] + ([Sym(",")] + ([Num("6")] + ([Sym(")")] + [Sym(")")])))
        == [Num("20"), Sym(","), Num("6"), Sym(")"), Sym(")")];
  }

  lemma DecimalYields()
    ensures Yields(" AS DECIMAL(20,6))", CAST_TAIL)
  {
    CallLeads("DECIMAL");
    WordBetween("AS");
    PrecisionYields();
    assert "DECIMAL" + "(" == "DECIMAL(" && " " + "AS" + " " == " AS ";
    hide Yields, Leads;
    var tp := [Num("20"), Sym(","), Num("6"), Sym(")"), Sym(")")];
    var td := [Word("DECIMAL"), Sym("(")];
    LeadsYields("DECIMAL(", td, "20,6))", tp);
    LeadsYields(" AS ", [Word("AS")], "DECIMAL(" + "20,6))", td + tp);
    assert " AS " + ("DECIMAL(" + "20,6))") == " AS DECIMAL(20,6))";
    assert [Word("AS")] + (td + tp) == CAST_TAIL;
  }

  lemma CastText()
    ensures "CAST(" + ("k.value" + " AS DECIMAL(20,6))") == "CAST(k.value AS DECIMAL(20,6))"
  {
    assert "k.value" + " AS DECIMAL(20,6))" == "k.value AS DECIMAL(20,6))";
  }

  lemma CastYields()
    ensures Yields("CAST(k.value AS DECIMAL(20,6))", CastTokens("k", "value"))
  {
    CallLeads("CAST");
    CardNames();
    DottedYields("k", "value");
    DecimalYields();
    assert "CAST" + "(" == "CAST(" && "k" + "." + "value" == "k.value";
    hide Yields, Leads, Plain;
    var tv := [Word("k"), Sym("."), Word("value")];
    YieldsThen("k.value", tv, " AS DECIMAL(20,6))", CAST_TAIL);
    LeadsYields("CAST(", [Word("CAST"), Sym("(")], "k.value" + " AS DECIMAL(20,6))", tv + CAST_TAIL);
    CastText();
    assert [Word("CAST"), Sym("(")] + (tv + CAST_TAIL) == CastTokens("k", "value");
  }

  /** The left side of a comparison with a card's value. */
  lemma CardValueReads(number: bool) returns (ts: seq<Token>)
    ensures Yields(if number then "CAST(k.value AS DECIMAL(20,6))" else "k.value", ts)
    ensures OperandReads(ts, if number then Cast("k", "value") else Column("k", "value"))
  {
    CastYields();
    CardNames();
    DottedYields("k", "value");
    DottedReads("k", "value");
    CastReads("k", "value");
    assert "k" + "." + "value" == "k.value";
    hide Yields, OperandReads;
    ts := if number then CastTokens("k", "value") else [Word("k"), Sym("."), Word("value")];
  }

  function CardText(kw: string): string {
    Compared("k.keyword", Sym("="), Quoted(kw))
  }

  function CardExpr(kw: string): Expr {
    Expr.Compare(Column("k", "keyword"), "=", Text(kw))
  }

  lemma CardReads(kw: string) returns (ts: seq<Token>)
    ensures Yields(CardText(kw), ts) && Reads(ts, CardExpr(kw))
  {
    CardNames();
    hide Plain, Compared, Quoted, Yields, Reads;
    var tr := QuotedReads(kw);
    ts := DottedEquals("k", "keyword", Quoted(kw), tr, Text(kw));
    assert "k" + "." + "keyword" == "k.keyword";
  }

  lemma CardSourceReads() returns (ts: seq<Token>)
    ensures Yields("frame_keywords k", ts) && SourceReads(ts, Table("frame_keywords", "k"))
  {
    CardNames();
    PairYields("frame_keywords", "k");
    TableReads("frame_keywords", "k");
    assert "frame_keywords" + " " + "k" == "frame_keywords k";
    ts := [Word("frame_keywords"), Word("k")];
    hide Yields, SourceReads;
  }

  lemma PresenceReads(kw: string) returns (ts: seq<Token>)
    ensures Yields(ExistsText("frame_keywords k", [SameFrame("k"), CardText(kw)]), ts)
    ensures Reads(ts, Subquery(Table("frame_keywords", "k"), "k", [CardExpr(kw)]))
  {
    CardNames();
    hide Plain, Yields, Reads, SourceReads, SameFrame, CardText, CardExpr, ExistsText, Subquery;
    var tc := CardReads(kw);
    var source := CardSourceReads();
    ts := SubqueryReads("frame_keywords k", source, Table("frame_keywords", "k"), "k", [CardText(kw)], [tc],
        [CardExpr(kw)]);
    assert [SameFrame("k")] + [CardText(kw)] == [SameFrame("k"), CardText(kw)];
  }

  lemma CardComparedReads(kw: string, op: string, v: Json) returns (ts: seq<Token>)
    requires var kind := if v.JNum? then NumberKind else StringKind; BinOp(op).Some? && Literal(kind, v).Some?
    ensures var kind := if v.JNum? then NumberKind else StringKind;
            var left := if v.JNum? then "CAST(k.value AS DECIMAL(20,6))" else "k.value";
            Yields(ExistsText("frame_keywords k",
                [SameFrame("k"), CardText(kw), Compared(left, BinOp(op).value, Literal(kind, v).value)]), ts)
    ensures var kind := if v.JNum? then NumberKind else StringKind;
            var left := if v.JNum? then Cast("k", "value") else Column("k", "value");
            Reads(ts, Subquery(Table("frame_keywords", "k"), "k",
                [CardExpr(kw), Expr.Compare(left, Operator(op), LiteralOperand(kind, v))]))
  {
    CardNames();
    BinOpReads(op);
    hide Plain, Yields, Reads, OperandReads, SourceReads, SameFrame, CardText, CardExpr, ExistsText, Subquery, Compared,
        ComparisonOf;
    hide Printable, BinOp, Operator, Literal, LiteralOperand;
    var kind := if v.JNum? then NumberKind else StringKind;
    var left := if v.JNum? then "CAST(k.value AS DECIMAL(20,6))" else "k.value";
    var l := if v.JNum? then Cast("k", "value") else Column("k", "value");
    var text := Literal(kind, v).value;
    var tl := CardValueReads(v.JNum?);
    var tr := LiteralReads(kind, v);
    var td := ConditionReads(left, tl, l, BinOp(op).value, text, tr, LiteralOperand(kind, v));
    var tc := CardReads(kw);
    var source := CardSourceReads();
    var texts := [CardText(kw), Compared(left, BinOp(op).value, text)];
    ts := SubqueryReads("frame_keywords k", source, Table("frame_keywords", "k"), "k", texts, [tc, td],
      [CardExpr(kw), Expr.Compare(l, Operator(op), LiteralOperand(kind, v))]);
    assert [SameFrame("k")] + texts == [SameFrame("k"), CardText(kw), Compared(left, BinOp(op).value, text)];
  }

  lemma KeywordReads(kw: string, node: Node) returns (ts: seq<Token>)
    requires CompileKeyword(kw, node).Ok?
    ensures Yields(CompileKeyword(kw, node).value, ts)
    ensures Reads(ts, KeywordExpr(kw, OpOf(node, "eq").value, Member(node, "value")))
  {
    hide Yields, Reads, SameFrame, ExistsText, Subquery, Compared, BinOp, Operator, Literal, LiteralOperand, Quoted;
    var op := OpOf(node, "eq").value;
    if op == "isnull" || op == "notnull" {
      ts := PresenceReads(kw);
      if op == "isnull" {
        var text, e := ExistsText("frame_keywords k", [SameFrame("k"), CardText(kw)]),
            Subquery(Table("frame_keywords", "k"), "k", [CardExpr(kw)]);
        NegatedReads(text, ts, e);
        ts := [Word("NOT")] + ts;
      }
    } else {
      ts := CardComparedReads(kw, op, node["value"]);
    }
  }

  // ---- Fields ----

  lemma NullReads(field: string, negated: bool) returns (ts: seq<Token>)
    requires Plain(field)
    ensures Yields(field + (if negated then " IS NOT NULL" else " IS NULL"), ts)
        && Reads(ts, Null(Column("", field), negated))
  {
    ColumnReads(field);
    ReadsNull([Word(field)], Column("", field), negated);
    TokenYields(Word(field));
    assert Print(Word(field)) == field;
    WordBetween("IS");
    WordLeads("NOT");
    TokenYields(Word("NULL"));
    assert Print(Word("NULL")) == "NULL" && " " + "IS" + " " == " IS " && "NOT" + " " == "NOT ";
    hide Yields, Leads, Reads, Print, Plain;
    if negated {
      LeadsYields("NOT ", [Word("NOT")], "NULL", [Word("NULL")]);
      LeadsYields(" IS ", [Word("IS")], "NOT " + "NULL", [Word("NOT")] + [Word("NULL")]);
      YieldsThen(field, [Word(field)], " IS " + ("NOT " + "NULL"), [Word("IS")] + ([Word("NOT")] + [Word("NULL")]));
      assert " IS " + ("NOT " + "NULL") == " IS NOT NULL";
      ts := [Word(field)] + ([Word("IS")] + ([Word("NOT")] + [Word("NULL")]));
      assert ts == [Word(field)] + [Word("IS"), Word("NOT"), Word("NULL")];
    } else {
      LeadsYields(" IS ", [Word("IS")], "NULL", [Word("NULL")]);
      YieldsThen(field, [Word(field)], " IS " + "NULL", [Word("IS")] + [Word("NULL")]);
      assert " IS " + "NULL" == " IS NULL";
      ts := [Word(field)] + ([Word("IS")] + [Word("NULL")]);
      assert ts == [Word(field)] + [Word("IS"), Word("NULL")];
    }
  }

  lemma FieldReads(field: string)
    requires Plain(field)
    ensures Yields(field, [Word(field)]) && OperandReads([Word(field)], Column("", field))
  {
    ColumnReads(field);
    TokenYields(Word(field));
    hide Yields, OperandReads;
  }

  lemma BetweenReads(field: string, low: string, ta: seq<Token>, a: Operand, high: string, tb: seq<Token>, b: Operand)
      returns (ts: seq<Token>)
    requires Plain(field) && Yields(low, ta) && OperandReads(ta, a) && Yields(high, tb) && OperandReads(tb, b)
    ensures Yields(field + " BETWEEN " + low + " AND " + high, ts) && Reads(ts, Between(Column("", field), a, b))
  {
    FieldReads(field);
    WordBetween("BETWEEN");
    WordBetween("AND");
    assert " " + "BETWEEN" + " " == " BETWEEN " && " " + "AND" + " " == " AND ";
    hide Yields, Leads, OperandReads, Reads, Plain;
    LeadsYields(" AND ", [Word("AND")], high, tb);
    YieldsThen(low, ta, " AND " + high, [Word("AND")] + tb);
    LeadsYields(" BETWEEN ", [Word("BETWEEN")], low + (" AND " + high), ta + ([Word("AND")] + tb));
    YieldsThen(field, [Word(field)], " BETWEEN " + (low + (" AND " + high)),
        [Word("BETWEEN")] + (ta + ([Word("AND")] + tb)));
    assert field + (" BETWEEN " + (low + (" AND " + high))) == field + " BETWEEN " + low + " AND " + high;
    ts := [Word(field)] + ([Word("BETWEEN")] + (ta + ([Word("AND")] + tb)));
    assert [Word("BETWEEN")] + (ta + ([Word("AND")] + tb)) == [Word("BETWEEN")] + ta + ([Word("AND")] + tb);
    ReadsBetween([Word(field)], Column("", field), ta, a, tb, b);
  }

  lemma {:induction false} LiteralsRead(kind: Kind, vs: seq<Json>, texts: seq<string>) returns (toks: seq<seq<Token>>)
    requires ScalarsRead(true, kind, vs)
    requires |texts| == |vs| && forall i :: 0 <= i < |vs| ==> Literal(kind, vs[i]) == Some(texts[i])
    ensures |toks| == |vs|
    ensures forall i :: 0 <= i < |vs| ==>
        Yields(texts[i], toks[i]) && OperandReads(toks[i], LiteralOperand(kind, vs[i]))
    decreases |vs|
  {
    hide Yields, OperandReads, Literal, LiteralOperand;
    toks := [];
    if vs != [] {
      var first := LiteralReads(kind, vs[0]);
      var rest := LiteralsRead(kind, vs[1..], texts[1..]);
      toks := [first] + rest;
      forall i | 0 <= i < |vs|
        ensures Yields(texts[i], toks[i]) && OperandReads(toks[i], LiteralOperand(kind, vs[i]))
      {
        if i > 0 {
          assert vs[i] == vs[1..][i - 1] && texts[i] == texts[1..][i - 1] && toks[i] == rest[i - 1];
        }
      }
    }
  }

  lemma InReads(field: string, kind: Kind, vs: seq<Json>, texts: seq<string>) returns (ts: seq<Token>)
    requires ScalarsRead(true, kind, vs)
    requires Plain(field) && vs != [] && |texts| == |vs| && forall i :: 0 <= i < |vs| ==>
        Literal(kind, vs[i]) == Some(texts[i])
    ensures Yields(field + " IN (" + JoinText(", ", texts) + ")", ts)
    ensures Reads(ts, In(Column("", field), LiteralOperands(kind, vs)))
  {
    FieldReads(field);
    WordBetween("IN");
    CommaLeads();
    assert " " + "IN" + " " == " IN ";
    hide Yields, Leads, OperandReads, Reads, Plain, Literal, LiteralOperand, JoinText, Chain;
    var toks := LiteralsRead(kind, vs, texts);
    var list, tl := JoinText(", ", texts), Chain(Sym(","), toks);
    JoinYields(", ", Sym(","), texts, toks);
    InParens(list, tl);
    LeadsYields(" IN ", [Word("IN")], "(" + list + ")", [Sym("(")] + tl + [Sym(")")]);
    YieldsThen(field, [Word(field)], " IN " + ("(" + list + ")"), [Word("IN")] + ([Sym("(")] + tl + [Sym(")")]));
    assert field + (" IN " + ("(" + list + ")")) == field + " IN (" + list + ")";
    ts := [Word(field)] + ([Word("IN")] + ([Sym("(")] + tl + [Sym(")")]));
    assert [Word("IN")] + ([Sym("(")] + tl + [Sym(")")]) == [Word("IN"), Sym("(")] + tl + [Sym(")")];
    assert AllOperandsRead(toks, LiteralOperands(kind, vs));
    ReadsIn([Word(field)], Column("", field), toks, LiteralOperands(kind, vs));
  }

  lemma CommaLeads()
    ensures Leads(", ", [Sym(",")])
  {
    MarkLeads(",");
    LeadsSpace(' ');
    hide Leads;
    LeadsThen(",", [Sym(",")], [' '], []);
    assert "," + [' '] == ", " && [Sym(",")] + [] == [Sym(",")];
  }

  /** Putting the wildcards outside the escaped name is escaping the whole pattern. */
  lemma PatternQuoted(d: string)
    ensures "'%" + Escape(d) + "%'" == Quoted("%" + d + "%")
  {
    hide Escape;
    NoEscape();
    EscapeConcat("%" + d, "%");
    EscapeConcat("%", d);
    Wrapped(Escape(d));
  }

  lemma Wrapped(s: string)
    ensures "'" + ("%" + s + "%") + "'" == "'%" + s + "%'"
  {
  }

  lemma DesignationReads(like: bool, d: string) returns (ts: seq<Token>)
    ensures Yields(DesignationText(like, d), ts) && Reads(ts, DesignationExpr(like, d))
  {
    PatternQuoted(d);
    StringFieldIsPlain("object_canonical");
    FieldReads("object_canonical");
    var pattern := if like then "%" + d + "%" else d;
    var tr := QuotedReads(pattern);
    var op := if like then Word("LIKE") else Sym("=");
    assert ComparisonOf(op) == Some(if like then "LIKE" else "=") && Printable(op);
    hide Yields, OperandReads, Reads, Plain, Compared, Quoted, ComparisonOf, Printable;
    ts := ConditionReads("object_canonical", [Word("object_canonical")], Column("", "object_canonical"), op,
        Quoted(pattern), tr, Text(pattern));
  }

  lemma {:induction false} DesignationsRead(like: bool, ds: seq<string>) returns (toks: seq<seq<Token>>)
    ensures |toks| == |ds|
    ensures forall i :: 0 <= i < |ds| ==>
        Yields(DesignationText(like, ds[i]), toks[i]) && Reads(toks[i], DesignationExpr(like, ds[i]))
    decreases |ds|
  {
    hide Yields, Reads, DesignationText, DesignationExpr;
    toks := [];
    if ds != [] {
      var first := DesignationReads(like, ds[0]);
      var rest := DesignationsRead(like, ds[1..]);
      toks := [first] + rest;
      forall i | 0 <= i < |ds|
        ensures Yields(DesignationText(like, ds[i]), toks[i]) && Reads(toks[i], DesignationExpr(like, ds[i]))
      {
        if i > 0 {
          assert ds[i] == ds[1..][i - 1] && toks[i] == rest[i - 1];
        }
      }
    }
  }

  /** The designations of an object, any of which may match. */
  lemma AnyDesignationReads(like: bool, ds: seq<string>) returns (ts: seq<Token>)
    requires ds != []
    ensures Yields("(" + JoinText(" OR ", DesignationTexts(like, ds)) + ")", ts)
    ensures var es := DesignationExprs(like, ds); Reads(ts, Folded(false, es[0], es[1..]))
  {
    assert Printable(Word("OR"));
    hide Yields, Reads, DesignationText, DesignationExpr, JoinText, Chain, Printable;
    var toks := DesignationsRead(like, ds);
    JoinedInParens("OR", DesignationTexts(like, ds), toks);
    assert " " + "OR" + " " == " OR ";
    ReadsChain(false, toks, DesignationExprs(like, ds));
    ts := [Sym("(")] + Chain(Word("OR"), toks) + [Sym(")")];
  }

  lemma SomeDesignation(raw: string)
    ensures Designations(raw) != []
  {
    hide Canonicalize;
  }

  lemma CompileFieldReads(field: string, kind: Kind, op: string, node: Node) returns (ts: seq<Token>)
    requires Plain(field) && CompileField(field, kind, op, node).Ok? && FieldRead(true, kind, op, node)
    ensures Yields(CompileField(field, kind, op, node).value, ts)
    ensures Reads(ts, FieldExpr(field, kind, op, node))
  {
    hide Yields, Reads, OperandReads, Plain, Literal, LiteralOperand, LiteralOperands, JoinText, Compared, Designations;
    hide DesignationTexts, DesignationExprs, BinOp, Operator, ComparisonOf, Printable;
    if op == "isnull" || op == "notnull" {
      ts := NullReads(field, op == "notnull");
    } else if ByDesignation(field, op, node) {
      SomeDesignation(node["value"].s);
      ts := AnyDesignationReads(op == "like", Designations(node["value"].s));
    } else if op == "in" {
      var items := node["value"].items;
      ts := InReads(field, kind, items, Literals(kind, items).value);
    } else if op == "between" {
      var items := node["value"].items;
      var ta := LiteralReads(kind, items[0]);
      var tb := LiteralReads(kind, items[1]);
      ts := BetweenReads(field, Literal(kind, items[0]).value, ta, LiteralOperand(kind, items[0]),
        Literal(kind, items[1]).value, tb, LiteralOperand(kind, items[1]));
    } else {
      FieldReads(field);
      BinOpReads(op);
      var tr := LiteralReads(kind, node["value"]);
      ts := ConditionReads(field, [Word(field)], Column("", field), BinOp(op).value,
        Literal(kind, node["value"]).value, tr, LiteralOperand(kind, node["value"]));
    }
  }

  lemma ComparisonReads(node: Node) returns (ts: seq<Token>)
    requires CompileComparison(node).Ok? && ComparisonRead(true, node)
    ensures Yields(CompileComparison(node).value, ts) && Reads(ts, ComparisonExpr(node))
  {
    hide Yields, Reads, Plain, CompileField, FieldExpr, CompileKeyword, KeywordExpr, FieldKind;
    var field := node["field"].s;
    if KEYWORD_PREFIX <= field {
      OpGiven(field[|KEYWORD_PREFIX|..], node);
      ts := KeywordReads(field[|KEYWORD_PREFIX|..], node);
    } else {
      FieldIsPlain(field);
      ts := CompileFieldReads(field, FieldKind(field).value, OpOf(node, "eq").value, node);
    }
  }

  lemma OpGiven(kw: string, node: Node)
    requires CompileKeyword(kw, node).Ok?
    ensures OpOf(node, "eq").Some?
  {
  }

  // ---- Nodes ----

  lemma TaggedReads(node: Node, negate: bool) returns (ts: seq<Token>)
    requires CompileTagged(node, negate).Ok?
    ensures Yields(CompileTagged(node, negate).value, ts)
    ensures Reads(ts, Unless(negate, LinkExpr("frame_tags", "ft", "tag_id", "tags", "t", Member(node, "value"))))
  {
    TagNames();
    LinkNeedsValue("frame_tags", "ft", "tag_id", "tags", "t", node);
    hide Yields, Reads, Plain, CompileLink, LinkExpr;
    ts := LinkReads("frame_tags", "ft", "tag_id", "tags", "t", node);
    if negate {
      NegatedReads(CompileLink("frame_tags", "ft", "tag_id", "tags", "t", node).value, ts,
        LinkExpr("frame_tags", "ft", "tag_id", "tags", "t", node["value"]));
      ts := [Word("NOT")] + ts;
    }
  }

  lemma LinkNeedsValue(link: string, l: string, key: string, target: string, t: string, node: Node)
    requires CompileLink(link, l, key, target, t, node).Ok?
    ensures "value" in node
  {
  }

  lemma InCollectionReads(node: Node) returns (ts: seq<Token>)
    requires CompileInCollection(node).Ok?
    ensures Yields(CompileInCollection(node).value, ts)
    ensures Reads(ts, LinkExpr("collection_frames", "cf", "collection_id", "collections", "c", Member(node, "value")))
  {
    CollectionNames();
    LinkNeedsValue("collection_frames", "cf", "collection_id", "collections", "c", node);
    hide Yields, Reads, Plain, CompileLink, LinkExpr;
    ts := LinkReads("collection_frames", "cf", "collection_id", "collections", "c", node);
  }

  lemma GroupReads(and: bool, texts: seq<string>, toks: seq<seq<Token>>, es: seq<Expr>) returns (ts: seq<Token>)
    requires texts != [] && |texts| == |toks| == |es|
    requires forall i :: 0 <= i < |texts| ==> Yields(texts[i], toks[i]) && Reads(toks[i], es[i])
    ensures Yields("(" + JoinText(if and then " AND " else " OR ", texts) + ")", ts)
        && Reads(ts, Folded(and, es[0], es[1..]))
  {
    var w := if and then "AND" else "OR";
    assert Printable(Word(w));
    assert " " + "OR" + " " == " OR " && " " + "AND" + " " == " AND ";
    hide Yields, Reads, JoinText, Chain, Printable;
    JoinedInParens(w, texts, toks);
    ReadsChain(and, toks, es);
    ts := [Sym("(")] + Chain(Word(w), toks) + [Sym(")")];
  }

  lemma NotReads(text: string, ts: seq<Token>, e: Expr) returns (all: seq<Token>)
    requires Yields(text, ts) && Reads(ts, e)
    ensures Yields("NOT (" + text + ")", all) && Reads(all, Not(e))
  {
    hide Yields, ParseOr, ParseNot;
    InParens(text, ts);
    forall rest | Starts(rest, Sym(")"))
      ensures ParseOr(ts + rest) == Parsed(e, rest)
    {
      ReadsAlone(ts, e, rest);
    }
    ReadsParens(ts, e);
    hide Reads;
    NegatedReads("(" + text + ")", [Sym("(")] + ts + [Sym(")")], e);
    assert "NOT " + ("(" + text + ")") == "NOT (" + text + ")";
    all := [Word("NOT")] + ([Sym("(")] + ts + [Sym(")")]);
  }

  /** The text of a node is the condition the node stands for. */
  lemma {:induction false} NodeReads(node: Json) returns (ts: seq<Token>)
    requires CompileNode(node).Ok? && NumbersRead(true, node)
    ensures Yields(CompileNode(node).value, ts) && Reads(ts, ExprOf(node))
    decreases node
  {
    hide Yields, Reads, JoinText, Folded, CompileTagged, CompileInCollection, CompileComparison, LinkExpr,
        ComparisonExpr;
    var m := node.members;
    var op := OpOf(m, "").value;
    if op == "and" || op == "or" {
      var items := m["clauses"].items;
      var toks := NodesRead(items);
      ts := GroupReads(op == "and", CompileAll(items).value, toks, ExprsOf(items));
    } else if op == "not" {
      var clause := m["clauses"].items[0];
      OneRead(true, m["clauses"].items);
      var inner := NodeReads(clause);
      ts := NotReads(CompileNode(clause).value, inner, ExprOf(clause));
    } else if op == "tagged" || op == "untagged" {
      ts := TaggedReads(m, op == "untagged");
    } else if op == "in_collection" {
      ts := InCollectionReads(m);
    } else {
      ts := ComparisonReads(m);
    }
  }

  lemma {:induction false} NodesRead(nodes: seq<Json>) returns (toks: seq<seq<Token>>)
    requires CompileAll(nodes).Ok? && AllNumbersRead(true, nodes)
    ensures |toks| == |nodes|
    ensures forall i :: 0 <= i < |nodes| ==>
        Yields(CompileAll(nodes).value[i], toks[i]) && Reads(toks[i], ExprsOf(nodes)[i])
    decreases nodes
  {
    hide Yields, Reads, CompileAll, ExprsOf, CompileNode, ExprOf;
    toks := [];
    if nodes != [] {
      FirstOfAll(nodes);
      var first := NodeReads(nodes[0]);
      var rest := NodesRead(nodes[1..]);
      toks := [first] + rest;
    }
  }

  lemma OneRead(named: bool, nodes: seq<Json>)
    requires |nodes| == 1
    ensures AllNumbersRead(named, nodes) <==> NumbersRead(named, nodes[0])
  {
    hide NumbersRead;
    assert nodes[1..] == [];
  }

  lemma FirstOfAll(nodes: seq<Json>)
    requires CompileAll(nodes).Ok? && nodes != []
    ensures CompileNode(nodes[0]).Ok? && CompileAll(nodes[1..]).Ok?
    ensures CompileAll(nodes).value == [CompileNode(nodes[0]).value] + CompileAll(nodes[1..]).value
    ensures ExprsOf(nodes) == [ExprOf(nodes[0])] + ExprsOf(nodes[1..])
  {
    hide CompileNode, ExprOf;
  }

  // ---- Whole filters ----

  lemma AllReads() returns (ts: seq<Token>)
    ensures Yields("1=1", ts) && Reads(ts, Expr.Compare(Number(false, "1"), "=", Number(false, "1")))
  {
    var ps := [Piece(Num("1"), false), Piece(Sym("="), false), Piece(Num("1"), false)];
    assert Spaced(ps);
    YieldsRendered(ps);
    ts := Tokens(ps);
    assert ts == [Num("1")] + ([Sym("=")] + [Num("1")]);
    NumberReads("1");
    ReadsCompare([Num("1")], Number(false, "1"), Sym("="), [Num("1")], Number(false, "1"));
    hide Yields, Reads;
    assert ps[1..] == [Piece(Sym("="), false), Piece(Num("1"), false)] && ps[1..][1..] == [ps[2]];
    RenderOne(ps[2]);
    assert Render(ps[1..]) == "=" + "" + "1";
    assert Render(ps) == "1=1";
  }

  lemma FilterReads(ast: Json) returns (ts: seq<Token>)
    requires CompileFilter(ast).Ok? && UntornNumbers(ast)
    ensures Yields(CompileFilter(ast).value, ts) && Reads(ts, FilterExpr(ast))
  {
    hide Yields, Reads, CompileNode, ExprOf;
    if ast.JNull? || (ast.JObj? && ast.members == map[]) {
      ts := AllReads();
    } else {
      ts := NodeReads(ast);
    }
  }

  lemma WholeLex(text: string, ts: seq<Token>)
    requires Yields(text, ts)
    ensures Lex(text) == Some(ts)
  {
    assert Lex(text + "") == Prepend(ts, Lex(""));
    hide Lex;
    assert text + "" == text;
    NothingLeft();
    assert ts + [] == ts;
  }

  lemma NothingLeft()
    ensures Lex("") == Some([])
  {
  }

  lemma WholeParse(text: string, ts: seq<Token>, e: Expr)
    requires Yields(text, ts) && Reads(ts, e)
    ensures ParseText(text) == Some(e)
  {
    WholeLex(text, ts);
    ReadsAlone(ts, e, []);
    hide Lex, ParseOr;
    assert ts + [] == ts;
  }

  /** Alone after WHERE, a filter whose numbers are not torn is read as its condition. */
  lemma FilterParses(ast: Json)
    requires CompileFilter(ast).Ok? && UntornNumbers(ast)
    ensures ParseText(CompileFilter(ast).value) == Some(FilterExpr(ast))
  {
    hide Yields, Reads, CompileFilter, FilterExpr, ParseText;
    var ts := FilterReads(ast);
    WholeParse(CompileFilter(ast).value, ts, FilterExpr(ast));
  }

  /** With missing files hidden, the filter and the test for them are joined by AND, whatever the filter is. */
  lemma FilterHidesMissing(ast: Json)
    requires CompileFilter(ast).Ok? && UntornNumbers(ast)
    ensures ParseText("(" + CompileFilter(ast).value + ") AND file_status <> 'missing'")
         == Some(Expr.And(FilterExpr(ast), Expr.Compare(Column("", "file_status"), "<>", Text("missing"))))
  {
    hide *;
    var ts := FilterReads(ast);
    var text, e := CompileFilter(ast).value, FilterExpr(ast);
    InParens(text, ts);
    var tm := MissingReads();
    AndParses("(" + text + ")", [Sym("(")] + ts + [Sym(")")], e, ts, "file_status <> 'missing'", tm,
      Expr.Compare(Column("", "file_status"), "<>", Text("missing")));
    HidingText(text);
  }

  lemma HidingText(text: string)
    ensures "(" + text + ") AND file_status <> 'missing'" == "(" + text + ")" + " AND " + "file_status <> 'missing'"
  {
    assert ") AND file_status <> 'missing'" == ")" + " AND " + "file_status <> 'missing'";
  }

  lemma MissingReads() returns (ts: seq<Token>)
    ensures Yields("file_status <> 'missing'", ts)
    ensures Reads(ts, Expr.Compare(Column("", "file_status"), "<>", Text("missing")))
  {
    hide Yields, OperandReads, Reads, Plain, Quoted, Escape;
    StringFieldIsPlain("file_status");
    FieldReads("file_status");
    var tr := QuotedReads("missing");
    assert Printable(Sym("<>")) && ComparisonOf(Sym("<>")) == Some("<>");
    QuotedMissing();
    hide Printable, ComparisonOf;
    ts := ConditionReads("file_status", [Word("file_status")], Column("", "file_status"), Sym("<>"), "'missing'", tr,
        Text("missing"));
    assert "file_status" + " " + "<>" + " " + "'missing'" == "file_status <> 'missing'";
  }

  lemma QuotedMissing()
    ensures Quoted("missing") == "'missing'"
  {
    hide Escape;
    EscapeLetters("missing");
  }

  lemma {:induction false} EscapeLetters(s: string)
    requires forall i :: 0 <= i < |s| ==> IsAlpha(s[i])
    ensures Escape(s) == s
  {
    if s != "" {
      EscapeLetters(s[1..]);
      assert s == [s[0]] + s[1..];
    }
  }

  lemma AndParses(left: string, tl: seq<Token>, l: Expr, inner: seq<Token>, right: string, tr: seq<Token>, r: Expr)
    requires Yields(left, tl) && tl == [Sym("(")] + inner + [Sym(")")] && Reads(inner, l) && Yields(right, tr)
        && Reads(tr, r)
    ensures ParseText(left + " AND " + right) == Some(Expr.And(l, r))
  {
    hide Yields, Leads, ParseOr, ParseNot, ParseAnd;
    WordBetween("AND");
    assert " " + "AND" + " " == " AND ";
    LeadsYields(" AND ", [Word("AND")], right, tr);
    YieldsThen(left, tl, " AND " + right, [Word("AND")] + tr);
    assert left + (" AND " + right) == left + " AND " + right;
    var all := tl + ([Word("AND")] + tr);
    WholeLex(left + " AND " + right, all);
    forall rest | Starts(rest, Sym(")"))
      ensures ParseOr(inner + rest) == Parsed(l, rest)
    {
      ReadsAlone(inner, l, rest);
    }
    ReadsParens(inner, l);
    AndReads(tl, l, tr, r);
  }

  lemma AndReads(tl: seq<Token>, l: Expr, tr: seq<Token>, r: Expr)
    requires Reads(tl, l) && Reads(tr, r)
    ensures ParseOr(tl + ([Word("AND")] + tr)) == Parsed(Expr.And(l, r), [])
  {
    var all, tail := tl + ([Word("AND")] + tr), [Word("AND")] + tr;
    assert ParseNot(tl + tail) == Parsed(l, tail);
    assert tail[1..] == tr && tr + [] == tr;
    assert ParseNot(tr + []) == Parsed(r, []);
    hide ParseNot;
    assert AndTail(Expr.And(l, r), []) == Parsed(Expr.And(l, r), []);
    assert ParseAnd(all) == Parsed(Expr.And(l, r), []);
    OrEnds(all, Expr.And(l, r), []);
  }
}
