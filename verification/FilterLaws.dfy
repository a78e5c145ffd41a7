/** Compiling a filter keeps its meaning: the condition its text is read as has, on every row, the value
    the filter means. And what that condition names: the fixed vocabulary, and the strings given as
    numbers that are names to the server. */
module FilterLaws {
  import opened Options
  import opened Chars
  import Decimal
  import opened Canon
  import CanonLaws
  import opened SqlText
  import opened SqlParser
  import opened SqlMeaning
  import opened Numerals
  import opened Query
  import opened FilterMeaning
  import opened FilterReading

  // ---- Names ----

  /** How the names of no number begin. */
  predicate OddStart(w: string) {
    |w| >= 3 && LowerChar(w[0]) in ['i', 'n'] && LowerChar(w[1]) in ['n', 'a'] && LowerChar(w[2]) in ['f', 'n']
  }

  lemma OddName(w: string)
    requires NamesNoNumber(w)
    ensures OddStart(w)
  {
    assert |w| == 3 || |w| == 8;
    assert Lower(w)[0] == LowerChar(w[0]) && Lower(w)[1] == LowerChar(w[1]) && Lower(w)[2] == LowerChar(w[2]);
  }

  lemma NoOddColumn(w: string)
    requires OddStart(w)
    ensures w !in STRINGS && w !in NUMBERS && w !in DATES
  {
  }

  lemma NoOddWord(w: string)
    requires OddStart(w)
    ensures w !in SUBQUERY_WORDS
  {
  }

  lemma SubqueryWordIsPlain(w: string)
    requires w in SUBQUERY_WORDS && w != ""
    ensures Plain(w)
  {
    hide Plain;
    TagNames();
    CollectionNames();
    CardNames();
    LowerNameIsPlain("v_frames");
    LowerNameIsPlain("frame_id");
    LowerNameIsPlain("id");
  }

  /** The vocabulary begins with letters and holds nothing but word characters. */
  lemma VocabularyIsPlain(w: string)
    requires w in VOCABULARY && w != ""
    ensures AllWord(w) && !IsDigit(w[0])
  {
    hide Plain, STRINGS, NUMBERS, DATES, SUBQUERY_WORDS, IsKeyword;
    if FieldKind(w).Some? {
      FieldIsPlain(w);
    } else {
      SubqueryWordIsPlain(w);
    }
    PlainWord(w);
  }

  lemma PlainWord(w: string)
    requires Plain(w)
    ensures AllWord(w) && !IsDigit(w[0])
  {
    hide IsKeyword;
  }

  lemma NoNumberUnnamed(w: string)
    requires NamesNoNumber(w) || HexWord(w) || !AllWord(w)
    ensures w !in VOCABULARY
  {
    if NamesNoNumber(w) {
      OddName(w);
      NoOddColumn(w);
      NoOddWord(w);
    } else if w in VOCABULARY {
      hide NamesNoNumber, VOCABULARY;
      VocabularyIsPlain(w);
    }
    hide STRINGS, NUMBERS, DATES, SUBQUERY_WORDS, NamesNoNumber;
  }

  lemma LiteralNames(kind: Kind, v: Json)
    requires Literal(kind, v).Some?
    ensures OperandNames(LiteralOperand(kind, v)) <= VOCABULARY <==> ScalarRead(false, kind, v)
  {
    hide VOCABULARY, IsDecimal, NamesNoNumber, IsHex, IsTaggedNan, IsHexInteger, HexWord, AllWord;
    if v.JStr? && kind.NumberKind? {
      NumeralParts(v.s);
      var n := ReadNumeral(v.s).value;
      hide ReadNumeral;
      if !n.Numeric? {
        NoNumberUnnamed(BodyOf(n));
        assert BodyOf(n) in OperandNames(LiteralOperand(kind, v));
      }
    }
  }

  lemma {:induction false} ListNamesAre(kind: Kind, vs: seq<Json>)
    requires forall i :: 0 <= i < |vs| ==> Literal(kind, vs[i]).Some?
    ensures ListNames(LiteralOperands(kind, vs)) <= VOCABULARY <==> ScalarsRead(false, kind, vs)
    decreases |vs|
  {
    hide VOCABULARY, Literal, LiteralOperand, OperandNames, ScalarRead;
    if vs != [] {
      LiteralNames(kind, vs[0]);
      ListNamesAre(kind, vs[1..]);
      var os := LiteralOperands(kind, vs);
      assert os[0] == LiteralOperand(kind, vs[0]) && os[1..] == LiteralOperands(kind, vs[1..]);
      assert ListNames(os) == OperandNames(os[0]) + ListNames(os[1..]);
      assert forall i :: 1 <= i < |vs| ==> vs[i] == vs[1..][i - 1];
    }
  }

  /** Every condition of the fixed subqueries keeps to the vocabulary. */
  lemma SubqueryNames(s: Source, alias: string, es: seq<Expr>)
    requires SourceNames(s) <= SUBQUERY_WORDS && alias in SUBQUERY_WORDS
    requires forall i :: 0 <= i < |es| ==> Names(es[i]) <= SUBQUERY_WORDS
    ensures Names(Subquery(s, alias, es)) <= SUBQUERY_WORDS
  {
    NamesFolded(true, SameFrameExpr(alias), es, SUBQUERY_WORDS);
    SubqueryWords();
    assert Names(SameFrameExpr(alias)) == {alias, "frame_id", "v_frames"};
    hide SUBQUERY_WORDS, Folded;
  }

  lemma SubqueryWords()
    ensures SUBQUERY_WORDS <= VOCABULARY && "object_canonical" in VOCABULARY
    ensures {"", "frame_id", "v_frames", "frame_keywords", "k", "keyword", "value", "id", "name"} <= SUBQUERY_WORDS
    ensures {"frame_tags", "ft", "tag_id", "tags", "t", "collection_frames", "cf", "collection_id", "collections",
        "c"} <= SUBQUERY_WORDS
  {
    hide STRINGS, DATES, NUMBERS;
    assert "object_canonical" in VOCABULARY by {
      assert "object_canonical" in STRINGS by { ObjectColumn(); }
    }
  }

  lemma ObjectColumn()
    ensures "object_canonical" in STRINGS && FieldKind("object") == Some(StringKind)
  {
  }

  lemma PairNames(a: Operand, op: string, b: Operand)
    requires OperandNames(a) <= SUBQUERY_WORDS && OperandNames(b) == {}
    ensures Names(Expr.Compare(a, op, b)) <= SUBQUERY_WORDS
  {
    hide OperandNames, SUBQUERY_WORDS;
  }

  lemma CardNamesIn(es: seq<Expr>)
    requires forall i :: 0 <= i < |es| ==> Names(es[i]) <= SUBQUERY_WORDS
    ensures Names(Subquery(Table("frame_keywords", "k"), "k", es)) <= SUBQUERY_WORDS
  {
    SubqueryWords();
    hide SUBQUERY_WORDS, Subquery, Names;
    assert SourceNames(Table("frame_keywords", "k")) == {"frame_keywords", "k"};
    SubqueryNames(Table("frame_keywords", "k"), "k", es);
  }

  lemma CardOperands(number: bool)
    ensures OperandNames(if number then Cast("k", "value") else Column("k", "value")) <= SUBQUERY_WORDS
    ensures OperandNames(Column("k", "keyword")) <= SUBQUERY_WORDS
  {
    SubqueryWords();
    hide SUBQUERY_WORDS;
  }

  lemma KeywordNames(kw: string, node: Node)
    requires CompileKeyword(kw, node).Ok?
    ensures Names(KeywordExpr(kw, OpOf(node, "eq").GetOr("eq"), Member(node, "value"))) <= SUBQUERY_WORDS
  {
    hide SUBQUERY_WORDS, BinOp, Operator, Literal, LiteralOperand, Subquery, CompileKeyword, Names, OperandNames;
    var op, v := OpOf(node, "eq").GetOr("eq"), Member(node, "value");
    var card := Expr.Compare(Column("k", "keyword"), "=", Text(kw));
    CardOperands(v.JNum?);
    NoTextNames(kw);
    PairNames(Column("k", "keyword"), "=", Text(kw));
    if op == "isnull" || op == "notnull" {
      var e := Subquery(Table("frame_keywords", "k"), "k", [card]);
      CardNamesIn([card]);
      UnlessNames(op == "isnull", e);
    } else {
      var kind := if v.JNum? then NumberKind else StringKind;
      var left := if v.JNum? then Cast("k", "value") else Column("k", "value");
      CardLiteral(v);
      PairNames(left, Operator(op), LiteralOperand(kind, v));
      CardNamesIn([card, Expr.Compare(left, Operator(op), LiteralOperand(kind, v))]);
    }
  }

  lemma NoTextNames(s: string)
    ensures OperandNames(Text(s)) == {}
  {
  }

  lemma UnlessNames(negate: bool, e: Expr)
    ensures Names(Unless(negate, e)) == Names(e)
  {
  }

  /** The value of a card condition names nothing. */
  lemma CardLiteral(v: Json)
    ensures OperandNames(LiteralOperand(if v.JNum? then NumberKind else StringKind, v)) == {}
  {
  }

  lemma IntNames(n: int)
    ensures OperandNames(IntOperand(n)) == {}
  {
  }

  lemma LinkNames(link: string, l: string, key: string, target: string, t: string, v: Json)
    requires {link, l, key, target, t} <= SUBQUERY_WORDS
    ensures Names(LinkExpr(link, l, key, target, t, v)) <= SUBQUERY_WORDS
  {
    hide SUBQUERY_WORDS, Subquery, IntOperand;
    SubqueryWords();
    CardLiteral(v);
    var on := Expr.Compare(Column(t, "id"), "=", Column(l, key));
    assert Names(on) == {t, "id", l, key};
    var source := Join(link, l, target, t, on);
    assert SourceNames(source) == {link, l, target, t} + Names(on);
    if v.JNum? {
      var same := Expr.Compare(Column(l, key), "=", IntOperand(Truncated(v.d)));
      IntNames(Truncated(v.d));
      assert Names(same) == {l, key};
      SubqueryNames(source, l, [same]);
    } else {
      var same := Expr.Compare(Column(t, "name"), "=", LiteralOperand(StringKind, v));
      assert Names(same) == {t, "name"};
      SubqueryNames(source, l, [same]);
    }
  }

  lemma FieldInVocabulary(field: string)
    requires FieldKind(field).Some?
    ensures field in VOCABULARY && "" in VOCABULARY
  {
    SubqueryWords();
    hide SUBQUERY_WORDS;
  }

  lemma ColumnNames(field: string)
    ensures OperandNames(Column("", field)) == {"", field}
  {
  }

  /** Only a numeric column can be compared with something that is no finite number. */
  lemma TextIsRead(kind: Kind, v: Json)
    requires !kind.NumberKind?
    ensures ScalarRead(false, kind, v)
  {
  }

  lemma DesignationNames(like: bool, ds: seq<string>)
    requires ds != []
    ensures var es := DesignationExprs(like, ds); Names(Folded(false, es[0], es[1..])) <= VOCABULARY
  {
    SubqueryWords();
    hide VOCABULARY, SUBQUERY_WORDS, Folded;
    var es := DesignationExprs(like, ds);
    forall i | 0 <= i < |es|
      ensures Names(es[i]) <= VOCABULARY
    {
      assert Names(es[i]) == {"", "object_canonical"};
    }
    NamesFolded(false, es[0], es[1..], VOCABULARY);
  }

  lemma InNames(field: string, kind: Kind, vs: seq<Json>)
    requires {"", field} <= VOCABULARY && forall i :: 0 <= i < |vs| ==> Literal(kind, vs[i]).Some?
    ensures Names(In(Column("", field), LiteralOperands(kind, vs))) <= VOCABULARY
       <==> ScalarsRead(false, kind, vs)
  {
    ColumnNames(field);
    ListNamesAre(kind, vs);
    hide VOCABULARY, OperandNames, ListNames, LiteralOperands, ScalarsRead, Literal;
  }

  lemma BetweenNames(field: string, kind: Kind, low: Json, high: Json)
    requires {"", field} <= VOCABULARY && Literal(kind, low).Some? && Literal(kind, high).Some?
    ensures Names(Between(Column("", field), LiteralOperand(kind, low), LiteralOperand(kind, high))) <= VOCABULARY
       <==> ScalarRead(false, kind, low) && ScalarRead(false, kind, high)
  {
    ColumnNames(field);
    LiteralNames(kind, low);
    LiteralNames(kind, high);
    hide VOCABULARY, OperandNames, LiteralOperand, ScalarRead, Literal;
  }

  lemma ComparedNames(field: string, op: string, kind: Kind, v: Json)
    requires {"", field} <= VOCABULARY && Literal(kind, v).Some?
    ensures Names(Expr.Compare(Column("", field), op, LiteralOperand(kind, v))) <= VOCABULARY
        <==> ScalarRead(false, kind, v)
  {
    ColumnNames(field);
    LiteralNames(kind, v);
    hide VOCABULARY, OperandNames, LiteralOperand, ScalarRead, Literal;
  }

  lemma ObjectNames(kind: Kind, op: string, node: Node)
    requires FieldKind("object") == Some(kind) && ByDesignation("object", op, node)
    ensures Names(FieldExpr("object", kind, op, node)) <= VOCABULARY && FieldRead(false, kind, op, node)
  {
    ObjectColumn();
    SomeDesignation(node["value"].s);
    DesignationNames(op == "like", Designations(node["value"].s));
    TextIsRead(kind, node["value"]);
    hide VOCABULARY, FieldKind, Designations, DesignationExprs, Folded, Names, ScalarRead;
  }

  /** What a field comparison that compiles has for a value. */
  lemma ValueCompiled(field: string, kind: Kind, op: string, node: Node)
    requires CompileField(field, kind, op, node).Ok?
    requires op != "isnull" && op != "notnull" && !ByDesignation(field, op, node)
    ensures var v := Member(node, "value");
            if op == "in" then v.JArr? && forall i :: 0 <= i < |v.items| ==> Literal(kind, v.items[i]).Some?
            else if op == "between" then v.JArr? && |v.items| == 2 && Literal(kind, v.items[0]).Some?
                && Literal(kind, v.items[1]).Some?
            else Literal(kind, v).Some? && BinOp(op).Some?
  {
    hide ByDesignation, Literal, BinOp, JoinText, Compared;
  }

  lemma PairRead(kind: Kind, vs: seq<Json>)
    requires |vs| == 2
    ensures ScalarsRead(false, kind, vs) <==> ScalarRead(false, kind, vs[0]) && ScalarRead(false, kind, vs[1])
  {
    hide ScalarRead;
  }

  lemma ValueNames(field: string, kind: Kind, op: string, node: Node)
    requires FieldKind(field) == Some(kind) && CompileField(field, kind, op, node).Ok?
    requires op != "isnull" && op != "notnull" && !ByDesignation(field, op, node)
    ensures Names(FieldExpr(field, kind, op, node)) <= VOCABULARY <==> FieldRead(false, kind, op, node)
  {
    FieldInVocabulary(field);
    ValueCompiled(field, kind, op, node);
    hide VOCABULARY, SUBQUERY_WORDS, FieldKind, CompileField, Operator, Literal, LiteralOperand, ScalarRead,
        ScalarsRead;
    hide LiteralOperands, Names, ByDesignation, BinOp;
    var v := Member(node, "value");
    if op == "in" {
      InNames(field, kind, v.items);
    } else if op == "between" {
      BetweenNames(field, kind, v.items[0], v.items[1]);
      PairRead(kind, v.items);
    } else {
      ComparedNames(field, Operator(op), kind, v);
    }
  }

  lemma FieldNames(field: string, kind: Kind, op: string, node: Node)
    requires FieldKind(field) == Some(kind) && CompileField(field, kind, op, node).Ok?
    ensures Names(FieldExpr(field, kind, op, node)) <= VOCABULARY <==> FieldRead(false, kind, op, node)
  {
    hide VOCABULARY, SUBQUERY_WORDS, FieldKind, CompileField, Designations, Folded, OperandNames;
    if op == "isnull" || op == "notnull" {
      FieldInVocabulary(field);
      ColumnNames(field);
      assert Names(FieldExpr(field, kind, op, node)) == {"", field};
    } else if ByDesignation(field, op, node) {
      ObjectNames(kind, op, node);
    } else {
      hide Names;
      ValueNames(field, kind, op, node);
    }
  }

  lemma ComparisonNames(node: Node)
    requires CompileComparison(node).Ok?
    ensures Names(ComparisonExpr(node)) <= VOCABULARY <==> ComparisonRead(false, node)
  {
    hide VOCABULARY, SUBQUERY_WORDS, FieldKind, CompileKeyword, CompileField, KeywordExpr, FieldExpr, FieldRead;
    var field := node["field"].s;
    if KEYWORD_PREFIX <= field {
      OpGiven(field[|KEYWORD_PREFIX|..], node);
      SubqueryWords();
      KeywordNames(field[|KEYWORD_PREFIX|..], node);
    } else {
      FieldNames(field, FieldKind(field).value, OpOf(node, "eq").value, node);
    }
  }

  lemma TaggedNames(v: Json)
    ensures Names(LinkExpr("frame_tags", "ft", "tag_id", "tags", "t", v)) <= SUBQUERY_WORDS
    ensures Names(LinkExpr("collection_frames", "cf", "collection_id", "collections", "c", v)) <= SUBQUERY_WORDS
  {
    SubqueryWords();
    hide SUBQUERY_WORDS, LinkExpr;
    LinkNames("frame_tags", "ft", "tag_id", "tags", "t", v);
    LinkNames("collection_frames", "cf", "collection_id", "collections", "c", v);
  }

  ghost predicate AllWithin(es: seq<Expr>) {
    forall i :: 0 <= i < |es| ==> Names(es[i]) <= VOCABULARY
  }

  lemma GroupNames(and: bool, es: seq<Expr>)
    requires es != []
    ensures Names(Folded(and, es[0], es[1..])) <= VOCABULARY <==> AllWithin(es)
  {
    hide VOCABULARY, Names, Folded;
    NamesFolded(and, es[0], es[1..], VOCABULARY);
    assert forall i :: 0 <= i < |es| - 1 ==> es[1..][i] == es[i + 1];
    assert forall i :: 1 <= i < |es| ==> es[i] == es[1..][i - 1];
  }

  lemma {:induction false} NodeNames(node: Json)
    requires CompileNode(node).Ok?
    ensures Names(ExprOf(node)) <= VOCABULARY <==> NumbersRead(false, node)
    decreases node
  {
    hide VOCABULARY, SUBQUERY_WORDS, Folded, JoinText, CompileTagged, CompileInCollection, CompileComparison,
        ComparisonExpr;
    hide LinkExpr, ComparisonRead;
    var m := node.members;
    var op := OpOf(m, "").value;
    if op == "and" || op == "or" {
      NodesNames(m["clauses"].items);
      var es := ExprsOf(m["clauses"].items);
      GroupNames(op == "and", es);
    } else if op == "not" {
      NodeNames(m["clauses"].items[0]);
      OneRead(false, m["clauses"].items);
    } else if op == "tagged" || op == "untagged" || op == "in_collection" {
      SubqueryWords();
      TaggedNames(Member(m, "value"));
    } else {
      ComparisonNames(m);
    }
  }

  lemma {:induction false} NodesNames(nodes: seq<Json>)
    requires CompileAll(nodes).Ok?
    ensures AllWithin(ExprsOf(nodes)) <==> AllNumbersRead(false, nodes)
    decreases nodes
  {
    hide VOCABULARY, CompileAll, ExprsOf, CompileNode, ExprOf, NumbersRead;
    if nodes != [] {
      FirstOfAll(nodes);
      NodeNames(nodes[0]);
      NodesNames(nodes[1..]);
      var es, rest := ExprsOf(nodes), ExprsOf(nodes[1..]);
      assert es[0] == ExprOf(nodes[0]);
      assert forall i :: 0 <= i < |rest| ==> es[i + 1] == rest[i];
      assert forall i :: 1 <= i < |nodes| ==> es[i] == rest[i - 1];
    }
  }

  // ---- Meaning ----

  lemma LiteralMeans(w: World, env: Env, kind: Kind, v: Json)
    requires Literal(kind, v).Some? && ScalarRead(false, kind, v)
    ensures OperandValue(w, env, LiteralOperand(kind, v)) == ScalarValue(kind, v)
  {
    hide ReadNumeral, Magnitude, Shown, RealOf, SixDecimals;
    if v.JNum? && kind.NumberKind? {
      MagnitudeValue(v.d);
    }
  }

  lemma IntMeans(w: World, env: Env, n: int)
    ensures OperandValue(w, env, IntOperand(n)) == NumV(n as real)
  {
    WholeValue(if n < 0 then -n else n);
    hide RealOf, Decimal.ToDec;
  }

  /** A conjunction holds when each part holds. */
  lemma AllHold(w: World, env: Env, first: Expr, more: seq<Expr>)
    ensures Eval(w, env, Folded(true, first, more)) == True
       <==> Eval(w, env, first) == True && forall i :: 0 <= i < |more| ==> Eval(w, env, more[i]) == True
  {
    EvalFolded(w, env, true, first, more);
    hide Eval, Folded;
    var vs := [Eval(w, env, first)] + Evals(w, env, more);
    assert vs[0] == Eval(w, env, first);
    assert forall i :: 0 <= i < |more| ==> vs[i + 1] == Eval(w, env, more[i]);
    if Conjunction(vs) == True {
      forall i | 0 <= i < |more|
        ensures Eval(w, env, more[i]) == True
      {
        assert vs[i + 1] in vs;
      }
      assert vs[0] in vs;
    }
  }

  lemma CompareMeans(w: World, env: Env, l: Operand, op: string, r: Operand)
    ensures Eval(w, env, Expr.Compare(l, op, r))
        == CompareValues(w, op, OperandValue(w, env, l), OperandValue(w, env, r))
  {
  }

  lemma ColumnMeans(w: World, env: Env, row: string, name: string)
    requires OuterRow(row) in env
    ensures OperandValue(w, env, Column(row, name)) == Get(env[OuterRow(row)], name)
  {
  }

  /** The rows of a subquery over one table. */
  lemma TableMeans(w: World, row: Row, table: string, alias: string, es: seq<Expr>, condition: Row -> bool)
    requires alias != "" && alias != "v_frames"
    requires forall r: Row ::
               condition(r) <==> forall i :: 0 <= i < |es| ==> Eval(w, Outer(row)[alias := r], es[i]) == True
    ensures Eval(w, Outer(row), Subquery(Table(table, alias), alias, es)) == Of(SomeRow(w, table, row, condition))
  {
    var rows := TableRows(w, table);
    var where := Folded(true, SameFrameExpr(alias), es);
    forall i | 0 <= i < |rows|
      ensures Eval(w, Outer(row)[alias := rows[i]], where) == True
         <==> Holds(w, "=", Get(rows[i], "frame_id"), Get(row, "frame_id")) && condition(rows[i])
    {
      var env := Outer(row)[alias := rows[i]];
      AllHold(w, env, SameFrameExpr(alias), es);
      CompareMeans(w, env, Column(alias, "frame_id"), "=", Column("v_frames", "frame_id"));
      hide Eval, Folded, CompareValues;
      ColumnMeans(w, env, alias, "frame_id");
      ColumnMeans(w, env, "v_frames", "frame_id");
    }
    hide Folded;
  }

  /** The pairs of rows of a subquery over a link table and what it links to. */
  lemma JoinMeans(w: World, row: Row, link: string, l: string, key: string, target: string, t: string, e: Expr,
      condition: (Row, Row) -> bool)
    requires l != "" && t != "" && l != "v_frames" && t != "v_frames" && l != t
    requires forall a: Row, b: Row :: condition(a, b) <==> Eval(w, Outer(row)[l := a][t := b], e) == True
    ensures var on := Expr.Compare(Column(t, "id"), "=", Column(l, key));
            Eval(w, Outer(row), Subquery(Join(link, l, target, t, on), l, [e]))
                == Of(SomePair(w, link, key, target, row, condition))
  {
    var ls, ts := TableRows(w, link), TableRows(w, target);
    var on := Expr.Compare(Column(t, "id"), "=", Column(l, key));
    var where := Folded(true, SameFrameExpr(l), [e]);
    forall i, j | 0 <= i < |ls| && 0 <= j < |ts|
      ensures (Eval(w, Outer(row)[l := ls[i]][t := ts[j]], on) == True
               && Eval(w, Outer(row)[l := ls[i]][t := ts[j]], where) == True)
         <==> (Holds(w, "=", Get(ts[j], "id"), Get(ls[i], key))
               && Holds(w, "=", Get(ls[i], "frame_id"), Get(row, "frame_id"))
               && condition(ls[i], ts[j]))
    {
      PairMeans(w, row, l, ls[i], key, t, ts[j], e);
    }
    hide Folded;
  }

  lemma PairMeans(w: World, row: Row, l: string, a: Row, key: string, t: string, b: Row, e: Expr)
    requires l != "" && t != "" && l != "v_frames" && t != "v_frames" && l != t
    ensures var env := Outer(row)[l := a][t := b];
            && (Eval(w, env, Expr.Compare(Column(t, "id"), "=", Column(l, key))) == True
                <==> Holds(w, "=", Get(b, "id"), Get(a, key)))
            && (Eval(w, env, Folded(true, SameFrameExpr(l), [e])) == True
                <==> Holds(w, "=", Get(a, "frame_id"), Get(row, "frame_id")) && Eval(w, env, e) == True)
  {
    var env := Outer(row)[l := a][t := b];
    AllHold(w, env, SameFrameExpr(l), [e]);
    CompareMeans(w, env, Column(l, "frame_id"), "=", Column("v_frames", "frame_id"));
    CompareMeans(w, env, Column(t, "id"), "=", Column(l, key));
    hide Eval, Folded, CompareValues;
    ColumnMeans(w, env, l, "frame_id");
    ColumnMeans(w, env, "v_frames", "frame_id");
    ColumnMeans(w, env, t, "id");
    ColumnMeans(w, env, l, key);
    assert [e][0] == e;
  }

  lemma CardMeans(w: World, row: Row, r: Row, kw: string)
    ensures Eval(w, Outer(row)["k" := r], CardExpr(kw)) == CompareValues(w, "=", Get(r, "keyword"), TextV(kw))
  {
    var env := Outer(row)["k" := r];
    CompareMeans(w, env, Column("k", "keyword"), "=", Text(kw));
    hide Eval, CompareValues;
    ColumnMeans(w, env, "k", "keyword");
  }

  lemma PresenceMeans(w: World, row: Row, kw: string)
    ensures Eval(w, Outer(row), Subquery(Table("frame_keywords", "k"), "k", [CardExpr(kw)]))
         == Of(SomeRow(w, "frame_keywords", row, k => Holds(w, "=", Get(k, "keyword"), TextV(kw))))
  {
    hide Eval, CompareValues, CardExpr, Subquery, SomeRow;
    var condition := (k: Row) => Holds(w, "=", Get(k, "keyword"), TextV(kw));
    var es := [CardExpr(kw)];
    forall r: Row
      ensures condition(r) <==> forall i :: 0 <= i < |es| ==> Eval(w, Outer(row)["k" := r], es[i]) == True
    {
      CardMeans(w, row, r, kw);
      assert es[0] == CardExpr(kw);
    }
    TableMeans(w, row, "frame_keywords", "k", es, condition);
  }

  /** The operator in the text asks what the filter asks. */
  lemma OperatorAsks(w: World, op: string, a: Value, b: Value)
    requires BinOp(op).Some?
    ensures CompareValues(w, Operator(op), a, b) == Asked(w, op, a, b)
  {
  }

  /** A card's value compared as a number or as text. */
  lemma CardValueMeans(w: World, row: Row, r: Row, op: string, v: Json)
    requires BinOp(op).Some? && Literal(if v.JNum? then NumberKind else StringKind, v).Some?
    ensures var kind := if v.JNum? then NumberKind else StringKind;
            var left := if v.JNum? then Cast("k", "value") else Column("k", "value");
            var value := if v.JNum? then w.decimal(Get(r, "value")) else Get(r, "value");
            var asked := if v.JNum? then NumV(Shown(v.d)) else ScalarValue(StringKind, v);
            Eval(w, Outer(row)["k" := r], Expr.Compare(left, Operator(op), LiteralOperand(kind, v)))
                == Asked(w, op, value, asked)
  {
    var kind := if v.JNum? then NumberKind else StringKind;
    var left := if v.JNum? then Cast("k", "value") else Column("k", "value");
    var env := Outer(row)["k" := r];
    CompareMeans(w, env, left, Operator(op), LiteralOperand(kind, v));
    LiteralMeans(w, env, kind, v);
    OperatorAsks(w, op, if v.JNum? then w.decimal(Get(r, "value")) else Get(r, "value"),
        if v.JNum? then NumV(Shown(v.d)) else ScalarValue(StringKind, v));
    hide Eval, CompareValues, Asked, BinOp, Shown, Literal, LiteralOperand, Operator;
  }

  lemma CardComparedMeans(w: World, row: Row, kw: string, op: string, v: Json)
    requires BinOp(op).Some? && Literal(if v.JNum? then NumberKind else StringKind, v).Some? && op != "isnull"
        && op != "notnull"
    ensures Eval(w, Outer(row), KeywordExpr(kw, op, v)) == KeywordMeaning(w, row, kw, op, v)
  {
    hide Eval, CompareValues, Asked, CardExpr, Subquery, SomeRow, Literal, LiteralOperand, Operator, BinOp, Shown;
    var kind := if v.JNum? then NumberKind else StringKind;
    var left := if v.JNum? then Cast("k", "value") else Column("k", "value");
    var test := Expr.Compare(left, Operator(op), LiteralOperand(kind, v));
    var es := [CardExpr(kw), test];
    CardExprIs(kw);
    forall r: Row
      ensures (forall i :: 0 <= i < |es| ==> Eval(w, Outer(row)["k" := r], es[i]) == True)
         <==> Holds(w, "=", Get(r, "keyword"), TextV(kw)) && Eval(w, Outer(row)["k" := r], test) == True
    {
      CardMeans(w, row, r, kw);
      assert es[0] == CardExpr(kw) && es[1] == test;
    }
    forall r: Row
      ensures Eval(w, Outer(row)["k" := r], test)
           == Asked(w, op, if v.JNum? then w.decimal(Get(r, "value")) else Get(r, "value"),
                            if v.JNum? then NumV(Shown(v.d)) else ScalarValue(StringKind, v))
    {
      CardValueMeans(w, row, r, op, v);
    }
    if v.JNum? {
      TableMeans(w, row, "frame_keywords", "k", es, k =>
        Holds(w, "=", Get(k, "keyword"), TextV(kw))
            && Asked(w, op, w.decimal(Get(k, "value")), NumV(Shown(v.d))) == True);
    } else {
      TableMeans(w, row, "frame_keywords", "k", es, k =>
        Holds(w, "=", Get(k, "keyword"), TextV(kw))
            && Asked(w, op, Get(k, "value"), ScalarValue(StringKind, v)) == True);
    }
  }

  lemma CardExprIs(kw: string)
    ensures CardExpr(kw) == Expr.Compare(Column("k", "keyword"), "=", Text(kw))
  {
  }

  lemma NotMeans(w: World, env: Env, negate: bool, e: Expr, b: bool)
    requires Eval(w, env, e) == Of(b)
    ensures Eval(w, env, Unless(negate, e)) == Of(b != negate)
  {
  }

  lemma KeywordMeans(w: World, row: Row, kw: string, node: Node)
    requires CompileKeyword(kw, node).Ok?
    ensures var op := OpOf(node, "eq").GetOr("eq");
            Eval(w, Outer(row), KeywordExpr(kw, op, Member(node, "value")))
                == KeywordMeaning(w, row, kw, op, Member(node, "value"))
  {
    hide Eval, CompareValues, Subquery, SomeRow, Literal, LiteralOperand, Operator, BinOp, Shown, ExistsText, Compared,
        Quoted;
    var op := OpOf(node, "eq").GetOr("eq");
    if op == "isnull" || op == "notnull" {
      PresenceMeans(w, row, kw);
      var present := SomeRow(w, "frame_keywords", row, k => Holds(w, "=", Get(k, "keyword"), TextV(kw)));
      NotMeans(w, Outer(row), op == "isnull", Subquery(Table("frame_keywords", "k"), "k", [CardExpr(kw)]), present);
    } else {
      CardComparedMeans(w, row, kw, op, node["value"]);
    }
  }

  lemma LinkMeans(w: World, row: Row, link: string, l: string, key: string, target: string, t: string, v: Json)
    requires l != "" && t != "" && l != "v_frames" && t != "v_frames" && l != t
    requires v.JNum? || v.JStr?
    ensures Eval(w, Outer(row), LinkExpr(link, l, key, target, t, v)) == Of(Linked(w, row, link, key, target, v))
  {
    hide Eval, CompareValues, Subquery, SomePair, LiteralOperand, IntOperand;
    if v.JNum? {
      var n := Truncated(v.d);
      var e := Expr.Compare(Column(l, key), "=", IntOperand(n));
      var condition := (a: Row, b: Row) => Holds(w, "=", Get(a, key), NumV(n as real));
      forall a: Row, b: Row
        ensures condition(a, b) <==> Eval(w, Outer(row)[l := a][t := b], e) == True
      {
        var env := Outer(row)[l := a][t := b];
        CompareMeans(w, env, Column(l, key), "=", IntOperand(n));
        IntMeans(w, env, n);
        ColumnMeans(w, env, l, key);
      }
      JoinMeans(w, row, link, l, key, target, t, e, condition);
    } else {
      var e := Expr.Compare(Column(t, "name"), "=", LiteralOperand(StringKind, v));
      var condition := (a: Row, b: Row) => Holds(w, "=", Get(b, "name"), ScalarValue(StringKind, v));
      forall a: Row, b: Row
        ensures condition(a, b) <==> Eval(w, Outer(row)[l := a][t := b], e) == True
      {
        var env := Outer(row)[l := a][t := b];
        CompareMeans(w, env, Column(t, "name"), "=", LiteralOperand(StringKind, v));
        LiteralMeans(w, env, StringKind, v);
        ColumnMeans(w, env, t, "name");
      }
      JoinMeans(w, row, link, l, key, target, t, e, condition);
    }
  }

  // ---- Fields ----

  lemma OuterColumn(w: World, row: Row, field: string)
    ensures OperandValue(w, Outer(row), Column("", field)) == Get(row, field)
  {
  }

  lemma ObjectMeans(w: World, row: Row, kind: Kind, op: string, node: Node)
    requires ByDesignation("object", op, node)
    ensures Eval(w, Outer(row), FieldExpr("object", kind, op, node)) == FieldMeaning(w, row, "object", kind, op, node)
  {
    hide Designations, Folded, Eval, Disjunction, CompareValues, Asked, DesignationExpr, DesignationValue, Operator;
    var ds := Designations(node["value"].s);
    SomeDesignation(node["value"].s);
    var es := DesignationExprs(op == "like", ds);
    forall i | 0 <= i < |ds|
      ensures Eval(w, Outer(row), es[i])
           == Asked(w, op, Get(row, "object_canonical"), DesignationValue(op == "like", ds[i]))
    {
      DesignationMeans(w, row, op, ds[i]);
    }
    EvalFolded(w, Outer(row), false, es[0], es[1..]);
    assert [Eval(w, Outer(row), es[0])] + Evals(w, Outer(row), es[1..])
        == Searches(w, op, Get(row, "object_canonical"), ds);
  }

  lemma DesignationMeans(w: World, row: Row, op: string, d: string)
    requires op == "eq" || op == "like"
    ensures Eval(w, Outer(row), DesignationExpr(op == "like", d))
         == Asked(w, op, Get(row, "object_canonical"), DesignationValue(op == "like", d))
  {
    var e := DesignationExpr(op == "like", d);
    hide Eval, CompareValues, Asked;
    CompareMeans(w, Outer(row), e.left, e.op, e.right);
    OuterColumn(w, row, "object_canonical");
    OperatorAsks(w, op, Get(row, "object_canonical"), DesignationValue(op == "like", d));
  }

  lemma InMeans(w: World, row: Row, field: string, kind: Kind, vs: seq<Json>)
    requires ScalarsRead(false, kind, vs) && forall i :: 0 <= i < |vs| ==> Literal(kind, vs[i]).Some?
    ensures Eval(w, Outer(row), In(Column("", field), LiteralOperands(kind, vs)))
         == Disjunction(Equalities(w, Get(row, field), kind, vs))
  {
    hide CompareValues, Disjunction, Literal, LiteralOperand, ScalarRead, ScalarValue;
    var env, x := Outer(row), Get(row, field);
    var ys := Values(w, env, LiteralOperands(kind, vs));
    forall i | 0 <= i < |vs|
      ensures ys[i] == ScalarValue(kind, vs[i])
    {
      LiteralMeans(w, env, kind, vs[i]);
    }
    AnyEqualIsDisjunction(w, x, ys);
    OuterColumn(w, row, field);
    assert Equalities(w, x, kind, vs)
        == seq(|ys|, i requires 0 <= i < |ys| => CompareValues(w, "=", x, ys[i]));
  }

  lemma BetweenMeans(w: World, row: Row, field: string, kind: Kind, low: Json, high: Json)
    requires Literal(kind, low).Some? && Literal(kind, high).Some? && ScalarRead(false, kind, low)
        && ScalarRead(false, kind, high)
    ensures Eval(w, Outer(row), Between(Column("", field), LiteralOperand(kind, low), LiteralOperand(kind, high)))
         == Conjunction([CompareValues(w, ">=", Get(row, field), ScalarValue(kind, low)),
                         CompareValues(w, "<=", Get(row, field), ScalarValue(kind, high))])
  {
    var x, lo, hi := Column("", field), LiteralOperand(kind, low), LiteralOperand(kind, high);
    LiteralMeans(w, Outer(row), kind, low);
    LiteralMeans(w, Outer(row), kind, high);
    OuterColumn(w, row, field);
    EvalBetween(w, Outer(row), x, lo, hi);
    hide Eval, CompareValues, Literal, LiteralOperand, ScalarRead, ScalarValue, OperandValue;
  }

  lemma EvalBetween(w: World, env: Env, x: Operand, low: Operand, high: Operand)
    ensures var v := OperandValue(w, env, x);
            var a, b := CompareValues(w, ">=", v, OperandValue(w, env, low)),
                CompareValues(w, "<=", v, OperandValue(w, env, high));
            Eval(w, env, Between(x, low, high)) == Conjunction([a, b])
  {
    hide OperandValue, CompareValues, Conjunction;
    var v := OperandValue(w, env, x);
    var a, b := CompareValues(w, ">=", v, OperandValue(w, env, low)),
        CompareValues(w, "<=", v, OperandValue(w, env, high));
    Single(a);
    Single(b);
    AndOfConjunctions([a], [b]);
    assert [a] + [b] == [a, b];
  }

  lemma ValueMeans(w: World, row: Row, field: string, kind: Kind, op: string, node: Node)
    requires CompileField(field, kind, op, node).Ok? && FieldRead(false, kind, op, node)
    requires op != "isnull" && op != "notnull" && !ByDesignation(field, op, node)
    ensures Eval(w, Outer(row), FieldExpr(field, kind, op, node)) == FieldMeaning(w, row, field, kind, op, node)
  {
    var x, v := Column("", field), Member(node, "value");
    OuterColumn(w, row, field);
    ValueCompiled(field, kind, op, node);
    hide CompileField, CompareValues, Asked, Literal, LiteralOperand, LiteralOperands, ScalarRead, ScalarsRead,
        ScalarValue,
        OperandValue;
    hide Operator, BinOp, Disjunction, Conjunction, Eval, ByDesignation, Equalities, SomeRow;
    if op == "in" {
      InMeans(w, row, field, kind, v.items);
    } else if op == "between" {
      PairRead(kind, v.items);
      BetweenMeans(w, row, field, kind, v.items[0], v.items[1]);
    } else {
      CompareMeans(w, Outer(row), x, Operator(op), LiteralOperand(kind, v));
      LiteralMeans(w, Outer(row), kind, v);
      OperatorAsks(w, op, Get(row, field), ScalarValue(kind, v));
    }
  }

  lemma FieldMeans(w: World, row: Row, field: string, kind: Kind, op: string, node: Node)
    requires FieldKind(field) == Some(kind) && CompileField(field, kind, op, node).Ok?
        && FieldRead(false, kind, op, node)
    ensures Eval(w, Outer(row), FieldExpr(field, kind, op, node)) == FieldMeaning(w, row, field, kind, op, node)
  {
    hide Eval, CompileField, Folded, Disjunction, Conjunction, FieldKind, OperandValue, FieldRead;
    if op == "isnull" || op == "notnull" {
      OuterColumn(w, row, field);
      NullMeans(w, Outer(row), Column("", field), op == "notnull");
    } else if ByDesignation(field, op, node) {
      ObjectMeans(w, row, kind, op, node);
    } else {
      hide FieldExpr, FieldMeaning;
      ValueMeans(w, row, field, kind, op, node);
    }
  }

  lemma NullMeans(w: World, env: Env, x: Operand, negated: bool)
    ensures Eval(w, env, Null(x, negated)) == Of(OperandValue(w, env, x).NullV? != negated)
  {
  }

  lemma ComparisonMeans(w: World, row: Row, node: Node)
    requires CompileComparison(node).Ok? && ComparisonRead(false, node)
    ensures Eval(w, Outer(row), ComparisonExpr(node)) == ComparisonMeaning(w, row, node)
  {
    hide Eval, FieldKind, CompileKeyword, CompileField, KeywordExpr, FieldExpr, FieldRead, KeywordMeaning, FieldMeaning;
    var field := node["field"].s;
    if KEYWORD_PREFIX <= field {
      OpGiven(field[|KEYWORD_PREFIX|..], node);
      KeywordMeans(w, row, field[|KEYWORD_PREFIX|..], node);
    } else {
      FieldMeans(w, row, field, FieldKind(field).value, OpOf(node, "eq").value, node);
    }
  }

  lemma LinkValue(link: string, l: string, key: string, target: string, t: string, node: Node)
    requires CompileLink(link, l, key, target, t, node).Ok?
    ensures Member(node, "value").JNum? || Member(node, "value").JStr?
  {
    hide ExistsText, LinkSource, Compared, SameFrame, Quoted, IntText;
  }

  lemma TaggedMeans(w: World, row: Row, node: Node, negate: bool)
    requires CompileTagged(node, negate).Ok?
    ensures var v := Member(node, "value");
            var e := LinkExpr("frame_tags", "ft", "tag_id", "tags", "t", v);
            Eval(w, Outer(row), Unless(negate, e)) == Of(Linked(w, row, "frame_tags", "tag_id", "tags", v) != negate)
  {
    LinkValue("frame_tags", "ft", "tag_id", "tags", "t", node);
    hide Eval, LinkExpr, Linked, CompileLink;
    var v := Member(node, "value");
    LinkMeans(w, row, "frame_tags", "ft", "tag_id", "tags", "t", v);
    NotMeans(w, Outer(row), negate, LinkExpr("frame_tags", "ft", "tag_id", "tags", "t", v),
        Linked(w, row, "frame_tags", "tag_id", "tags", v));
  }

  lemma InCollectionMeans(w: World, row: Row, node: Node)
    requires CompileInCollection(node).Ok?
    ensures var v := Member(node, "value");
            var e := LinkExpr("collection_frames", "cf", "collection_id", "collections", "c", v);
            Eval(w, Outer(row), e) == Of(Linked(w, row, "collection_frames", "collection_id", "collections", v))
  {
    LinkValue("collection_frames", "cf", "collection_id", "collections", "c", node);
    hide Eval, LinkExpr, Linked, CompileLink;
    LinkMeans(w, row, "collection_frames", "cf", "collection_id", "collections", "c", Member(node, "value"));
  }

  // ---- Nodes ----

  lemma GroupMeans(w: World, row: Row, and: bool, es: seq<Expr>, vs: seq<Tri>)
    requires es != [] && vs == Evals(w, Outer(row), es)
    ensures Eval(w, Outer(row), Folded(and, es[0], es[1..])) == if and then Conjunction(vs) else Disjunction(vs)
  {
    hide Eval, Folded, Conjunction, Disjunction;
    EvalFolded(w, Outer(row), and, es[0], es[1..]);
    assert [Eval(w, Outer(row), es[0])] + Evals(w, Outer(row), es[1..]) == vs;
  }

  lemma NegationMeans(w: World, env: Env, e: Expr)
    ensures Eval(w, env, Not(e)) == Negation(Eval(w, env, e))
  {
  }

  /** Row by row, the condition of a node has the value the node means. */
  lemma {:induction false} NodeMeans(w: World, row: Row, node: Json)
    requires CompileNode(node).Ok? && NumbersRead(false, node)
    ensures Eval(w, Outer(row), ExprOf(node)) == Meaning(w, row, node)
    decreases node
  {
    hide Eval, Folded, JoinText, CompileTagged, CompileInCollection, CompileComparison, ComparisonExpr,
        ComparisonMeaning;
    hide LinkExpr, Linked, ComparisonRead, Conjunction, Disjunction;
    var m := node.members;
    var op := OpOf(m, "").value;
    if op == "and" || op == "or" {
      var items := m["clauses"].items;
      NodesMean(w, row, items);
      GroupMeans(w, row, op == "and", ExprsOf(items), Meanings(w, row, items));
    } else if op == "not" {
      var clause := m["clauses"].items[0];
      OneRead(false, m["clauses"].items);
      NodeMeans(w, row, clause);
      NegationMeans(w, Outer(row), ExprOf(clause));
    } else if op == "tagged" || op == "untagged" {
      TaggedMeans(w, row, m, op == "untagged");
    } else if op == "in_collection" {
      InCollectionMeans(w, row, m);
    } else {
      ComparisonMeans(w, row, m);
    }
  }

  lemma {:induction false} NodesMean(w: World, row: Row, nodes: seq<Json>)
    requires CompileAll(nodes).Ok? && AllNumbersRead(false, nodes)
    ensures Evals(w, Outer(row), ExprsOf(nodes)) == Meanings(w, row, nodes)
    decreases nodes
  {
    hide Eval, CompileAll, CompileNode, ExprsOf, ExprOf, Meaning, NumbersRead;
    if nodes == [] {
      NoExprs(w, row);
    } else {
      FirstOfAll(nodes);
      NodeMeans(w, row, nodes[0]);
      NodesMean(w, row, nodes[1..]);
      var es, rest := ExprsOf(nodes), ExprsOf(nodes[1..]);
      assert Evals(w, Outer(row), es) == [Eval(w, Outer(row), ExprOf(nodes[0]))] + Evals(w, Outer(row), rest);
    }
  }

  lemma NoExprs(w: World, row: Row)
    ensures Evals(w, Outer(row), ExprsOf([])) == []
  {
  }

  // ---- The main results ----

  /** A filter whose numbers are finite selects, on every row of every database and under every
      collation, what it means. */
  lemma FilterMeans(w: World, row: Row, ast: Json)
    requires CompileFilter(ast).Ok? && PlainNumbers(ast)
    ensures var e := ParseText(CompileFilter(ast).value);
            e.Some? && Eval(w, Outer(row), e.value) == MeaningOf(w, row, ast)
  {
    PlainIsUntorn(ast);
    FilterParses(ast);
    hide ParseText, ExprOf, CompileNode, Meaning, Eval, NumbersRead;
    if ast.JNull? || (ast.JObj? && ast.members == map[]) {
      OneIsOne(w, Outer(row));
    } else {
      NodeMeans(w, row, ast);
    }
  }

  lemma OneIsOne(w: World, env: Env)
    ensures Eval(w, env, Expr.Compare(Number(false, "1"), "=", Number(false, "1"))) == True
  {
    hide RealOf;
  }

  /** With missing files hidden, a row is selected when the filter selects it and its file is not missing. */
  lemma FilterMeansHidden(w: World, row: Row, ast: Json)
    requires CompileFilter(ast).Ok? && PlainNumbers(ast)
    ensures var e := ParseText("(" + CompileFilter(ast).value + ") AND file_status <> 'missing'");
            && e.Some?
            && Eval(w, Outer(row), e.value)
            == AndOf(MeaningOf(w, row, ast), CompareValues(w, "<>", Get(row, "file_status"), TextV("missing")))
  {
    FilterMeans(w, row, ast);
    PlainIsUntorn(ast);
    FilterParses(ast);
    FilterHidesMissing(ast);
    var missing := Expr.Compare(Column("", "file_status"), "<>", Text("missing"));
    CompareMeans(w, Outer(row), missing.left, "<>", missing.right);
    OuterColumn(w, row, "file_status");
    hide ParseText, FilterExpr, CompileFilter, MeaningOf, CompareValues, PlainNumbers;
    EvalPair(w, Outer(row), true, FilterExpr(ast), missing);
  }

  /** The exception is real: "inf" is accepted as a number, and then read as a column. */
  lemma InfinityEscapes()
    ensures var ast := JObj(map["field" := JStr("gain"), "op" := JStr("eq"), "value" := JStr("inf")]);
            && CompileFilter(ast) == Ok("gain = inf")
            && ParseText("gain = inf") == Some(Expr.Compare(Column("", "gain"), "=", Column("", "inf")))
            && "inf" !in VOCABULARY
  {
    var m: Node := map["field" := JStr("gain"), "op" := JStr("eq"), "value" := JStr("inf")];
    InfinityReads();
    GainCompiles(m);
    GainUntorn(m);
    NoNumberUnnamed("inf");
    hide CompileFilter, FilterExpr, ParseText, VOCABULARY, NamesNoNumber, ReadNumeral, UntornNumbers;
    FilterParses(JObj(m));
  }

  lemma GainUntorn(m: Node)
    requires m == map["field" := JStr("gain"), "op" := JStr("eq"), "value" := JStr("inf")]
    ensures UntornNumbers(JObj(m))
  {
    InfinityReads();
    hide ReadNumeral, FieldKind;
  }

  lemma InfinityReads()
    ensures ReadNumeral("inf") == Some(Named("", "", "inf")) && NamesNoNumber("inf")
  {
    hide IsHex, IsTaggedNan, ExponentEnd, MantissaEnd, AllWord;
    var s := "inf";
    assert Blanks(s) == 0 && s[0..] == s && s[..0] == "" && SignOf(s) == "";
    assert !IsDecimal(s) && !IsHexInteger(s);
    assert Lower(s) == "inf";
  }

  lemma GainCompiles(m: Node)
    requires m == map["field" := JStr("gain"), "op" := JStr("eq"), "value" := JStr("inf")]
    ensures CompileFilter(JObj(m)) == Ok("gain = inf")
    ensures FilterExpr(JObj(m)) == Expr.Compare(Column("", "gain"), "=", Column("", "inf"))
  {
    InfinityReads();
    GainField();
    hide ReadNumeral, FieldKind;
    assert Compared("gain", Sym("="), "inf") == "gain = inf";
    assert CompileComparison(m) == Ok("gain = inf");
    assert ComparisonExpr(m) == Expr.Compare(Column("", "gain"), "=", Column("", "inf"));
  }

  lemma GainField()
    ensures FieldKind("gain") == Some(NumberKind) && !(KEYWORD_PREFIX <= "gain")
  {
  }

  /** Searching for an object by any of its names finds exactly the frames of that object: a frame
      indexed under a matches b when the canonical names are equal but for ASCII case, as the
      collation compares them. */
  lemma ObjectSearch(w: World, row: Row, a: string, b: string)
    requires forall x: string, y: string :: w.collate("=", TextV(x), TextV(y)) == (Lower(x) == Lower(y))
    requires Get(row, "object_canonical") == TextV(Canonicalize(a).canonical)
    ensures var ast := JObj(map["field" := JStr("object"), "op" := JStr("eq"), "value" := JStr(b)]);
            && CompileFilter(ast).Ok?
            && var e := ParseText(CompileFilter(ast).value);
               && e.Some?
               && Eval(w, Outer(row), e.value)
                   == Of(Lower(Canonicalize(a).canonical) == Lower(Canonicalize(b).canonical))
  {
    var m: Node := map["field" := JStr("object"), "op" := JStr("eq"), "value" := JStr(b)];
    var ast := JObj(m);
    ObjectCompiles(m, b);
    FilterMeans(w, row, ast);
    ObjectMeaning(w, row, m, a, b);
    CanonLaws.SearchCaseless(a, b);
    hide Canonicalize, Lower, CompileFilter, ParseText, Eval, MeaningOf, PlainNumbers;
  }

  lemma ObjectCompiles(m: Node, b: string)
    requires m == map["field" := JStr("object"), "op" := JStr("eq"), "value" := JStr(b)]
    ensures CompileFilter(JObj(m)).Ok? && PlainNumbers(JObj(m))
  {
    ObjectColumn();
    SomeDesignation(b);
    hide FieldKind, Designations, JoinText, DesignationTexts;
  }

  lemma ObjectMeaning(w: World, row: Row, m: Node, a: string, b: string)
    requires m == map["field" := JStr("object"), "op" := JStr("eq"), "value" := JStr(b)]
    requires forall x: string, y: string :: w.collate("=", TextV(x), TextV(y)) == (Lower(x) == Lower(y))
    requires Get(row, "object_canonical") == TextV(Canonicalize(a).canonical)
    ensures MeaningOf(w, row, JObj(m))
        == Of(CanonLaws.Finds((x, y) => Lower(x) == Lower(y), Canonicalize(a).canonical, b))
  {
    hide Canonicalize, Lower, Designations, Disjunction;
    ObjectColumn();
    var ds := Designations(b);
    var stored := Canonicalize(a).canonical;
    var vs := seq(|ds|, i requires 0 <= i < |ds| => CompareValues(w, "=", Get(row, "object_canonical"), TextV(ds[i])));
    forall i | 0 <= i < |ds|
      ensures vs[i] == Of(Lower(stored) == Lower(ds[i]))
    {
      assert w.collate("=", TextV(stored), TextV(ds[i])) == (Lower(stored) == Lower(ds[i]));
    }
    AnyTrue(vs);
    ObjectClause(w, row, m, b);
    hide FieldKind, CompareValues, MeaningOf;
  }

  lemma AnyTrue(vs: seq<Tri>)
    requires forall i :: 0 <= i < |vs| ==> vs[i] != Unknown
    ensures Disjunction(vs) == Of(exists i :: 0 <= i < |vs| && vs[i] == True)
  {
  }

  lemma EqualsAsks(w: World, a: Value, b: Value)
    ensures Asked(w, "eq", a, b) == CompareValues(w, "=", a, b)
  {
  }

  lemma ObjectClause(w: World, row: Row, m: Node, b: string)
    requires m == map["field" := JStr("object"), "op" := JStr("eq"), "value" := JStr(b)]
    ensures var ds := Designations(b);
            MeaningOf(w, row, JObj(m)) == Disjunction(seq(|ds|, i requires 0 <= i < |ds| =>
              CompareValues(w, "=", Get(row, "object_canonical"), TextV(ds[i]))))
  {
    hide Designations, Disjunction, CompareValues, FieldKind;
    ObjectColumn();
    var ds := Designations(b);
    assert FieldMeaning(w, row, "object", StringKind, "eq", m) == Disjunction(seq(|ds|, i requires 0 <= i < |ds| =>
      CompareValues(w, "=", Get(row, "object_canonical"), TextV(ds[i])))) by {
      var x := Get(row, "object_canonical");
      forall i | 0 <= i < |ds|
        ensures Asked(w, "eq", x, DesignationValue(false, ds[i])) == CompareValues(w, "=", x, TextV(ds[i]))
      {
        EqualsAsks(w, x, TextV(ds[i]));
      }
      assert Searches(w, "eq", x, ds) == seq(|ds|, i requires 0 <= i < |ds| => CompareValues(w, "=", x, TextV(ds[i])));
    }
    assert ComparisonMeaning(w, row, m) == FieldMeaning(w, row, "object", StringKind, "eq", m);
  }
}
