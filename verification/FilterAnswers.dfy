/** What each operator of a filter selects, said of the rows: numbers in the order of the reals, texts by what
    the server is asked. */
module FilterAnswers {
  import opened Options
  import opened Chars
  import opened Canon
  import opened SqlText
  import opened SqlParser
  import opened SqlMeaning
  import opened Numerals
  import opened Query
  import opened FilterMeaning
  import opened FilterReading
  import opened FilterLaws

  // ---- What each operator selects ----

  /** The filter compiles, and its text, read and evaluated by the server, selects the row. */
  ghost predicate Selects(w: World, row: Row, ast: Json) {
    CompileFilter(ast).Ok? &&
    var e := ParseText(CompileFilter(ast).value); e.Some? && Eval(w, Outer(row), e.value) == True
  }

  function One(field: string, op: string, v: Json): Node {
    map["field" := JStr(field), "op" := JStr(op), "value" := v]
  }

  const OPERATORS := ["eq", "ne", "lt", "lte", "gt", "gte", "like"]

  lemma NotKeyword(field: string)
    requires FieldKind(field).Some?
    ensures !(KEYWORD_PREFIX <= field)
  {
    if KEYWORD_PREFIX <= field {
      ColonNoWord(field);
    }
    FieldIsPlain(field);
    PlainWord(field);
    hide FieldKind, Plain;
  }

  lemma ColonNoWord(field: string)
    requires KEYWORD_PREFIX <= field
    ensures !AllWord(field)
  {
    assert field[7] == KEYWORD_PREFIX[7] == ':';
  }

  /** A comparison that is not a search by designation, of a value the column takes. */
  predicate Comparable(field: string, op: string, v: Json) {
    && op in OPERATORS && FieldKind(field).Some? && !ByDesignation(field, op, One(field, op, v))
    && if v.JStr? then FieldKind(field) != Some(NumberKind) else v.JNum?
  }

  lemma OneCompiles(field: string, op: string, v: Json)
    requires Comparable(field, op, v)
    ensures CompileFilter(JObj(One(field, op, v))).Ok? && PlainNumbers(JObj(One(field, op, v)))
  {
    NotKeyword(field);
    NoGroup(op);
    KnownOperator(op);
    hide FieldKind, ReadNumeral, NumberText, SixDecimals, Escape, KEYWORD_PREFIX, ByDesignation, OPERATORS, BinOp;
    assert OpOf(One(field, op, v), "") == Some(op);
  }

  lemma KnownOperator(op: string)
    requires op in OPERATORS
    ensures BinOp(op).Some? && op !in ["isnull", "notnull", "in", "between"]
  {
  }

  lemma OneMeans(w: World, row: Row, field: string, op: string, v: Json)
    requires Comparable(field, op, v)
    ensures Selects(w, row, JObj(One(field, op, v)))
       <==> Asked(w, op, Get(row, field), ScalarValue(FieldKind(field).value, v)) == True
  {
    OneCompiles(field, op, v);
    NotKeyword(field);
    SelectsMeaning(w, row, JObj(One(field, op, v)));
    OneMeaning(w, row, field, op, v);
    KnownOperator(op);
    hide Selects, MeaningOf, FieldKind, Asked, ScalarValue, ByDesignation, KEYWORD_PREFIX, OPERATORS, BinOp;
  }

  lemma SelectsMeaning(w: World, row: Row, ast: Json)
    requires CompileFilter(ast).Ok? && PlainNumbers(ast)
    ensures Selects(w, row, ast) <==> MeaningOf(w, row, ast) == True
  {
    hide CompileFilter, ParseText, Eval, PlainNumbers, MeaningOf;
    FilterMeans(w, row, ast);
  }

  lemma OneMeaning(w: World, row: Row, field: string, op: string, v: Json)
    requires op in OPERATORS
    ensures MeaningOf(w, row, JObj(One(field, op, v))) == ComparisonMeaning(w, row, One(field, op, v))
  {
    var m := One(field, op, v);
    assert "op" in m && m["op"] == JStr(op) && JObj(m).members == m;
    NoGroup(op);
    hide ComparisonMeaning, OPERATORS;
  }

  lemma NoGroup(op: string)
    requires op in OPERATORS
    ensures op !in ["and", "or", "not", "tagged", "untagged", "in_collection", "cone"]
  {
  }

  lemma IsNumberColumn(field: string)
    requires field in NUMBERS
    ensures FieldKind(field) == Some(NumberKind) && field != "object"
  {
  }

  lemma IsTextColumn(field: string)
    requires field in STRINGS || field in DATES
    ensures FieldKind(field).Some? && FieldKind(field) != Some(NumberKind)
  {
    hide STRINGS, DATES, NUMBERS;
  }

  /** A numeric column compared with a number, in the order of the reals; a missing value is never
      selected. */
  lemma NumberSelected(w: World, row: Row, field: string, op: string, d: real)
    requires field in NUMBERS && op in OPERATORS && op != "like" && !Get(row, field).TextV?
    ensures var x, chosen := Get(row, field), Selects(w, row, JObj(One(field, op, JNum(d))));
            && (op == "eq" ==> (chosen <==> x.NumV? && x.x == Shown(d)))
            && (op == "ne" ==> (chosen <==> x.NumV? && x.x != Shown(d)))
            && (op == "lt" ==> (chosen <==> x.NumV? && x.x < Shown(d)))
            && (op == "lte" ==> (chosen <==> x.NumV? && x.x <= Shown(d)))
            && (op == "gt" ==> (chosen <==> x.NumV? && x.x > Shown(d)))
            && (op == "gte" ==> (chosen <==> x.NumV? && x.x >= Shown(d)))
  {
    IsNumberColumn(field);
    hide NUMBERS, FieldKind, Selects, Shown;
    OneMeans(w, row, field, op, JNum(d));
  }

  /** A column of text or a date compared with a string: what is asked of the server, by name. An object's
      designations are asked for otherwise. */
  lemma TextSelected(w: World, row: Row, field: string, op: string, x: string, s: string)
    requires field in STRINGS || field in DATES
    requires op in OPERATORS && Get(row, field) == TextV(x) && !(field == "object" && op in ["eq", "like"])
    ensures var chosen := Selects(w, row, JObj(One(field, op, JStr(s))));
            && (op == "eq" ==> (chosen <==> w.collate("=", TextV(x), TextV(s))))
            && (op == "ne" ==> (chosen <==> w.collate("<>", TextV(x), TextV(s))))
            && (op == "lt" ==> (chosen <==> w.collate("<", TextV(x), TextV(s))))
            && (op == "lte" ==> (chosen <==> w.collate("<=", TextV(x), TextV(s))))
            && (op == "gt" ==> (chosen <==> w.collate(">", TextV(x), TextV(s))))
            && (op == "gte" ==> (chosen <==> w.collate(">=", TextV(x), TextV(s))))
            && (op == "like" ==> (chosen <==> w.collate("LIKE", TextV(x), TextV(s))))
  {
    IsTextColumn(field);
    hide NUMBERS, STRINGS, DATES, FieldKind, Selects;
    OneMeans(w, row, field, op, JStr(s));
  }

  lemma ObjectCompilesOne(op: string, b: string)
    requires op in ["eq", "like"]
    ensures CompileFilter(JObj(One("object", op, JStr(b)))).Ok? && PlainNumbers(JObj(One("object", op, JStr(b))))
  {
    ObjectColumn();
    SomeDesignation(b);
    hide FieldKind, Designations, JoinText, DesignationTexts;
    assert OpOf(One("object", op, JStr(b)), "") == Some(op);
  }

  /** An object is searched by each of its designations, in object_canonical: as the whole name, or as a part
      of it. */
  lemma ObjectSelected(w: World, row: Row, op: string, x: string, b: string)
    requires op in ["eq", "like"] && Get(row, "object_canonical") == TextV(x)
    ensures var chosen, ds := Selects(w, row, JObj(One("object", op, JStr(b)))), Designations(b);
            && (op == "eq" ==> (chosen <==> exists i :: 0 <= i < |ds| && w.collate("=", TextV(x), TextV(ds[i]))))
            && (op == "like" ==>
                  (chosen <==> exists i :: 0 <= i < |ds| && w.collate("LIKE", TextV(x), TextV("%" + ds[i] + "%"))))
  {
    ObjectSelects(w, row, op, b);
    var ds := Designations(b);
    hide Selects, Designations, Disjunction, Searches;
    SearchTrue(w, op, x, ds);
  }

  lemma ObjectSelects(w: World, row: Row, op: string, b: string)
    requires op in ["eq", "like"]
    ensures Selects(w, row, JObj(One("object", op, JStr(b))))
       <==> Disjunction(Searches(w, op, Get(row, "object_canonical"), Designations(b))) == True
  {
    ObjectCompilesOne(op, b);
    FilterMeans(w, row, JObj(One("object", op, JStr(b))));
    ObjectAsks(w, row, op, b);
    hide CompileFilter, ParseText, Eval, PlainNumbers, Designations, Disjunction, MeaningOf, Searches;
  }

  lemma SearchTrue(w: World, op: string, x: string, ds: seq<string>)
    requires op in ["eq", "like"]
    ensures Disjunction(Searches(w, op, TextV(x), ds)) == True <==> exists i ::
              0 <= i < |ds| && if op == "eq" then w.collate("=", TextV(x), TextV(ds[i]))
                               else w.collate("LIKE", TextV(x), TextV("%" + ds[i] + "%"))
  {
    var vs := Searches(w, op, TextV(x), ds);
    forall i | 0 <= i < |ds|
      ensures vs[i] == Of(if op == "eq" then w.collate("=", TextV(x), TextV(ds[i]))
                          else w.collate("LIKE", TextV(x), TextV("%" + ds[i] + "%")))
    {
    }
    AnyTrue(vs);
    hide Disjunction, Searches;
  }

  lemma ObjectAsks(w: World, row: Row, op: string, b: string)
    requires op in ["eq", "like"]
    ensures MeaningOf(w, row, JObj(One("object", op, JStr(b))))
         == Disjunction(Searches(w, op, Get(row, "object_canonical"), Designations(b)))
  {
    ObjectColumn();
    hide FieldKind, Designations, Disjunction, Searches;
    var node := One("object", op, JStr(b));
    assert ComparisonMeaning(w, row, node) == FieldMeaning(w, row, "object", StringKind, op, node);
  }

  lemma CardCompiles(kw: string, op: string, v: Json)
    requires kw != "" && op in OPERATORS && (v.JNum? || v.JStr?)
    ensures CompileFilter(JObj(One("keyword:" + kw, op, v))).Ok? && PlainNumbers(JObj(One("keyword:" + kw, op, v)))
  {
    var field := KEYWORD_PREFIX + kw;
    assert KEYWORD_PREFIX <= field && field[|KEYWORD_PREFIX|..] == kw;
    hide FieldKind, ReadNumeral, NumberText, SixDecimals, Escape, KEYWORD_PREFIX, ExistsText, Compared;
    assert OpOf(One(field, op, v), "") == Some(op);
  }

  lemma CardMeansOne(w: World, row: Row, kw: string, op: string, v: Json)
    requires kw != "" && op in OPERATORS && (v.JNum? || v.JStr?)
    ensures Selects(w, row, JObj(One("keyword:" + kw, op, v))) <==> KeywordMeaning(w, row, kw, op, v) == True
  {
    var field := KEYWORD_PREFIX + kw;
    assert KEYWORD_PREFIX <= field && field[|KEYWORD_PREFIX|..] == kw;
    CardCompiles(kw, op, v);
    SelectsMeaning(w, row, JObj(One(field, op, v)));
    OneMeaning(w, row, field, op, v);
    hide Selects, MeaningOf, FieldKind, KeywordMeaning, KEYWORD_PREFIX;
    assert ComparisonMeaning(w, row, One(field, op, v)) == KeywordMeaning(w, row, kw, op, v);
  }

  /** The frame has a card of this keyword with a value of this kind. */
  ghost predicate HasCard(w: World, row: Row, kw: string, kind: Value -> bool) {
    exists i :: 0 <= i < |TableRows(w, "frame_keywords")| && var k := TableRows(w, "frame_keywords")[i];
                Holds(w, "=", Get(k, "frame_id"), Get(row, "frame_id")) && Holds(w, "=", Get(k, "keyword"), TextV(kw))
                && kind(Get(k, "value"))
  }

  lemma CardKind(w: World, row: Row, kw: string, op: string, v: Json, kind: Value -> bool)
    requires kw != "" && op in OPERATORS && (v.JNum? || v.JStr?)
    requires forall x: Value :: kind(x) <==>
               if v.JNum? then Asked(w, op, w.decimal(x), NumV(Shown(v.d))) == True
               else Asked(w, op, x, TextV(v.s)) == True
    ensures Selects(w, row, JObj(One("keyword:" + kw, op, v))) <==> HasCard(w, row, kw, kind)
  {
    CardMeansOne(w, row, kw, op, v);
    hide Selects, Asked, Shown, Holds;
  }

  /** A card predicate with a number: the stored text is read as a decimal and compared in the order of the
      reals. */
  lemma CardNumberSelected(w: World, row: Row, kw: string, op: string, d: real)
    requires kw != "" && op in OPERATORS && op != "like" && forall x: Value :: !w.decimal(x).TextV?
    ensures var chosen, n := Selects(w, row, JObj(One("keyword:" + kw, op, JNum(d)))), Shown(d);
            && (op == "eq" ==> (chosen <==> HasCard(w, row, kw, (x: Value) => w.decimal(x).NumV?
                && w.decimal(x).x == n)))
            && (op == "ne" ==> (chosen <==> HasCard(w, row, kw, (x: Value) => w.decimal(x).NumV?
                && w.decimal(x).x != n)))
            && (op == "lt" ==> (chosen <==> HasCard(w, row, kw, (x: Value) => w.decimal(x).NumV?
                && w.decimal(x).x < n)))
            && (op == "lte" ==> (chosen <==> HasCard(w, row, kw, (x: Value) => w.decimal(x).NumV?
                && w.decimal(x).x <= n)))
            && (op == "gt" ==> (chosen <==> HasCard(w, row, kw, (x: Value) => w.decimal(x).NumV?
                && w.decimal(x).x > n)))
            && (op == "gte" ==> (chosen <==> HasCard(w, row, kw, (x: Value) => w.decimal(x).NumV?
                && w.decimal(x).x >= n)))
  {
    hide Selects, HasCard, Shown;
    var n := Shown(d);
    match op {
      case "eq" => CardKind(w, row, kw, op, JNum(d), (x: Value) => w.decimal(x).NumV? && w.decimal(x).x == n);
      case "ne" => CardKind(w, row, kw, op, JNum(d), (x: Value) => w.decimal(x).NumV? && w.decimal(x).x != n);
      case "lt" => CardKind(w, row, kw, op, JNum(d), (x: Value) => w.decimal(x).NumV? && w.decimal(x).x < n);
      case "lte" => CardKind(w, row, kw, op, JNum(d), (x: Value) => w.decimal(x).NumV? && w.decimal(x).x <= n);
      case "gt" => CardKind(w, row, kw, op, JNum(d), (x: Value) => w.decimal(x).NumV? && w.decimal(x).x > n);
      case "gte" => CardKind(w, row, kw, op, JNum(d), (x: Value) => w.decimal(x).NumV? && w.decimal(x).x >= n);
    }
  }

  /** A card predicate with a string: what is asked of the server, by name. */
  lemma CardTextSelected(w: World, row: Row, kw: string, op: string, s: string)
    requires kw != "" && op in OPERATORS
    ensures var chosen := Selects(w, row, JObj(One("keyword:" + kw, op, JStr(s))));
            && (op == "eq" ==> (chosen <==> HasCard(w, row, kw, (x: Value) => !x.NullV?
                && w.collate("=", x, TextV(s)))))
            && (op == "ne" ==> (chosen <==> HasCard(w, row, kw, (x: Value) => !x.NullV?
                && w.collate("<>", x, TextV(s)))))
            && (op == "lt" ==> (chosen <==> HasCard(w, row, kw, (x: Value) => !x.NullV?
                && w.collate("<", x, TextV(s)))))
            && (op == "lte" ==> (chosen <==> HasCard(w, row, kw, (x: Value) => !x.NullV?
                && w.collate("<=", x, TextV(s)))))
            && (op == "gt" ==> (chosen <==> HasCard(w, row, kw, (x: Value) => !x.NullV?
                && w.collate(">", x, TextV(s)))))
            && (op == "gte" ==> (chosen <==> HasCard(w, row, kw, (x: Value) => !x.NullV?
                && w.collate(">=", x, TextV(s)))))
            && (op == "like" ==> (chosen <==> HasCard(w, row, kw, (x: Value) => !x.NullV?
                && w.collate("LIKE", x, TextV(s)))))
  {
    hide Selects, HasCard;
    match op {
      case "eq" => CardKind(w, row, kw, op, JStr(s), (x: Value) => !x.NullV? && w.collate("=", x, TextV(s)));
      case "ne" => CardKind(w, row, kw, op, JStr(s), (x: Value) => !x.NullV? && w.collate("<>", x, TextV(s)));
      case "lt" => CardKind(w, row, kw, op, JStr(s), (x: Value) => !x.NullV? && w.collate("<", x, TextV(s)));
      case "lte" => CardKind(w, row, kw, op, JStr(s), (x: Value) => !x.NullV? && w.collate("<=", x, TextV(s)));
      case "gt" => CardKind(w, row, kw, op, JStr(s), (x: Value) => !x.NullV? && w.collate(">", x, TextV(s)));
      case "gte" => CardKind(w, row, kw, op, JStr(s), (x: Value) => !x.NullV? && w.collate(">=", x, TextV(s)));
      case "like" => CardKind(w, row, kw, op, JStr(s), (x: Value) => !x.NullV? && w.collate("LIKE", x, TextV(s)));
    }
  }
}
