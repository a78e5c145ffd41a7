/** The columns a filter refers to, and the sort order that goes with it. */
module FilterColumns {
  import opened Options
  import opened Chars
  import opened Canon
  import opened SqlText
  import opened SqlParser
  import opened SqlReading
  import opened SqlMeaning
  import opened Numerals
  import opened Query
  import opened FilterMeaning
  import opened FilterReading
  import opened FilterLaws

  // ---- The fields of a filter ----

  const COLUMNS := STRINGS + DATES + NUMBERS

  predicate CarriesNoColumn(op: string) {
    op == "cone" || op == "tagged" || op == "untagged" || op == "in_collection"
  }

  /** The allow-listed fields a node names, in order, repeats included; None when an operator is no string. */
  function FieldsOf(node: Json): Option<seq<string>>
    decreases node
  {
    if !node.JObj? then Some([]) else
    var m := node.members;
    var op :- OpOf(m, "");
    if op == "and" || op == "or" || op == "not" then
      if "clauses" in m && m["clauses"].JArr? then AllFieldsOf(m["clauses"].items) else Some([])
    else if CarriesNoColumn(op) then Some([])
    else if Member(m, "field").JStr? && FieldKind(m["field"].s).Some? then Some([m["field"].s])
    else Some([])
  }

  function AllFieldsOf(nodes: seq<Json>): Option<seq<string>>
    decreases nodes
  {
    if nodes == [] then Some([])
    else
      var first :- FieldsOf(nodes[0]);
      var rest :- AllFieldsOf(nodes[1..]);
      Some(first + rest)
  }

  /** The fields added that were not there yet, in order. */
  function Added(out: seq<string>, fields: seq<string>): seq<string>
    decreases |fields|
  {
    if fields == [] then out
    else Added(if fields[0] in out then out else out + [fields[0]], fields[1..])
  }

  lemma {:induction false} AddedConcat(out: seq<string>, a: seq<string>, b: seq<string>)
    ensures Added(out, a + b) == Added(Added(out, a), b)
    decreases |a|
  {
    if a == [] {
      assert a + b == b;
    } else {
      assert (a + b)[1..] == a[1..] + b;
      AddedConcat(if a[0] in out then out else out + [a[0]], a[1..], b);
    }
  }

  /** collect_fields */
  method CollectFields(node: Json, out: seq<string>) returns (r: Option<seq<string>>)
    ensures r == match FieldsOf(node) case None => None case Some(fs) => Some(Added(out, fs))
    decreases node
  {
    NothingAdded(out);
    if !node.JObj? {
      return Some(out);
    }
    var m := node.members;
    var found := OpOf(m, "");
    if found.None? {
      return None;
    }
    var op := found.value;
    if op == "and" || op == "or" || op == "not" {
      if "clauses" in m && m["clauses"].JArr? {
        var items := m["clauses"].items;
        r := Some(out);
        var i := 0;
        assert items[0..] == items;
        while i < |items|
          invariant 0 <= i <= |items| && r.Some?
          invariant (match AllFieldsOf(items) case None => None case Some(fs) => Some(Added(out, fs)))
                 == (match AllFieldsOf(items[i..]) case None => None case Some(fs) => Some(Added(r.value, fs)))
        {
          AllFieldsStep(items, i, r.value);
          r := CollectFields(items[i], r.value);
          if r.None? {
            return;
          }
          i := i + 1;
        }
        assert items[i..] == [];
        return;
      }
      return Some(out);
    }
    if CarriesNoColumn(op) {
      return Some(out);
    }
    if Member(m, "field").JStr? {
      var f := m["field"].s;
      OneAdded(out, f);
      if FieldKind(f).Some? && f !in out {
        return Some(out + [f]);
      }
    }
    r := Some(out);
  }

  lemma NothingAdded(out: seq<string>)
    ensures Added(out, []) == out
  {
  }

  lemma OneAdded(out: seq<string>, f: string)
    ensures Added(out, [f]) == if f in out then out else out + [f]
  {
    assert [f][1..] == [];
  }

  lemma AllFieldsStep(items: seq<Json>, i: nat, out: seq<string>)
    requires i < |items|
    ensures (match AllFieldsOf(items[i..]) case None => None case Some(fs) => Some(Added(out, fs)))
         == match FieldsOf(items[i])
            case None => None
            case Some(first) => match AllFieldsOf(items[i
                + 1..]) case None => None case Some(fs) => Some(Added(Added(out, first), fs))
  {
    hide FieldsOf, Added;
    assert items[i..][1..] == items[i + 1..];
    if FieldsOf(items[i]).Some? && AllFieldsOf(items[i + 1..]).Some? {
      AddedConcat(out, FieldsOf(items[i]).value, AllFieldsOf(items[i + 1..]).value);
    }
  }

  method FilterFields(ast: Json) returns (r: Option<seq<string>>)
    ensures r == if ast.JObj? && ast.members != map[]
        then (match FieldsOf(ast) case None => None case Some(fs) => Some(Added([], fs))) else Some([])
  {
    r := Some([]);
    if ast.JObj? && ast.members != map[] {
      r := CollectFields(ast, []);
    }
  }

  ghost predicate NoRepeats(fs: seq<string>) {
    forall i, j :: 0 <= i < j < |fs| ==> fs[i] != fs[j]
  }

  /** What is collected are the fields named, each once, in the order in which they are first seen. */
  lemma {:induction false} AddedIs(out: seq<string>, fields: seq<string>)
    requires NoRepeats(out)
    ensures NoRepeats(Added(out, fields)) && out <= Added(out, fields)
    ensures forall f :: f in Added(out, fields) <==> f in out || f in fields
    decreases |fields|
  {
    if fields != [] {
      AddedIs(if fields[0] in out then out else out + [fields[0]], fields[1..]);
      assert fields == [fields[0]] + fields[1..];
    }
  }

  lemma FirstSeenOrder(a: seq<string>, b: seq<string>)
    ensures Added([], a) <= Added([], a + b)
  {
    AddedConcat([], a, b);
    AddedIs([], a);
    AddedIs(Added([], a), b);
  }

  // ---- They are the columns of the condition ----

  lemma {:induction false} FoldedMentions(and: bool, first: Expr, more: seq<Expr>, x: string)
    ensures x in Names(Folded(and, first, more))
        <==> x in Names(first) || exists i :: 0 <= i < |more| && x in Names(more[i])
    decreases |more|
  {
    if more != [] {
      var next := if and then Expr.And(first, more[0]) else Expr.Or(first, more[0]);
      FoldedMentions(and, next, more[1..], x);
      assert Names(next) == Names(first) + Names(more[0]);
      assert forall i :: 1 <= i < |more| ==> more[i] == more[1..][i - 1];
      assert forall i :: 0 <= i < |more| - 1 ==> more[1..][i] == more[i + 1];
    }
  }

  lemma WordsNoStrings(x: string)
    requires x in SUBQUERY_WORDS
    ensures x !in STRINGS && x !in DATES
  {
    assert |x| <= 17;
  }

  lemma WordsNoNumbers(x: string)
    requires x in SUBQUERY_WORDS
    ensures x !in NUMBERS
  {
    assert |x| <= 17;
  }

  /** The columns, and the words of the subqueries, have nothing in common. */
  lemma SubqueryWordsNoColumns(x: string)
    requires x in SUBQUERY_WORDS
    ensures x !in COLUMNS
  {
    WordsNoStrings(x);
    WordsNoNumbers(x);
    hide STRINGS, NUMBERS, DATES, SUBQUERY_WORDS;
  }

  lemma FieldIsColumn(field: string)
    ensures FieldKind(field).Some? <==> field in COLUMNS
  {
    hide STRINGS, NUMBERS, DATES;
  }

  /** A literal names no column: at most a word that is none. */
  lemma LiteralNoColumn(kind: Kind, v: Json, x: string)
    requires Literal(kind, v).Some? && x in COLUMNS
    ensures x !in OperandNames(LiteralOperand(kind, v))
  {
    SubqueryWords();
    SubqueryWordsNoColumnsAt("");
    hide STRINGS, NUMBERS, DATES, SUBQUERY_WORDS, Literal, LiteralOperand;
    if x in OperandNames(LiteralOperand(kind, v)) {
      LiteralWords(kind, v, x);
    }
  }

  lemma SubqueryWordsNoColumnsAt(x: string)
    ensures x in SUBQUERY_WORDS ==> x !in COLUMNS
  {
    hide SUBQUERY_WORDS, STRINGS, NUMBERS, DATES;
    if x in SUBQUERY_WORDS {
      SubqueryWordsNoColumns(x);
    }
  }

  lemma LiteralWords(kind: Kind, v: Json, x: string)
    requires Literal(kind, v).Some? && x in OperandNames(LiteralOperand(kind, v))
    ensures x == "" || x !in VOCABULARY
  {
    hide VOCABULARY, NamesNoNumber, IsDecimal, IsHex, IsTaggedNan, IsHexInteger, HexWord, AllWord;
    NumeralParts(v.s);
    var n := ReadNumeral(v.s).value;
    hide ReadNumeral;
    NoNumberUnnamed(BodyOf(n));
  }

  lemma {:induction false} ListNoColumn(kind: Kind, vs: seq<Json>, x: string)
    requires x in COLUMNS && forall i :: 0 <= i < |vs| ==> Literal(kind, vs[i]).Some?
    ensures x !in ListNames(LiteralOperands(kind, vs))
    decreases |vs|
  {
    hide Literal, LiteralOperand, OperandNames, STRINGS, NUMBERS, DATES;
    if vs != [] {
      LiteralNoColumn(kind, vs[0], x);
      ListNoColumn(kind, vs[1..], x);
      var os := LiteralOperands(kind, vs);
      assert os[0] == LiteralOperand(kind, vs[0]) && os[1..] == LiteralOperands(kind, vs[1..]);
    }
  }

  /** The column that a field comparison reads. */
  function ColumnRead(field: string, op: string, node: Node): string {
    if ByDesignation(field, op, node) then "object_canonical" else field
  }

  lemma ColumnIs(field: string, x: string)
    requires x in COLUMNS
    ensures x in OperandNames(Column("", field)) <==> x == field
  {
    SubqueryWords();
    SubqueryWordsNoColumnsAt("");
    hide STRINGS, NUMBERS, DATES, SUBQUERY_WORDS;
  }

  lemma DesignationColumns(like: bool, ds: seq<string>, x: string)
    requires ds != [] && x in COLUMNS
    ensures var es := DesignationExprs(like, ds); x in Names(Folded(false, es[0], es[1..])) <==> x == "object_canonical"
  {
    var es := DesignationExprs(like, ds);
    forall i | 0 <= i < |es|
      ensures x in Names(es[i]) <==> x == "object_canonical"
    {
      ColumnIs("object_canonical", x);
      assert Names(es[i]) == OperandNames(Column("", "object_canonical")) + {};
    }
    hide STRINGS, NUMBERS, DATES, Names, DesignationExprs, Folded;
    FoldedMentions(false, es[0], es[1..], x);
    assert forall i :: 0 <= i < |es| - 1 ==> es[1..][i] == es[i + 1];
  }

  lemma BetweenColumns(field: string, kind: Kind, low: Json, high: Json, x: string)
    requires x in COLUMNS && Literal(kind, low).Some? && Literal(kind, high).Some?
    ensures x in Names(Between(Column("", field), LiteralOperand(kind, low), LiteralOperand(kind, high)))
        <==> x == field
  {
    ColumnIs(field, x);
    LiteralNoColumn(kind, low, x);
    LiteralNoColumn(kind, high, x);
    hide Literal, LiteralOperand, OperandNames, STRINGS, NUMBERS, DATES;
  }

  lemma ComparedColumns(field: string, op: string, kind: Kind, v: Json, x: string)
    requires x in COLUMNS && Literal(kind, v).Some?
    ensures x in Names(Expr.Compare(Column("", field), op, LiteralOperand(kind, v))) <==> x == field
  {
    ColumnIs(field, x);
    LiteralNoColumn(kind, v, x);
    hide Literal, LiteralOperand, OperandNames, STRINGS, NUMBERS, DATES;
  }

  lemma InColumns(field: string, kind: Kind, vs: seq<Json>, x: string)
    requires x in COLUMNS && forall i :: 0 <= i < |vs| ==> Literal(kind, vs[i]).Some?
    ensures x in Names(In(Column("", field), LiteralOperands(kind, vs))) <==> x == field
  {
    ColumnIs(field, x);
    ListNoColumn(kind, vs, x);
    hide Literal, LiteralOperands, OperandNames, ListNames, STRINGS, NUMBERS, DATES;
  }

  lemma ValueColumns(field: string, kind: Kind, op: string, node: Node, x: string)
    requires CompileField(field, kind, op, node).Ok? && x in COLUMNS
    requires op != "isnull" && op != "notnull" && !ByDesignation(field, op, node)
    ensures x in Names(FieldExpr(field, kind, op, node)) <==> x == field
  {
    ValueCompiled(field, kind, op, node);
    hide CompileField, Literal, LiteralOperand, LiteralOperands, Names, ByDesignation, BinOp, Operator, STRINGS,
        NUMBERS, DATES;
    var v := Member(node, "value");
    if op == "in" {
      InColumns(field, kind, v.items, x);
    } else if op == "between" {
      BetweenColumns(field, kind, v.items[0], v.items[1], x);
    } else {
      ComparedColumns(field, Operator(op), kind, v, x);
    }
  }

  lemma FieldColumns(field: string, kind: Kind, op: string, node: Node, x: string)
    requires CompileField(field, kind, op, node).Ok? && x in COLUMNS
    ensures x in Names(FieldExpr(field, kind, op, node)) <==> x == ColumnRead(field, op, node)
  {
    hide CompileField, STRINGS, NUMBERS, DATES, Designations, DesignationExprs, Folded, OperandNames;
    if op == "isnull" || op == "notnull" {
      ColumnIs(field, x);
    } else if ByDesignation(field, op, node) {
      SomeDesignation(node["value"].s);
      DesignationColumns(op == "like", Designations(node["value"].s), x);
    } else {
      hide Names, FieldExpr;
      ValueColumns(field, kind, op, node, x);
    }
  }

  /** What a set of names and a list of fields have to do with each other: they are the same columns, but
      that an object search reads object_canonical. */
  ghost predicate SameColumns(names: set<string>, fields: seq<string>, x: string) {
    && (x in names ==> x in fields || (x == "object_canonical" && "object" in fields))
    && (x in fields ==> x in names || (x == "object" && "object_canonical" in names))
  }

  lemma ObjectColumns()
    ensures "object" in COLUMNS && "object_canonical" in COLUMNS
  {
    ObjectColumn();
    FieldIsColumn("object");
  }

  lemma ComparisonColumns(node: Node, x: string)
    requires CompileComparison(node).Ok? && x in COLUMNS
    ensures Member(node, "field").JStr?
    ensures var f := node["field"].s; SameColumns(Names(ComparisonExpr(node)), if FieldKind(f).Some? then [f] else [],
        x)
  {
    hide CompileKeyword, CompileField, KeywordExpr, FieldExpr, Names, FieldKind, STRINGS, NUMBERS, DATES,
        SUBQUERY_WORDS;
    var field := node["field"].s;
    if KEYWORD_PREFIX <= field {
      var kw := field[|KEYWORD_PREFIX|..];
      OpGiven(kw, node);
      KeywordNames(kw, node);
      KeywordIsNoField(field);
      SubqueryWordsNoColumnsAt(x);
    } else {
      var op := OpOf(node, "eq").value;
      ObjectColumns();
      FieldColumns(field, FieldKind(field).value, op, node, x);
      FieldColumns(field, FieldKind(field).value, op, node, "object_canonical");
    }
  }

  lemma KeywordIsNoField(field: string)
    requires KEYWORD_PREFIX <= field
    ensures FieldKind(field).None?
  {
    assert field[7] == KEYWORD_PREFIX[7];
    NoColon(field);
  }

  /** No column has a colon in its name. */
  lemma NoColon(field: string)
    requires |field| >= 8 && field[7] == ':'
    ensures FieldKind(field).None?
  {
    NoColonNumber(field);
  }

  lemma NoColonNumber(field: string)
    requires |field| >= 8 && field[7] == ':'
    ensures field !in NUMBERS
  {
  }

  lemma LinkColumns(v: Json, x: string)
    requires x in COLUMNS
    ensures x !in Names(LinkExpr("frame_tags", "ft", "tag_id", "tags", "t", v))
    ensures x !in Names(LinkExpr("collection_frames", "cf", "collection_id", "collections", "c", v))
  {
    TaggedNames(v);
    SubqueryWordsNoColumnsAt(x);
    hide STRINGS, NUMBERS, DATES, SUBQUERY_WORDS, LinkExpr, Names;
  }

  /** A filter's fields are the columns its condition reads, node by node. */
  lemma {:induction false} NodeColumns(node: Json, x: string)
    requires CompileNode(node).Ok? && x in COLUMNS
    ensures FieldsOf(node).Some? && SameColumns(Names(ExprOf(node)), FieldsOf(node).value, x)
    decreases node
  {
    hide STRINGS, NUMBERS, DATES, SUBQUERY_WORDS, Folded, JoinText, CompileTagged, CompileInCollection,
        CompileComparison;
    hide ComparisonExpr, LinkExpr, FieldKind;
    var m := node.members;
    var op := OpOf(m, "").value;
    if op == "and" || op == "or" {
      NodesColumns(m["clauses"].items, x);
      var es := ExprsOf(m["clauses"].items);
      GroupColumns(op == "and", es, AllFieldsOf(m["clauses"].items).value, x);
    } else if op == "not" {
      NodeColumns(m["clauses"].items[0], x);
      OneField(m["clauses"].items);
    } else if op == "tagged" || op == "untagged" || op == "in_collection" {
      LinkColumns(Member(m, "value"), x);
      UnlessNames(op == "untagged", LinkExpr("frame_tags", "ft", "tag_id", "tags", "t", Member(m, "value")));
    } else {
      ComparisonColumns(m, x);
    }
  }

  ghost predicate SomeNames(es: seq<Expr>, x: string) {
    exists i :: 0 <= i < |es| && x in Names(es[i])
  }

  /** The same, for the clauses of a group. */
  ghost predicate SameGroup(es: seq<Expr>, fields: seq<string>, x: string) {
    && (SomeNames(es, x) ==> x in fields || (x == "object_canonical" && "object" in fields))
    && (x in fields ==> SomeNames(es, x) || (x == "object" && SomeNames(es, "object_canonical")))
  }

  lemma GroupColumns(and: bool, es: seq<Expr>, fields: seq<string>, x: string)
    requires es != [] && SameGroup(es, fields, x)
    ensures SameColumns(Names(Folded(and, es[0], es[1..])), fields, x)
  {
    hide Names, Folded;
    GroupMentions(and, es, x);
    GroupMentions(and, es, "object_canonical");
  }

  lemma GroupMentions(and: bool, es: seq<Expr>, x: string)
    requires es != []
    ensures x in Names(Folded(and, es[0], es[1..])) <==> SomeNames(es, x)
  {
    hide Names, Folded;
    FoldedMentions(and, es[0], es[1..], x);
    assert forall i :: 0 <= i < |es| - 1 ==> es[1..][i] == es[i + 1];
    if SomeNames(es, x) {
      var i :| 0 <= i < |es| && x in Names(es[i]);
      if i > 0 {
        assert es[1..][i - 1] == es[i];
      }
    }
  }

  lemma OneField(nodes: seq<Json>)
    requires |nodes| == 1 && FieldsOf(nodes[0]).Some?
    ensures AllFieldsOf(nodes) == FieldsOf(nodes[0])
  {
    hide FieldsOf;
    assert nodes[1..] == [];
    assert FieldsOf(nodes[0]).value + [] == FieldsOf(nodes[0]).value;
  }

  lemma {:induction false} NodesColumns(nodes: seq<Json>, x: string)
    requires CompileAll(nodes).Ok? && x in COLUMNS
    ensures AllFieldsOf(nodes).Some? && SameGroup(ExprsOf(nodes), AllFieldsOf(nodes).value, x)
    decreases nodes
  {
    hide STRINGS, NUMBERS, DATES, CompileAll, CompileNode, ExprsOf, ExprOf, FieldsOf, Names;
    if nodes == [] {
      assert ExprsOf(nodes) == [];
    } else {
      FirstOfAll(nodes);
      NodeColumns(nodes[0], x);
      NodesColumns(nodes[1..], x);
      SomeNamesMore(ExprOf(nodes[0]), ExprsOf(nodes[1..]), x);
      SomeNamesMore(ExprOf(nodes[0]), ExprsOf(nodes[1..]), "object_canonical");
    }
  }

  lemma SomeNamesMore(e: Expr, rest: seq<Expr>, x: string)
    ensures SomeNames([e] + rest, x) <==> x in Names(e) || SomeNames(rest, x)
  {
    hide Names;
    var es := [e] + rest;
    assert es[0] == e && forall i :: 0 <= i < |rest| ==> es[i + 1] == rest[i];
    if SomeNames(rest, x) {
      var i :| 0 <= i < |rest| && x in Names(rest[i]);
      assert x in Names(es[i + 1]);
    }
    if SomeNames(es, x) {
      var i :| 0 <= i < |es| && x in Names(es[i]);
      assert i > 0 ==> es[i] == rest[i - 1];
    }
  }

  /** The fields offered as result columns are the columns the compiled filter reads, each once; but an
      object search, which reads object_canonical, is offered as object. */
  lemma FieldsAreColumnsRead(ast: Json, x: string)
    requires ast.JObj? && ast.members != map[] && CompileFilter(ast).Ok? && x in COLUMNS
    ensures FieldsOf(ast).Some? && NoRepeats(Added([], FieldsOf(ast).value))
    ensures var e := ParseText(CompileFilter(ast).value);
            UntornNumbers(ast) ==> e.Some? && SameColumns(Names(e.value), Added([], FieldsOf(ast).value), x)
  {
    if UntornNumbers(ast) {
      FilterParses(ast);
    }
    NodeColumns(ast, x);
    AddedIs([], FieldsOf(ast).value);
    hide ParseText, Names, ExprOf, CompileNode, FieldsOf, STRINGS, NUMBERS, DATES;
  }

  // ---- The sort order ----

  datatype Key = Key(field: string, descending: bool)

  /** One entry of a sort: a field of the allow-list and a direction in any case. */
  function SortKey(s: Json): Result<Key> {
    if !s.JObj? then JsonError
    else if "field" in s.members && !s.members["field"].JStr? then JsonError
    else
      var field := if "field" in s.members then s.members["field"].s else "";
      if FieldKind(field).None? then QueryError
      else if "dir" in s.members && !s.members["dir"].JStr? then JsonError
      else
        var dir := if "dir" in s.members then Lower(s.members["dir"].s) else "asc";
        if dir != "asc" && dir != "desc" then QueryError else Ok(Key(field, dir == "desc"))
  }

  function SortKeys(ss: seq<Json>): Result<seq<Key>> {
    if ss == [] then Ok([])
    else
      match SortKey(ss[0])
      case Ok(k) =>
        (match SortKeys(ss[1..])
         case Ok(ks) => Ok([k] + ks)
         case QueryError => QueryError
         case JsonError => JsonError
         case Cone => Cone)
      case QueryError => QueryError
      case JsonError => JsonError
      case Cone => Cone
  }

  function Direction(k: Key): string {
    if k.descending then "DESC" else "ASC"
  }

  function KeyText(k: Key): string {
    k.field + " " + Direction(k)
  }

  function KeyTexts(ks: seq<Key>): seq<string> {
    seq(|ks|, i requires 0 <= i < |ks| => KeyText(ks[i]))
  }

  function KeysText(ks: seq<Key>): string {
    if ks == [] then "" else JoinText(", ", KeyTexts(ks))
  }

  /** Without a sort the latest exposures come first. */
  const DEFAULT_SORT := "date_obs_utc DESC"

  function SortText(sort: Json): Result<string> {
    if !sort.JArr? || sort.items == [] then Ok(DEFAULT_SORT)
    else
      match SortKeys(sort.items)
      case Ok(ks) => Ok(KeysText(ks))
      case QueryError => QueryError
      case JsonError => JsonError
      case Cone => Cone
  }

  /** The ORDER BY keys of a text. */
  function ReadKeys(ts: seq<Token>): Option<seq<Key>>
    decreases |ts|
  {
    if |ts| < 2 || !ts[0].Word? || (ts[1] != Word("ASC") && ts[1] != Word("DESC")) then None
    else
      var k := Key(ts[0].name, ts[1] == Word("DESC"));
      if |ts| == 2 then Some([k])
      else if ts[2] != Sym(",") then None
      else
        match ReadKeys(ts[3..])
        case None => None
        case Some(ks) => Some([k] + ks)
  }

  function KeyTokens(ks: seq<Key>): seq<seq<Token>> {
    seq(|ks|, i requires 0 <= i < |ks| => [Word(ks[i].field), Word(Direction(ks[i]))])
  }

  lemma {:induction false} KeysRead(ks: seq<Key>)
    requires ks != []
    ensures ReadKeys(Chain(Sym(","), KeyTokens(ks))) == Some(ks)
    decreases |ks|
  {
    var toks := KeyTokens(ks);
    var ts := Chain(Sym(","), toks);
    assert toks[1..] == KeyTokens(ks[1..]) && toks[0] == [Word(ks[0].field), Word(Direction(ks[0]))];
    if |ks| == 1 {
      assert ts == toks[0];
      assert [ks[0]] == ks;
    } else {
      KeysRead(ks[1..]);
      var rest := Chain(Sym(","), toks[1..]);
      assert ts == toks[0] + [Sym(",")] + rest;
      assert ts[0] == toks[0][0] && ts[1] == toks[0][1] && ts[2] == Sym(",") && ts[3..] == rest;
      assert [ks[0]] + ks[1..] == ks;
    }
  }

  lemma {:induction false} KeysAllowed(ss: seq<Json>)
    requires SortKeys(ss).Ok?
    ensures forall i :: 0 <= i < |SortKeys(ss).value| ==> FieldKind(SortKeys(ss).value[i].field).Some?
    ensures |SortKeys(ss).value| == |ss|
  {
    hide FieldKind;
    if ss != [] {
      KeysAllowed(ss[1..]);
    }
  }

  /** A compiled sort is read as the asked keys, in order, all of them allow-listed columns. */
  lemma SortReads(ss: seq<Json>)
    requires ss != [] && SortKeys(ss).Ok?
    ensures var text := SortText(JArr(ss)); text.Ok? && var ts := Lex(text.value);
            ts.Some? && ReadKeys(ts.value) == Some(SortKeys(ss).value)
    ensures forall i :: 0 <= i < |SortKeys(ss).value| ==> SortKeys(ss).value[i].field in COLUMNS
  {
    KeysAllowed(ss);
    var ks := SortKeys(ss).value;
    hide FieldKind, Lex, Yields, Leads, JoinText, Chain, Printable, SortKey;
    CommaLeads();
    forall i | 0 <= i < |ks|
      ensures ks[i].field in COLUMNS && Yields(KeyTexts(ks)[i], KeyTokens(ks)[i])
    {
      FieldIsColumn(ks[i].field);
      FieldIsPlain(ks[i].field);
      DirectionPrintable(ks[i]);
      PairYields(ks[i].field, Direction(ks[i]));
    }
    hide COLUMNS, STRINGS, NUMBERS, DATES;
    JoinYields(", ", Sym(","), KeyTexts(ks), KeyTokens(ks));
    WholeLex(KeysText(ks), Chain(Sym(","), KeyTokens(ks)));
    KeysRead(ks);
  }

  lemma DirectionPrintable(k: Key)
    ensures Printable(Word(Direction(k)))
  {
  }

  /** One entry: s.value("field", ""), s.value("dir", "asc"). */
  method CompileKey(s: Json) returns (k: Result<Key>)
    ensures k == SortKey(s)
  {
    hide FieldKind;
    if !s.JObj? {
      return JsonError;
    }
    var field := "";
    if "field" in s.members {
      if !s.members["field"].JStr? {
        return JsonError;
      }
      field := s.members["field"].s;
    }
    if FieldKind(field).None? {
      return QueryError;
    }
    var dir := "asc";
    if "dir" in s.members {
      if !s.members["dir"].JStr? {
        return JsonError;
      }
      dir := Lower(s.members["dir"].s);
    }
    if dir == "desc" {
      return Ok(Key(field, true));
    }
    if dir == "asc" {
      return Ok(Key(field, false));
    }
    k := QueryError;
  }

  /** compile_sort: the entries in turn, up to the first that is refused. */
  method CompileSort(sort: Json) returns (r: Result<string>)
    ensures r == SortText(sort)
  {
    if !sort.JArr? || sort.items == [] {
      return Ok("date_obs_utc DESC");
    }
    var ss := sort.items;
    var out := "";
    ghost var done: seq<Key> := [];
    var i := 0;
    SortStarts(ss);
    hide SortKey, SortKeys, Before, KeysText;
    while i < |ss|
      invariant 0 <= i <= |ss| && out == KeysText(done) && (out == "" <==> i == 0)
      invariant SortKeys(ss) == Before(done, SortKeys(ss[i..])) && |done| == i
    {
      KeysStep(ss, i, done);
      var k := CompileKey(ss[i]);
      if !k.Ok? {
        return Refused(k);
      }
      KeysTextMore(done, k.value);
      out := out + (if out == "" then "" else ", ") + k.value.field + " " + if k.value.descending then "DESC"
          else "ASC";
      done := done + [k.value];
      i := i + 1;
    }
    SortEnds(ss, done);
    r := Ok(out);
  }

  function Refused(k: Result<Key>): Result<string> {
    match k
    case Ok(_) => Ok("")
    case QueryError => QueryError
    case JsonError => JsonError
    case Cone => Cone
  }

  lemma SortStarts(ss: seq<Json>)
    ensures KeysText([]) == "" && SortKeys(ss) == Before([], SortKeys(ss[0..]))
  {
    assert ss[0..] == ss;
    if SortKeys(ss).Ok? {
      assert [] + SortKeys(ss).value == SortKeys(ss).value;
    }
    hide SortKeys;
  }

  lemma SortEnds(ss: seq<Json>, done: seq<Key>)
    ensures Before(done, SortKeys(ss[|ss|..])) == Ok(done)
  {
    assert ss[|ss|..] == [] && done + [] == done;
  }

  function Before(front: seq<Key>, r: Result<seq<Key>>): Result<seq<Key>> {
    match r
    case Ok(ks) => Ok(front + ks)
    case QueryError => QueryError
    case JsonError => JsonError
    case Cone => Cone
  }

  lemma KeysStep(ss: seq<Json>, i: nat, done: seq<Key>)
    requires i < |ss|
    ensures Before(done, SortKeys(ss[i..])) ==
            match SortKey(ss[i])
            case Ok(k) => Before(done + [k], SortKeys(ss[i + 1..]))
            case QueryError => QueryError
            case JsonError => JsonError
            case Cone => Cone
  {
    hide SortKey;
    assert ss[i..][1..] == ss[i + 1..];
    if SortKey(ss[i]).Ok? && SortKeys(ss[i + 1..]).Ok? {
      assert done + ([SortKey(ss[i]).value] + SortKeys(ss[i + 1..]).value)
          == done + [SortKey(ss[i]).value] + SortKeys(ss[i + 1..]).value;
    }
  }

  lemma KeysTextMore(ks: seq<Key>, k: Key)
    ensures KeysText(ks + [k]) == KeysText(ks) + (if ks == [] then "" else ", ") + k.field + " " + Direction(k)
    ensures KeysText(ks + [k]) != ""
  {
    hide JoinText;
    JoinSnoc(KeyTexts(ks), KeyText(k));
    assert KeyTexts(ks + [k]) == KeyTexts(ks) + [KeyText(k)];
  }
}
