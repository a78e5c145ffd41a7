/** What a filter means, without SQL: for each row, true, false or unknown. Beside it the condition its
    text is read as. */
module FilterMeaning {
  import opened Options
  import opened Canon
  import Decimal
  import opened SqlText
  import opened SqlParser
  import opened SqlMeaning
  import opened Numerals
  import opened Query

  // ---- Meaning ----

  function ScalarValue(kind: Kind, v: Json): Value {
    match v
    case JNum(d) => if kind.NumberKind? then NumV(Shown(d)) else TextV(SixDecimals(d))
    case JStr(s) => if kind.NumberKind? then NumeralValue(s) else TextV(s)
    case _ => NullV
  }

  function NumeralValue(s: string): Value {
    match ReadNumeral(s)
    case Some(Numeric(_, sign, digits)) => NumV(SignedValue(sign == "-", RealOf(digits)))
    case _ => NullV
  }

  /** What an operator asks of two numbers, */
  predicate AsksOf(op: string, x: real, y: real) {
    match op
    case "eq" => x == y
    case "ne" => x != y
    case "lt" => x < y
    case "lte" => x <= y
    case "gt" => x > y
    case "gte" => x >= y
    case _ => false
  }

  /** and by what name it asks the server to compare other values. */
  function AskedName(op: string): string {
    match op
    case "eq" => "="
    case "ne" => "<>"
    case "lt" => "<"
    case "lte" => "<="
    case "gt" => ">"
    case "gte" => ">="
    case _ => "LIKE"
  }

  function Asked(w: World, op: string, a: Value, b: Value): Tri {
    if a.NullV? || b.NullV? then Unknown
    else if a.NumV? && b.NumV? && op != "like" then Of(AsksOf(op, a.x, b.x))
    else Of(w.collate(AskedName(op), a, b))
  }

  function Member(node: Node, name: string): Json {
    if name in node then node[name] else JNull
  }

  function Items(v: Json): seq<Json> {
    if v.JArr? then v.items else []
  }

  predicate Holds(w: World, op: string, a: Value, b: Value) {
    CompareValues(w, op, a, b) == True
  }

  /** Some row of a table, for this frame, meets a condition. */
  ghost predicate SomeRow(w: World, table: string, row: Row, condition: Row -> bool) {
    exists i :: 0 <= i < |TableRows(w, table)| && var r := TableRows(w, table)[i];
                Holds(w, "=", Get(r, "frame_id"), Get(row, "frame_id")) && condition(r)
  }

  /** Some row of a link table, for this frame, with the row it links to, meets a condition. */
  ghost predicate SomePair(w: World, link: string, key: string, target: string, row: Row,
      condition: (Row, Row) -> bool) {
    exists i, j ::
      && 0 <= i < |TableRows(w, link)| && 0 <= j < |TableRows(w, target)|
      && var (l, t) := (TableRows(w, link)[i], TableRows(w, target)[j]);
         && Holds(w, "=", Get(t, "id"), Get(l, key)) && Holds(w, "=", Get(l, "frame_id"), Get(row, "frame_id"))
         && condition(l, t)
  }

  /** A header card of the frame, with this keyword, whose value compares as asked. */
  ghost function KeywordMeaning(w: World, row: Row, kw: string, op: string, v: Json): Tri {
    var present := SomeRow(w, "frame_keywords", row, k => Holds(w, "=", Get(k, "keyword"), TextV(kw)));
    if op == "isnull" then Of(!present)
    else if op == "notnull" then Of(present)
    else if v.JNum? then
      Of(SomeRow(w, "frame_keywords", row, k =>
           Holds(w, "=", Get(k, "keyword"), TextV(kw))
               && Asked(w, op, w.decimal(Get(k, "value")), NumV(Shown(v.d))) == True))
    else
      Of(SomeRow(w, "frame_keywords", row, k =>
           Holds(w, "=", Get(k, "keyword"), TextV(kw))
               && Asked(w, op, Get(k, "value"), ScalarValue(StringKind, v)) == True))
  }

  /** The frame is linked to the row with this name, or this id. */
  ghost predicate Linked(w: World, row: Row, link: string, key: string, target: string, v: Json) {
    if v.JNum? then SomePair(w, link, key, target, row,
        (l, t) => Holds(w, "=", Get(l, key), NumV(Truncated(v.d) as real)))
    else SomePair(w, link, key, target, row, (l, t) => Holds(w, "=", Get(t, "name"), ScalarValue(StringKind, v)))
  }

  function DesignationValue(like: bool, d: string): Value {
    TextV(if like then "%" + d + "%" else d)
  }

  /** Each designation compared with x. */
  function Searches(w: World, op: string, x: Value, ds: seq<string>): seq<Tri> {
    seq(|ds|, i requires 0 <= i < |ds| => Asked(w, op, x, DesignationValue(op == "like", ds[i])))
  }

  /** Each value of a list compared with x. */
  function Equalities(w: World, x: Value, kind: Kind, vs: seq<Json>): seq<Tri> {
    seq(|vs|, i requires 0 <= i < |vs| => CompareValues(w, "=", x, ScalarValue(kind, vs[i])))
  }

  function FieldMeaning(w: World, row: Row, field: string, kind: Kind, op: string, node: Node): Tri {
    var x, v := Get(row, field), Member(node, "value");
    if op == "isnull" then Of(x.NullV?)
    else if op == "notnull" then Of(!x.NullV?)
    else if ByDesignation(field, op, node) then
      Disjunction(Searches(w, op, Get(row, "object_canonical"), Designations(v.s)))
    else if op == "in" then
      Disjunction(Equalities(w, x, kind, Items(v)))
    else if op == "between" then
      if |Items(v)| != 2 then Unknown
      else Conjunction([CompareValues(w, ">=", x, ScalarValue(kind, Items(v)[0])),
          CompareValues(w, "<=", x, ScalarValue(kind, Items(v)[1]))])
    else Asked(w, op, x, ScalarValue(kind, v))
  }

  ghost function ComparisonMeaning(w: World, row: Row, node: Node): Tri {
    if !Member(node, "field").JStr? then Unknown else
    var field := node["field"].s;
    var op := if Member(node, "op").JStr? then node["op"].s else "eq";
    if KEYWORD_PREFIX <= field then KeywordMeaning(w, row, field[|KEYWORD_PREFIX|..], op, Member(node, "value"))
    else if FieldKind(field).None? then Unknown
    else FieldMeaning(w, row, field, FieldKind(field).value, op, node)
  }

  /** and is false when a clause is, else unknown when a clause is; or is true when a clause is. */
  ghost function Meaning(w: World, row: Row, node: Json): Tri
    decreases node
  {
    if !node.JObj? then Unknown else
    var m := node.members;
    var op := if Member(m, "op").JStr? then m["op"].s else "";
    if op == "and" || op == "or" then
      if "clauses" !in m || !m["clauses"].JArr? then Unknown
      else var vs := Meanings(w, row, m["clauses"].items); if op == "and" then Conjunction(vs) else Disjunction(vs)
    else if op == "not" then
      if "clauses" !in m || !m["clauses"].JArr? || |m["clauses"].items| != 1 then Unknown
      else Negation(Meaning(w, row, m["clauses"].items[0]))
    else if op == "tagged" then Of(Linked(w, row, "frame_tags", "tag_id", "tags", Member(m, "value")))
    else if op == "untagged" then Of(!Linked(w, row, "frame_tags", "tag_id", "tags", Member(m, "value")))
    else if op == "in_collection" then Of(Linked(w, row, "collection_frames", "collection_id", "collections",
        Member(m, "value")))
    else ComparisonMeaning(w, row, m)
  }

  ghost function Meanings(w: World, row: Row, nodes: seq<Json>): (vs: seq<Tri>)
    ensures |vs| == |nodes|
    decreases nodes
  {
    if nodes == [] then [] else [Meaning(w, row, nodes[0])] + Meanings(w, row, nodes[1..])
  }

  ghost function MeaningOf(w: World, row: Row, ast: Json): Tri {
    if ast.JNull? || (ast.JObj? && ast.members == map[]) then True else Meaning(w, row, ast)
  }

  // ---- How numbers are read ----

  /** The server reads a string given as a number as one operand: a number or, when that is allowed, a name. */
  predicate ScalarRead(named: bool, kind: Kind, v: Json) {
    kind.NumberKind? && v.JStr? && ReadNumeral(v.s).Some? ==>
      var n := ReadNumeral(v.s).value; n.Numeric? || (named && n.Named?)
  }

  predicate ScalarsRead(named: bool, kind: Kind, vs: seq<Json>) {
    forall i :: 0 <= i < |vs| ==> ScalarRead(named, kind, vs[i])
  }

  predicate FieldRead(named: bool, kind: Kind, op: string, node: Node) {
    if op == "isnull" || op == "notnull" then true
    else if op == "in" || op == "between" then ScalarsRead(named, kind, Items(Member(node, "value")))
    else ScalarRead(named, kind, Member(node, "value"))
  }

  predicate ComparisonRead(named: bool, node: Node) {
    Member(node, "field").JStr? ==>
      var field := node["field"].s;
      KEYWORD_PREFIX <= field || FieldKind(field).None? ||
      FieldRead(named, FieldKind(field).value, if Member(node, "op").JStr? then node["op"].s else "eq", node)
  }

  predicate NumbersRead(named: bool, node: Json)
    decreases node
  {
    node.JObj? ==>
      var m := node.members;
      var op := if Member(m, "op").JStr? then m["op"].s else "";
      if op == "and" || op == "or" || op == "not" then
        "clauses" in m && m["clauses"].JArr? ==> AllNumbersRead(named, m["clauses"].items)
      else op == "tagged" || op == "untagged" || op == "in_collection" || ComparisonRead(named, m)
  }

  predicate AllNumbersRead(named: bool, nodes: seq<Json>)
    decreases nodes
  {
    nodes != [] ==> NumbersRead(named, nodes[0]) && AllNumbersRead(named, nodes[1..])
  }

  /** Every number given as a string is one operand to the server. */
  predicate UntornNumbers(ast: Json) {
    NumbersRead(true, ast)
  }

  /** Every number given as a string is a number to the server too. */
  predicate PlainNumbers(ast: Json) {
    NumbersRead(false, ast)
  }

  lemma {:induction false} PlainIsUntorn(node: Json)
    requires PlainNumbers(node)
    ensures UntornNumbers(node)
    decreases node, 1
  {
    hide FieldKind, KEYWORD_PREFIX, ReadNumeral;
    if node.JObj? {
      var m := node.members;
      if "clauses" in m && m["clauses"].JArr? && AllNumbersRead(false, m["clauses"].items) {
        AllPlainUntorn(m["clauses"].items);
      }
    }
  }

  lemma {:induction false} AllPlainUntorn(nodes: seq<Json>)
    requires AllNumbersRead(false, nodes)
    ensures AllNumbersRead(true, nodes)
    decreases nodes, 0
  {
    hide NumbersRead;
    if nodes != [] {
      PlainIsUntorn(nodes[0]);
      AllPlainUntorn(nodes[1..]);
    }
  }

  // ---- The condition a filter is read as ----

  const NOTHING := Number(false, "0")

  /** The server's name of the operator in the text. */
  function Operator(op: string): string {
    match BinOp(op)
    case Some(Sym(m)) => m
    case _ => "LIKE"
  }

  function LiteralOperand(kind: Kind, v: Json): Operand {
    match v
    case JNum(d) => if kind.NumberKind? then Number(d < 0.0, Magnitude(d)) else Text(SixDecimals(d))
    case JStr(s) =>
      if !kind.NumberKind? then Text(s)
      else (
        match ReadNumeral(s)
        case Some(Numeric(_, sign, digits)) => Number(sign == "-", digits)
        case Some(Named(_, sign, word)) => if sign == "" then Column("", word) else Signed(sign == "-", word)
        case Some(Torn(_, _, text)) => Column("", text) // the server does not read it as one operand
        case None => NOTHING)
    case _ => NOTHING
  }

  function LiteralOperands(kind: Kind, vs: seq<Json>): seq<Operand> {
    seq(|vs|, i requires 0 <= i < |vs| => LiteralOperand(kind, vs[i]))
  }

  function SameFrameExpr(alias: string): Expr {
    Expr.Compare(Column(alias, "frame_id"), "=", Column("v_frames", "frame_id"))
  }

  function Subquery(source: Source, alias: string, conditions: seq<Expr>): Expr {
    Exists(source, Folded(true, SameFrameExpr(alias), conditions))
  }

  function Unless(negate: bool, e: Expr): Expr {
    if negate then Not(e) else e
  }

  function KeywordExpr(kw: string, op: string, v: Json): Expr {
    var card := Expr.Compare(Column("k", "keyword"), "=", Text(kw));
    if op == "isnull" || op == "notnull"
        then Unless(op == "isnull", Subquery(Table("frame_keywords", "k"), "k", [card]))
    else
      var kind := if v.JNum? then NumberKind else StringKind;
      var left := if v.JNum? then Cast("k", "value") else Column("k", "value");
      Subquery(Table("frame_keywords", "k"), "k", [card, Expr.Compare(left, Operator(op), LiteralOperand(kind, v))])
  }

  function IntOperand(n: int): Operand {
    Number(n < 0, Decimal.ToDec(if n < 0 then -n else n))
  }

  function LinkExpr(link: string, l: string, key: string, target: string, t: string, v: Json): Expr {
    var source := Join(link, l, target, t, Expr.Compare(Column(t, "id"), "=", Column(l, key)));
    match v
    case JNum(d) => Subquery(source, l, [Expr.Compare(Column(l, key), "=", IntOperand(Truncated(d)))])
    case _ => Subquery(source, l, [Expr.Compare(Column(t, "name"), "=", LiteralOperand(StringKind, v))])
  }

  function DesignationExpr(like: bool, d: string): Expr {
    Expr.Compare(Column("", "object_canonical"), if like then "LIKE" else "=", Text(if like then "%" + d + "%" else d))
  }

  function DesignationExprs(like: bool, ds: seq<string>): seq<Expr> {
    seq(|ds|, i requires 0 <= i < |ds| => DesignationExpr(like, ds[i]))
  }

  function FieldExpr(field: string, kind: Kind, op: string, node: Node): Expr {
    var x, v := Column("", field), Member(node, "value");
    if op == "isnull" then Null(x, false)
    else if op == "notnull" then Null(x, true)
    else if ByDesignation(field, op, node) then
      var es := DesignationExprs(op == "like", Designations(v.s));
      Folded(false, es[0], es[1..])
    else if op == "in" then In(x, LiteralOperands(kind, Items(v)))
    else if op == "between" && |Items(v)| == 2 then
      Between(x, LiteralOperand(kind, Items(v)[0]), LiteralOperand(kind, Items(v)[1]))
    else Expr.Compare(x, Operator(op), LiteralOperand(kind, v))
  }

  function ComparisonExpr(node: Node): Expr {
    var field := if Member(node, "field").JStr? then node["field"].s else "";
    var op := if Member(node, "op").JStr? then node["op"].s else "eq";
    if KEYWORD_PREFIX <= field then KeywordExpr(field[|KEYWORD_PREFIX|..], op, Member(node, "value"))
    else FieldExpr(field, FieldKind(field).GetOr(StringKind), op, node)
  }

  function ExprOf(node: Json): Expr
    decreases node
  {
    if !node.JObj? then Null(NOTHING, false) else
    var m := node.members;
    var op := if Member(m, "op").JStr? then m["op"].s else "";
    if (op == "and" || op == "or" || op == "not")
        && (Items(Member(m, "clauses")) == [] || "clauses" !in m || !m["clauses"].JArr?) then
      Null(NOTHING, false)
    else if op == "and" || op == "or" then
      var es := ExprsOf(m["clauses"].items); Folded(op == "and", es[0], es[1..])
    else if op == "not" then Not(ExprOf(m["clauses"].items[0]))
    else if op == "tagged" || op == "untagged" then
      Unless(op == "untagged", LinkExpr("frame_tags", "ft", "tag_id", "tags", "t", Member(m, "value")))
    else if op == "in_collection" then LinkExpr("collection_frames", "cf", "collection_id", "collections", "c",
        Member(m, "value"))
    else ComparisonExpr(m)
  }

  function ExprsOf(nodes: seq<Json>): (es: seq<Expr>)
    ensures |es| == |nodes|
    decreases nodes
  {
    if nodes == [] then [] else [ExprOf(nodes[0])] + ExprsOf(nodes[1..])
  }

  function FilterExpr(ast: Json): Expr {
    if ast.JNull? || (ast.JObj? && ast.members == map[]) then Expr.Compare(Number(false, "1"), "=", Number(false, "1"))
        else ExprOf(ast)
  }

  // ---- The names it may mention ----

  const SUBQUERY_WORDS := {
    "", "v_frames", "frame_id", "frame_keywords", "k", "keyword", "value", "frame_tags", "ft", "tag_id", "tags", "t",
    "id",
    "name", "collection_frames", "cf", "collection_id", "collections", "c"}

  /** The fixed vocabulary: the queryable columns, and the tables, aliases and columns of the subqueries. */
  const VOCABULARY := STRINGS + DATES + NUMBERS + SUBQUERY_WORDS

  function Outer(row: Row): Env {
    map["v_frames" := row]
  }
}
