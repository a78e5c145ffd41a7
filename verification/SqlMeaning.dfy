/** What a condition means: SQL's three-valued logic over the rows of the database. How the server
    compares values that are not two numbers (collation, LIKE, dates, conversions) is a parameter. */
module SqlMeaning {
  import opened Options
  import opened Chars
  import opened Numerals
  import opened SqlText
  import opened SqlParser

  datatype Tri = False | Unknown | True

  datatype Value = NullV | NumV(x: real) | TextV(t: string)

  type Row = map<string, Value>

  /** The tables, the server's comparison of two values that are not both numbers, and its reading of
      a value as DECIMAL(20,6). */
  datatype World = World(tables: map<string, seq<Row>>, collate: (string, Value, Value) -> bool,
      decimal: Value -> Value)

  /** The rows in reach, by alias; v_frames is the outer row. */
  type Env = map<string, Row>

  function Of(b: bool): Tri {
    if b then True else False
  }

  function Negation(a: Tri): Tri {
    match a
    case True => False
    case False => True
    case Unknown => Unknown
  }

  function AndOf(a: Tri, b: Tri): Tri {
    if a == False || b == False then False else if a == True && b == True then True else Unknown
  }

  function OrOf(a: Tri, b: Tri): Tri {
    if a == True || b == True then True else if a == False && b == False then False else Unknown
  }

  function CompareNumbers(op: string, x: real, y: real): bool {
    match op
    case "=" => x == y
    case "<>" => x != y
    case "<" => x < y
    case "<=" => x <= y
    case ">" => x > y
    case _ => x >= y
  }

  function CompareValues(w: World, op: string, a: Value, b: Value): Tri {
    if a.NullV? || b.NullV? then Unknown
    else if a.NumV? && b.NumV? && op != "LIKE" then Of(CompareNumbers(op, a.x, b.x))
    else Of(w.collate(op, a, b))
  }

  function Get(row: Row, name: string): Value {
    if name in row then row[name] else NullV
  }

  function TableRows(w: World, name: string): seq<Row> {
    if name in w.tables then w.tables[name] else []
  }

  // ---- Evaluation ----

  function OuterRow(row: string): string {
    if row == "" then "v_frames" else row
  }

  function OperandValue(w: World, env: Env, o: Operand): Value {
    match o
    case Column(row, name) => if OuterRow(row) in env then Get(env[OuterRow(row)], name) else NullV
    case Number(negative, digits) => NumV(SignedValue(negative, RealOf(digits)))
    case Signed(negative, name) =>
      if "v_frames" in env && Get(env["v_frames"], name).NumV?
      then NumV(SignedValue(negative, Get(env["v_frames"], name).x))
      else NullV
    case Text(body) => TextV(body)
    case Cast(row, name) => if row in env then w.decimal(Get(env[row], name)) else NullV
  }

  function AnyEqual(w: World, x: Value, ys: seq<Value>): Tri {
    if ys == [] then False else OrOf(CompareValues(w, "=", x, ys[0]), AnyEqual(w, x, ys[1..]))
  }

  function Values(w: World, env: Env, os: seq<Operand>): seq<Value> {
    seq(|os|, i requires 0 <= i < |os| => OperandValue(w, env, os[i]))
  }

  ghost function Eval(w: World, env: Env, e: Expr): Tri
    decreases e
  {
    match e
    case Compare(l, op, r) => CompareValues(w, op, OperandValue(w, env, l), OperandValue(w, env, r))
    case Null(c, negated) => Of(OperandValue(w, env, c).NullV? != negated)
    case In(l, list) => AnyEqual(w, OperandValue(w, env, l), Values(w, env, list))
    case Between(x, low, high) =>
      var v := OperandValue(w, env, x);
      AndOf(CompareValues(w, ">=", v, OperandValue(w, env, low)), CompareValues(w, "<=", v, OperandValue(w, env, high)))
    case Exists(Table(t, a), where) =>
      Of(exists i :: 0 <= i < |TableRows(w, t)| && Eval(w, env[a := TableRows(w, t)[i]], where) == True)
    case Exists(Join(t, a, t2, a2, on), where) =>
      Of(exists i, j :: (
           && 0 <= i < |TableRows(w, t)| && 0 <= j < |TableRows(w, t2)|
           && Eval(w, env[a := TableRows(w, t)[i]][a2 := TableRows(w, t2)[j]], on) == True
           && Eval(w, env[a := TableRows(w, t)[i]][a2 := TableRows(w, t2)[j]], where) == True))
    case Not(f) => Negation(Eval(w, env, f))
    case And(l, r) => AndOf(Eval(w, env, l), Eval(w, env, r))
    case Or(l, r) => OrOf(Eval(w, env, l), Eval(w, env, r))
  }

  // ---- The names a condition mentions ----

  function OperandNames(o: Operand): set<string> {
    match o
    case Column(row, name) => {row, name}
    case Signed(_, name) => {name}
    case Cast(row, name) => {row, name}
    case _ => {}
  }

  function ListNames(os: seq<Operand>): set<string> {
    if os == [] then {} else OperandNames(os[0]) + ListNames(os[1..])
  }

  /** Every table, alias and column name in a condition; "" stands for no alias. */
  function Names(e: Expr): set<string> {
    match e
    case Compare(l, _, r) => OperandNames(l) + OperandNames(r)
    case Null(c, _) => OperandNames(c)
    case In(l, list) => OperandNames(l) + ListNames(list)
    case Between(x, low, high) => OperandNames(x) + OperandNames(low) + OperandNames(high)
    case Exists(source, where) => SourceNames(source) + Names(where)
    case Not(f) => Names(f)
    case And(l, r) => Names(l) + Names(r)
    case Or(l, r) => Names(l) + Names(r)
  }

  function SourceNames(s: Source): set<string> {
    match s
    case Table(t, a) => {t, a}
    case Join(t, a, t2, a2, on) => {t, a, t2, a2} + Names(on)
  }

  // ---- Folds of AND and OR ----

  function Conjunction(vs: seq<Tri>): Tri {
    if False in vs then False else if Unknown in vs then Unknown else True
  }

  function Disjunction(vs: seq<Tri>): Tri {
    if True in vs then True else if Unknown in vs then Unknown else False
  }

  ghost function Evals(w: World, env: Env, es: seq<Expr>): seq<Tri> {
    seq(|es|, i requires 0 <= i < |es| => Eval(w, env, es[i]))
  }

  lemma AndOfConjunctions(a: seq<Tri>, b: seq<Tri>)
    ensures AndOf(Conjunction(a), Conjunction(b)) == Conjunction(a + b)
  {
  }

  lemma OrOfDisjunctions(a: seq<Tri>, b: seq<Tri>)
    ensures OrOf(Disjunction(a), Disjunction(b)) == Disjunction(a + b)
  {
  }

  /** A left fold of AND is false when a part is, else unknown when a part is; dually for OR. */
  lemma {:induction false} EvalFolded(w: World, env: Env, and: bool, first: Expr, more: seq<Expr>)
    ensures Eval(w, env, Folded(and, first, more)) ==
            var vs := [Eval(w, env, first)] + Evals(w, env, more); if and then Conjunction(vs) else Disjunction(vs)
    decreases |more|
  {
    hide Eval, Conjunction, Disjunction;
    var v := Eval(w, env, first);
    if more == [] {
      Single(v);
      assert [v] + Evals(w, env, more) == [v];
    } else {
      var next := if and then Expr.And(first, more[0]) else Expr.Or(first, more[0]);
      EvalFolded(w, env, and, next, more[1..]);
      EvalPair(w, env, and, first, more[0]);
      Single(v);
      Single(Eval(w, env, more[0]));
      Single(Eval(w, env, next));
      var rest := Evals(w, env, more[1..]);
      assert [v] + Evals(w, env, more) == [v] + [Eval(w, env, more[0])] + rest;
      if and {
        AndOfConjunctions([v], [Eval(w, env, more[0])]);
        AndOfConjunctions([Eval(w, env, next)], rest);
        AndOfConjunctions([v] + [Eval(w, env, more[0])], rest);
      } else {
        OrOfDisjunctions([v], [Eval(w, env, more[0])]);
        OrOfDisjunctions([Eval(w, env, next)], rest);
        OrOfDisjunctions([v] + [Eval(w, env, more[0])], rest);
      }
    }
  }

  lemma Single(v: Tri)
    ensures Conjunction([v]) == v && Disjunction([v]) == v
  {
  }

  lemma EvalPair(w: World, env: Env, and: bool, l: Expr, r: Expr)
    ensures Eval(w, env, if and then Expr.And(l, r) else Expr.Or(l, r)) ==
            if and then AndOf(Eval(w, env, l), Eval(w, env, r)) else OrOf(Eval(w, env, l), Eval(w, env, r))
  {
  }

  /** The names of a fold are the names of its parts. */
  lemma {:induction false} NamesFolded(and: bool, first: Expr, more: seq<Expr>, allowed: set<string>)
    ensures Names(Folded(and, first, more)) <= allowed
       <==> Names(first) <= allowed && forall i :: 0 <= i < |more| ==> Names(more[i]) <= allowed
    decreases |more|
  {
    if more != [] {
      var next := if and then Expr.And(first, more[0]) else Expr.Or(first, more[0]);
      NamesFolded(and, next, more[1..], allowed);
      assert Names(next) == Names(first) + Names(more[0]);
      assert forall i :: 1 <= i < |more| ==> more[i] == more[1..][i - 1];
    }
  }

  /** IN is the disjunction of its equalities. */
  lemma {:induction false} AnyEqualIsDisjunction(w: World, x: Value, ys: seq<Value>)
    ensures AnyEqual(w, x, ys) == Disjunction(seq(|ys|, i requires 0 <= i < |ys| => CompareValues(w, "=", x, ys[i])))
  {
    var vs := seq(|ys|, i requires 0 <= i < |ys| => CompareValues(w, "=", x, ys[i]));
    if ys != [] {
      AnyEqualIsDisjunction(w, x, ys[1..]);
      var rest := seq(|ys| - 1, i requires 0 <= i < |ys| - 1 => CompareValues(w, "=", x, ys[1..][i]));
      hide CompareValues, Disjunction;
      assert vs == [vs[0]] + rest;
      Single(vs[0]);
      OrOfDisjunctions([vs[0]], rest);
    }
  }
}
