/** The part of the server's expression grammar that filters use: OR binds weakest, then AND, then
    NOT, then the predicates; the AND of a BETWEEN belongs to the BETWEEN. */
module SqlParser {
  import opened Options
  import opened SqlText

  datatype Operand =
    | Column(row: string, name: string) // row is the alias; "" for a bare column name
    | Number(negative: bool, digits: string)
    | Signed(negative: bool, name: string) // a sign before a bare column name
    | Text(body: string)
    | Cast(row: string, name: string)   // CAST(row.name AS DECIMAL(20,6))

  datatype Source =
    | Table(table: string, row: string)
    | Join(table: string, row: string, table2: string, row2: string, on: Expr)

  datatype Expr =
    | Compare(left: Operand, op: string, right: Operand)
    | Null(column: Operand, negated: bool)
    | In(left: Operand, list: seq<Operand>)
    | Between(left: Operand, low: Operand, high: Operand)
    | Exists(source: Source, where: Expr)
    | Not(arg: Expr)
    | And(l: Expr, r: Expr)
    | Or(l: Expr, r: Expr)

  datatype Parse<+T> = Fail | Parsed(value: T, rest: seq<Token>)

  predicate Starts(ts: seq<Token>, t: Token) {
    ts != [] && ts[0] == t
  }

  predicate IsKeyword(w: string) {
    w in {"AND", "OR", "NOT", "IS", "NULL", "IN", "BETWEEN", "LIKE", "EXISTS", "SELECT", "FROM", "WHERE", "JOIN", "ON",
        "CAST", "AS"}
  }

  function ComparisonOf(t: Token): Option<string> {
    match t
    case Sym(m) => if m in {"=", "<>", "<", "<=", ">", ">="} then Some(m) else None
    case Word(w) => if w == "LIKE" then Some(w) else None
    case _ => None
  }

  /** name or row.name */
  function ParseColumn(ts: seq<Token>): (r: Parse<Operand>)
    ensures r.Parsed? ==> |r.rest| < |ts|
  {
    if ts == [] || !ts[0].Word? || IsKeyword(ts[0].name) then Fail
    else if |ts| > 2 && ts[1] == Sym(".") && ts[2].Word? then Parsed(Column(ts[0].name, ts[2].name), ts[3..])
    else Parsed(Column("", ts[0].name), ts[1..])
  }

  function ParseOperand(ts: seq<Token>): (r: Parse<Operand>)
    ensures r.Parsed? ==> |r.rest| < |ts|
  {
    if ts == [] then Fail
    else match ts[0]
    case Str(b) => Parsed(Text(b), ts[1..])
    case Num(d) => Parsed(Number(false, d), ts[1..])
    case Sym(m) =>
      if (m != "-" && m != "+") || |ts| < 2 then Fail
      else if ts[1].Num? then Parsed(Number(m == "-", ts[1].digits), ts[2..])
      else if ts[1].Word? && !IsKeyword(ts[1].name) then Parsed(Signed(m == "-", ts[1].name), ts[2..])
      else Fail
    case Word(w) =>
      if w == "CAST" then
        if |ts| > 12 && ts[1] == Sym("(") && ts[2].Word? && ts[3] == Sym(".") && ts[4].Word? && ts[5..13] == CAST_TAIL
        then Parsed(Cast(ts[2].name, ts[4].name), ts[13..])
        else Fail
      else ParseColumn(ts)
  }

  const CAST_TAIL: seq<Token> :=
    [Word("AS"), Word("DECIMAL"), Sym("("), Num("20"), Sym(","), Num("6"), Sym(")"), Sym(")")]

  function ParseList(ts: seq<Token>): (r: Parse<seq<Operand>>)
    ensures r.Parsed? ==> |r.rest| < |ts|
    decreases |ts|
  {
    match ParseOperand(ts)
    case Fail => Fail
    case Parsed(o, rest) =>
      if Starts(rest, Sym(")")) then Parsed([o], rest[1..])
      else if Starts(rest, Sym(",")) then
        match ParseList(rest[1..])
        case Fail => Fail
        case Parsed(os, rest2) => Parsed([o] + os, rest2)
      else Fail
  }

  /** What follows the left operand of a predicate. */
  function ParseSuffix(left: Operand, ts: seq<Token>): (r: Parse<Expr>)
    ensures r.Parsed? ==> |r.rest| < |ts|
  {
    if ts == [] then Fail
    else if ts[0] == Word("IS") then
      if |ts| > 1 && ts[1] == Word("NULL") then Parsed(Null(left, false), ts[2..])
      else if |ts| > 2 && ts[1] == Word("NOT") && ts[2] == Word("NULL") then Parsed(Null(left, true), ts[3..])
      else Fail
    else if ts[0] == Word("IN") then
      if |ts| > 1 && ts[1] == Sym("(") then
        match ParseList(ts[2..])
        case Fail => Fail
        case Parsed(os, rest) => Parsed(In(left, os), rest)
      else Fail
    else if ts[0] == Word("BETWEEN") then
      match ParseOperand(ts[1..])
      case Fail => Fail
      case Parsed(low, rest) =>
        if Starts(rest, Word("AND")) then
          match ParseOperand(rest[1..])
          case Fail => Fail
          case Parsed(high, rest2) => Parsed(Between(left, low, high), rest2)
        else Fail
    else if ComparisonOf(ts[0]).Some? then
      match ParseOperand(ts[1..])
      case Fail => Fail
      case Parsed(right, rest) => Parsed(Compare(left, ComparisonOf(ts[0]).value, right), rest)
    else Fail
  }

  /** table alias [JOIN table alias ON predicate] */
  function ParseSource(ts: seq<Token>): (r: Parse<Source>)
    ensures r.Parsed? ==> |r.rest| < |ts|
  {
    if |ts| < 2 || !ts[0].Word? || !ts[1].Word? then Fail
    else if |ts| > 5 && ts[2] == Word("JOIN") && ts[3].Word? && ts[4].Word? && ts[5] == Word("ON") then
      match ParseOperand(ts[6..])
      case Fail => Fail
      case Parsed(left, rest) =>
        match ParseSuffix(left, rest)
        case Fail => Fail
        case Parsed(on, rest2) => Parsed(Join(ts[0].name, ts[1].name, ts[3].name, ts[4].name, on), rest2)
    else Parsed(Table(ts[0].name, ts[1].name), ts[2..])
  }

  function ParseOr(ts: seq<Token>): (r: Parse<Expr>)
    ensures r.Parsed? ==> |r.rest| < |ts|
    decreases |ts|, 4
  {
    match ParseAnd(ts)
    case Fail => Fail
    case Parsed(e, rest) => OrTail(e, rest)
  }

  function OrTail(e: Expr, ts: seq<Token>): (r: Parse<Expr>)
    ensures r.Parsed? ==> |r.rest| <= |ts|
    decreases |ts|, 3
  {
    if Starts(ts, Word("OR")) then
      match ParseAnd(ts[1..])
      case Fail => Fail
      case Parsed(f, rest) => OrTail(Or(e, f), rest)
    else Parsed(e, ts)
  }

  function ParseAnd(ts: seq<Token>): (r: Parse<Expr>)
    ensures r.Parsed? ==> |r.rest| < |ts|
    decreases |ts|, 2
  {
    match ParseNot(ts)
    case Fail => Fail
    case Parsed(e, rest) => AndTail(e, rest)
  }

  function AndTail(e: Expr, ts: seq<Token>): (r: Parse<Expr>)
    ensures r.Parsed? ==> |r.rest| <= |ts|
    decreases |ts|, 1
  {
    if Starts(ts, Word("AND")) then
      match ParseNot(ts[1..])
      case Fail => Fail
      case Parsed(f, rest) => AndTail(And(e, f), rest)
    else Parsed(e, ts)
  }

  function ParseNot(ts: seq<Token>): (r: Parse<Expr>)
    ensures r.Parsed? ==> |r.rest| < |ts|
    decreases |ts|, 1
  {
    if Starts(ts, Word("NOT")) then
      match ParseNot(ts[1..])
      case Fail => Fail
      case Parsed(e, rest) => Parsed(Not(e), rest)
    else ParsePredicate(ts)
  }

  function ParsePredicate(ts: seq<Token>): (r: Parse<Expr>)
    ensures r.Parsed? ==> |r.rest| < |ts|
    decreases |ts|, 0
  {
    if Starts(ts, Sym("(")) then
      match ParseOr(ts[1..])
      case Fail => Fail
      case Parsed(e, rest) => if Starts(rest, Sym(")")) then Parsed(e, rest[1..]) else Fail
    else if Starts(ts, Word("EXISTS")) then
      if |ts| > 4 && ts[1..5] == EXISTS_HEAD then
        match ParseSource(ts[5..])
        case Fail => Fail
        case Parsed(source, rest) =>
          if Starts(rest, Word("WHERE")) then
            match ParseOr(rest[1..])
            case Fail => Fail
            case Parsed(where, rest2) => if Starts(rest2, Sym(")")) then Parsed(Exists(source, where), rest2[1..])
                else Fail
          else Fail
      else Fail
    else
      match ParseOperand(ts)
      case Fail => Fail
      case Parsed(left, rest) => ParseSuffix(left, rest)
  }

  const EXISTS_HEAD: seq<Token> := [Sym("("), Word("SELECT"), Num("1"), Word("FROM")]

  /** A whole condition. */
  function ParseText(s: string): Option<Expr> {
    match Lex(s)
    case None => None
    case Some(ts) =>
      match ParseOr(ts)
      case Fail => None
      case Parsed(e, rest) => if rest == [] then Some(e) else None
  }

  // ---- Reading one condition in a longer one ----

  /** What may follow a condition without changing how it is read. */
  predicate Follow(ts: seq<Token>) {
    ts == [] || ts[0] == Sym(")") || ts[0] == Word("AND") || ts[0] == Word("OR")
  }

  /** ts reads as the condition e in every context: after NOT, between AND and OR, in parentheses. */
  ghost predicate Reads(ts: seq<Token>, e: Expr) {
    forall rest {:trigger ParseNot(ts + rest)} :: Follow(rest) ==> ParseNot(ts + rest) == Parsed(e, rest)
  }

  lemma ReadsPredicate(ts: seq<Token>, e: Expr, rest: seq<Token>)
    requires ts != [] && ts[0] != Word("NOT")
    requires ParsePredicate(ts + rest) == Parsed(e, rest)
    ensures ParseNot(ts + rest) == Parsed(e, rest)
  {
    assert (ts + rest)[0] == ts[0];
  }

  lemma NotReadsOn(all: seq<Token>, e: Expr, rest: seq<Token>)
    requires Starts(all, Word("NOT")) && ParseNot(all[1..]) == Parsed(e, rest)
    ensures ParseNot(all) == Parsed(Not(e), rest)
  {
    hide ParsePredicate;
  }

  lemma ReadsNot(ts: seq<Token>, e: Expr)
    requires Reads(ts, e)
    ensures Reads([Word("NOT")] + ts, Not(e))
  {
    hide ParseNot;
    forall rest | Follow(rest)
      ensures ParseNot(([Word("NOT")] + ts) + rest) == Parsed(Not(e), rest)
    {
      var all := ([Word("NOT")] + ts) + rest;
      assert all[1..] == ts + rest;
      assert ParseNot(ts + rest) == Parsed(e, rest);
      NotReadsOn(all, e, rest);
    }
  }

  /** A condition in parentheses. */
  lemma ReadsParens(ts: seq<Token>, e: Expr)
    requires forall rest {:trigger ParseOr(ts + rest)} :: Starts(rest, Sym(")")) ==>
        ParseOr(ts + rest) == Parsed(e, rest)
    ensures Reads([Sym("(")] + ts + [Sym(")")], e)
  {
    forall rest | Follow(rest)
      ensures ParseNot(([Sym("(")] + ts + [Sym(")")]) + rest) == Parsed(e, rest)
    {
      var all := ([Sym("(")] + ts + [Sym(")")]) + rest;
      var close := [Sym(")")] + rest;
      assert all[1..] == ts + close;
      assert ParseOr(ts + close) == Parsed(e, close);
      assert close[1..] == rest;
    }
  }

  /** A single condition, as the whole of a disjunction. */
  lemma ReadsAlone(ts: seq<Token>, e: Expr, rest: seq<Token>)
    requires Reads(ts, e) && (rest == [] || rest[0] == Sym(")"))
    ensures ParseOr(ts + rest) == Parsed(e, rest)
  {
    assert ParseNot(ts + rest) == Parsed(e, rest);
    AndEnds(ts + rest, e, rest);
    OrEnds(ts + rest, e, rest);
  }

  lemma AndEnds(ts: seq<Token>, e: Expr, rest: seq<Token>)
    requires ParseNot(ts) == Parsed(e, rest) && !Starts(rest, Word("AND"))
    ensures ParseAnd(ts) == Parsed(e, rest)
  {
    assert AndTail(e, rest) == Parsed(e, rest);
  }

  lemma OrEnds(ts: seq<Token>, e: Expr, rest: seq<Token>)
    requires ParseAnd(ts) == Parsed(e, rest) && !Starts(rest, Word("OR"))
    ensures ParseOr(ts) == Parsed(e, rest)
  {
    assert OrTail(e, rest) == Parsed(e, rest);
  }

  // ---- Chains of conditions ----

  function Chain(join: Token, parts: seq<seq<Token>>): seq<Token>
    requires parts != []
  {
    if |parts| == 1 then parts[0] else parts[0] + [join] + Chain(join, parts[1..])
  }

  function Folded(and: bool, first: Expr, more: seq<Expr>): Expr
    decreases |more|
  {
    if more == [] then first
    else Folded(and, if and then And(first, more[0]) else Or(first, more[0]), more[1..])
  }

  ghost predicate AllRead(parts: seq<seq<Token>>, es: seq<Expr>) {
    |parts| == |es| && forall i :: 0 <= i < |parts| ==> Reads(parts[i], es[i])
  }

  /** Splitting a chain, with what follows it, into its first part and the rest. */
  lemma ChainSplits(join: Token, parts: seq<seq<Token>>, rest: seq<Token>)
    requires |parts| > 1
    ensures Chain(join, parts) + rest == parts[0] + ([join] + (Chain(join, parts[1..]) + rest))
  {
  }

  lemma {:induction false} ReadsConjuncts(parts: seq<seq<Token>>, es: seq<Expr>, acc: Expr, rest: seq<Token>)
    requires parts != [] && AllRead(parts, es) && Starts(rest, Sym(")"))
    ensures AndTail(acc, [Word("AND")] + (Chain(Word("AND"), parts) + rest)) == Parsed(Folded(true, acc, es), rest)
    decreases |parts|
  {
    var all := [Word("AND")] + (Chain(Word("AND"), parts) + rest);
    assert all[1..] == Chain(Word("AND"), parts) + rest;
    assert Reads(parts[0], es[0]);
    if |parts| == 1 {
      assert ParseNot(parts[0] + rest) == Parsed(es[0], rest);
      assert AndTail(And(acc, es[0]), rest) == Parsed(And(acc, es[0]), rest);
      assert Folded(true, And(acc, es[0]), es[1..]) == And(acc, es[0]);
    } else {
      var tail := [Word("AND")] + (Chain(Word("AND"), parts[1..]) + rest);
      ChainSplits(Word("AND"), parts, rest);
      assert ParseNot(parts[0] + tail) == Parsed(es[0], tail);
      ReadsConjuncts(parts[1..], es[1..], And(acc, es[0]), rest);
    }
  }

  lemma {:induction false} ReadsDisjuncts(parts: seq<seq<Token>>, es: seq<Expr>, acc: Expr, rest: seq<Token>)
    requires parts != [] && AllRead(parts, es) && Starts(rest, Sym(")"))
    ensures OrTail(acc, [Word("OR")] + (Chain(Word("OR"), parts) + rest)) == Parsed(Folded(false, acc, es), rest)
    decreases |parts|
  {
    var all := [Word("OR")] + (Chain(Word("OR"), parts) + rest);
    assert all[1..] == Chain(Word("OR"), parts) + rest;
    assert Reads(parts[0], es[0]);
    if |parts| == 1 {
      assert ParseNot(parts[0] + rest) == Parsed(es[0], rest);
      AndEnds(parts[0] + rest, es[0], rest);
      assert OrTail(Or(acc, es[0]), rest) == Parsed(Or(acc, es[0]), rest);
      assert Folded(false, Or(acc, es[0]), es[1..]) == Or(acc, es[0]);
    } else {
      var tail := [Word("OR")] + (Chain(Word("OR"), parts[1..]) + rest);
      ChainSplits(Word("OR"), parts, rest);
      assert ParseNot(parts[0] + tail) == Parsed(es[0], tail);
      AndEnds(parts[0] + tail, es[0], tail);
      ReadsDisjuncts(parts[1..], es[1..], Or(acc, es[0]), rest);
    }
  }

  lemma ReadsJoined(and: bool, parts: seq<seq<Token>>, es: seq<Expr>, rest: seq<Token>)
    requires parts != [] && AllRead(parts, es) && Starts(rest, Sym(")"))
    ensures ParseOr(Chain(if and then Word("AND") else Word("OR"), parts) + rest)
        == Parsed(Folded(and, es[0], es[1..]), rest)
  {
    var join := if and then Word("AND") else Word("OR");
    var all, first := Chain(join, parts) + rest, es[0];
    assert Reads(parts[0], first);
    if |parts| == 1 {
      ReadsAlone(parts[0], first, rest);
    } else {
      var tail := [join] + (Chain(join, parts[1..]) + rest);
      ChainSplits(join, parts, rest);
      assert ParseNot(all) == Parsed(first, tail);
      if and {
        ReadsConjuncts(parts[1..], es[1..], first, rest);
        assert ParseAnd(all) == AndTail(first, tail);
        OrEnds(all, Folded(true, first, es[1..]), rest);
      } else {
        ReadsDisjuncts(parts[1..], es[1..], first, rest);
        AndEnds(all, first, tail);
        assert ParseOr(all) == OrTail(first, tail);
      }
    }
  }

  /** Conditions joined by AND, or by OR, and put in parentheses read as the left fold of them. */
  lemma ReadsChain(and: bool, parts: seq<seq<Token>>, es: seq<Expr>)
    requires parts != [] && AllRead(parts, es)
    ensures var join := if and then Word("AND") else Word("OR");
            Reads([Sym("(")] + Chain(join, parts) + [Sym(")")], Folded(and, es[0], es[1..]))
  {
    var join := if and then Word("AND") else Word("OR");
    forall rest | Starts(rest, Sym(")"))
      ensures ParseOr(Chain(join, parts) + rest) == Parsed(Folded(and, es[0], es[1..]), rest)
    {
      ReadsJoined(and, parts, es, rest);
    }
    ReadsParens(Chain(join, parts), Folded(and, es[0], es[1..]));
  }
}
