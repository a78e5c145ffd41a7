/** How the server's grammar reads the single conditions that filters are made of. */
module SqlReading {
  import opened Options
  import opened SqlText
  import opened SqlParser

  // ---- Operands ----

  /** ts reads as the operand o, whatever follows but a point, and begins no other kind of condition. */
  ghost predicate OperandReads(ts: seq<Token>, o: Operand) {
    && ts != [] && ts[0] != Word("NOT") && ts[0] != Word("EXISTS") && ts[0] != Sym("(")
    && forall rest {:trigger ParseOperand(ts + rest)} :: !Starts(rest, Sym("."))
        ==> ParseOperand(ts + rest) == Parsed(o, rest)
  }

  lemma ColumnReads(name: string)
    requires !IsKeyword(name)
    ensures OperandReads([Word(name)], Column("", name))
  {
    var ts := [Word(name)];
    forall rest | !Starts(rest, Sym("."))
      ensures ParseOperand(ts + rest) == Parsed(Column("", name), rest)
    {
      assert (ts + rest)[0] == ts[0] && (ts + rest)[1..] == rest;
      assert |rest| > 1 ==> (ts + rest)[1] == rest[0];
    }
  }

  lemma DottedReads(row: string, name: string)
    requires !IsKeyword(row)
    ensures OperandReads([Word(row), Sym("."), Word(name)], Column(row, name))
  {
    var ts := [Word(row), Sym("."), Word(name)];
    forall rest
      ensures ParseOperand(ts + rest) == Parsed(Column(row, name), rest)
    {
      var all := ts + rest;
      assert all[0] == ts[0] && all[1] == ts[1] && all[2] == ts[2] && all[3..] == rest;
    }
  }

  lemma TextReads(body: string)
    ensures OperandReads([Str(body)], Text(body))
  {
    forall rest
      ensures ParseOperand([Str(body)] + rest) == Parsed(Text(body), rest)
    {
      assert ([Str(body)] + rest)[1..] == rest;
    }
  }

  lemma NumberReads(digits: string)
    ensures OperandReads([Num(digits)], Number(false, digits))
  {
    forall rest
      ensures ParseOperand([Num(digits)] + rest) == Parsed(Number(false, digits), rest)
    {
      assert ([Num(digits)] + rest)[1..] == rest;
    }
  }

  lemma SignedNumberReads(sign: string, digits: string)
    requires sign == "-" || sign == "+"
    ensures OperandReads([Sym(sign), Num(digits)], Number(sign == "-", digits))
  {
    var ts := [Sym(sign), Num(digits)];
    forall rest
      ensures ParseOperand(ts + rest) == Parsed(Number(sign == "-", digits), rest)
    {
      var all := ts + rest;
      assert all[0] == ts[0] && all[1] == ts[1] && all[2..] == rest;
    }
  }

  lemma SignedNameReads(sign: string, name: string)
    requires (sign == "-" || sign == "+") && !IsKeyword(name)
    ensures OperandReads([Sym(sign), Word(name)], Signed(sign == "-", name))
  {
    var ts := [Sym(sign), Word(name)];
    forall rest
      ensures ParseOperand(ts + rest) == Parsed(Signed(sign == "-", name), rest)
    {
      var all := ts + rest;
      assert all[0] == ts[0] && all[1] == ts[1] && all[2..] == rest;
    }
  }

  function CastTokens(row: string, name: string): seq<Token> {
    [Word("CAST"), Sym("("), Word(row), Sym("."), Word(name)] + CAST_TAIL
  }

  lemma CastReads(row: string, name: string)
    ensures OperandReads(CastTokens(row, name), Cast(row, name))
  {
    var ts := CastTokens(row, name);
    forall rest
      ensures ParseOperand(ts + rest) == Parsed(Cast(row, name), rest)
    {
      var all := ts + rest;
      assert |ts| == 13;
      assert all[0] == ts[0] && all[1] == ts[1] && all[2] == ts[2] && all[3] == ts[3] && all[4] == ts[4];
      assert ts[5..] == CAST_TAIL;
      assert all[5..13] == CAST_TAIL && all[13..] == rest;
    }
  }

  // ---- Conditions ----

  lemma SuffixReads(tl: seq<Token>, l: Operand, suffix: seq<Token>, e: Expr, rest: seq<Token>)
    requires OperandReads(tl, l) && suffix != [] && suffix[0] != Sym(".")
    requires ParseSuffix(l, suffix + rest) == Parsed(e, rest)
    ensures ParseNot(tl + suffix + rest) == Parsed(e, rest)
  {
    hide ParseOperand, ParseSuffix;
    var all := tl + suffix + rest;
    assert all == tl + (suffix + rest);
    assert all[0] == tl[0];
    assert ParseOperand(tl + (suffix + rest)) == Parsed(l, suffix + rest);
  }

  lemma ReadsCompare(tl: seq<Token>, l: Operand, t: Token, tr: seq<Token>, r: Operand)
    requires OperandReads(tl, l) && OperandReads(tr, r) && ComparisonOf(t).Some?
    ensures Reads(tl + ([t] + tr), Expr.Compare(l, ComparisonOf(t).value, r))
  {
    var suffix := [t] + tr;
    forall rest | Follow(rest)
      ensures ParseNot(tl + suffix + rest) == Parsed(Expr.Compare(l, ComparisonOf(t).value, r), rest)
    {
      assert (suffix + rest)[1..] == tr + rest;
      assert ParseOperand(tr + rest) == Parsed(r, rest);
      hide ParseOperand;
      SuffixReads(tl, l, suffix, Expr.Compare(l, ComparisonOf(t).value, r), rest);
    }
  }

  lemma ReadsNull(tl: seq<Token>, l: Operand, negated: bool)
    requires OperandReads(tl, l)
    ensures Reads(tl + (if negated then [Word("IS"), Word("NOT"), Word("NULL")] else [Word("IS"), Word("NULL")]),
        Null(l, negated))
  {
    var suffix := if negated then [Word("IS"), Word("NOT"), Word("NULL")] else [Word("IS"), Word("NULL")];
    forall rest | Follow(rest)
      ensures ParseNot(tl + suffix + rest) == Parsed(Null(l, negated), rest)
    {
      assert (suffix + rest)[..|suffix|] == suffix && (suffix + rest)[|suffix|..] == rest;
      assert (suffix + rest)[0] == suffix[0] && (suffix + rest)[1] == suffix[1];
      assert negated ==> (suffix + rest)[2] == suffix[2];
      hide ParseOperand;
      SuffixReads(tl, l, suffix, Null(l, negated), rest);
    }
  }

  lemma ReadsBetween(tx: seq<Token>, x: Operand, ta: seq<Token>, a: Operand, tb: seq<Token>, b: Operand)
    requires OperandReads(tx, x) && OperandReads(ta, a) && OperandReads(tb, b)
    ensures Reads(tx + ([Word("BETWEEN")] + ta + ([Word("AND")] + tb)), Between(x, a, b))
  {
    var suffix := [Word("BETWEEN")] + ta + ([Word("AND")] + tb);
    forall rest | Follow(rest)
      ensures ParseNot(tx + suffix + rest) == Parsed(Between(x, a, b), rest)
    {
      var tail := [Word("AND")] + (tb + rest);
      assert (suffix + rest)[1..] == ta + tail;
      assert ParseOperand(ta + tail) == Parsed(a, tail);
      assert tail[1..] == tb + rest;
      assert ParseOperand(tb + rest) == Parsed(b, rest);
      hide ParseOperand;
      SuffixReads(tx, x, suffix, Between(x, a, b), rest);
    }
  }

  ghost predicate AllOperandsRead(parts: seq<seq<Token>>, os: seq<Operand>) {
    |parts| == |os| && forall i :: 0 <= i < |parts| ==> OperandReads(parts[i], os[i])
  }

  lemma {:induction false} ListReads(parts: seq<seq<Token>>, os: seq<Operand>, rest: seq<Token>)
    requires parts != [] && AllOperandsRead(parts, os)
    ensures ParseList(Chain(Sym(","), parts) + ([Sym(")")] + rest)) == Parsed(os, rest)
    decreases |parts|
  {
    hide ParseOperand;
    var close := [Sym(")")] + rest;
    var all := Chain(Sym(","), parts) + close;
    assert close[1..] == rest;
    assert OperandReads(parts[0], os[0]);
    if |parts| == 1 {
      assert ParseOperand(parts[0] + close) == Parsed(os[0], close);
      assert [os[0]] == os;
    } else {
      var tail := [Sym(",")] + (Chain(Sym(","), parts[1..]) + close);
      ChainSplits(Sym(","), parts, close);
      assert ParseOperand(parts[0] + tail) == Parsed(os[0], tail);
      assert tail[1..] == Chain(Sym(","), parts[1..]) + close;
      ListReads(parts[1..], os[1..], rest);
      assert [os[0]] + os[1..] == os;
    }
  }

  lemma ReadsIn(tl: seq<Token>, l: Operand, parts: seq<seq<Token>>, os: seq<Operand>)
    requires OperandReads(tl, l) && parts != [] && AllOperandsRead(parts, os)
    ensures Reads(tl + ([Word("IN"), Sym("(")] + Chain(Sym(","), parts) + [Sym(")")]), In(l, os))
  {
    var suffix := [Word("IN"), Sym("(")] + Chain(Sym(","), parts) + [Sym(")")];
    forall rest | Follow(rest)
      ensures ParseNot(tl + suffix + rest) == Parsed(In(l, os), rest)
    {
      assert (suffix + rest)[2..] == Chain(Sym(","), parts) + ([Sym(")")] + rest);
      assert (suffix + rest)[0] == Word("IN") && (suffix + rest)[1] == Sym("(");
      ListReads(parts, os, rest);
      hide ParseOperand, ParseList;
      SuffixReads(tl, l, suffix, In(l, os), rest);
    }
  }

  // ---- Subqueries ----

  ghost predicate SourceReads(ts: seq<Token>, s: Source) {
    ts != [] && forall rest {:trigger ParseSource(ts + rest)} :: Starts(rest, Word("WHERE")) ==>
        ParseSource(ts + rest) == Parsed(s, rest)
  }

  lemma TableReads(table: string, row: string)
    ensures SourceReads([Word(table), Word(row)], Table(table, row))
  {
    var ts := [Word(table), Word(row)];
    forall rest | Starts(rest, Word("WHERE"))
      ensures ParseSource(ts + rest) == Parsed(Table(table, row), rest)
    {
      var all := ts + rest;
      assert all[0] == ts[0] && all[1] == ts[1] && all[2] == rest[0] && all[2..] == rest;
    }
  }

  function JoinTokens(table: string, row: string, table2: string, row2: string, tl: seq<Token>,
      tr: seq<Token>): seq<Token> {
    [Word(table), Word(row), Word("JOIN"), Word(table2), Word(row2), Word("ON")] + (tl + ([Sym("=")] + tr))
  }

  /** The source of a join, after its six leading tokens. */
  lemma JoinTail(head: seq<Token>, on: seq<Token>, e: Expr, rest: seq<Token>)
    requires |head| == 6 && head[0].Word? && head[1].Word? && head[2] == Word("JOIN") && head[3].Word? && head[4].Word?
    requires head[5] == Word("ON")
    requires var l := ParseOperand(on + rest); l.Parsed? && ParseSuffix(l.value, l.rest) == Parsed(e, rest)
    ensures ParseSource(head + on + rest)
        == Parsed(Join(head[0].name, head[1].name, head[3].name, head[4].name, e), rest)
  {
    hide ParseOperand, ParseSuffix;
    var all := head + on + rest;
    assert all[..6] == head && all[6..] == on + rest;
    assert all[0] == head[0] && all[1] == head[1] && all[2] == head[2] && all[3] == head[3] && all[4] == head[4]
        && all[5] == head[5];
  }

  lemma EqualReads(tl: seq<Token>, l: Operand, tr: seq<Token>, r: Operand, rest: seq<Token>)
    requires OperandReads(tl, l) && OperandReads(tr, r) && !Starts(rest, Sym("."))
    ensures ParseOperand(tl + ([Sym("=")] + tr) + rest) == Parsed(l, [Sym("=")] + (tr + rest))
    ensures ParseSuffix(l, [Sym("=")] + (tr + rest)) == Parsed(Expr.Compare(l, "=", r), rest)
  {
    hide ParseOperand;
    var suffix := [Sym("=")] + (tr + rest);
    assert tl + ([Sym("=")] + tr) + rest == tl + suffix;
    assert ParseOperand(tl + suffix) == Parsed(l, suffix);
    assert suffix[1..] == tr + rest;
    assert ParseOperand(tr + rest) == Parsed(r, rest);
  }

  lemma JoinReads(table: string, row: string, table2: string, row2: string, tl: seq<Token>, l: Operand, tr: seq<Token>,
      r: Operand)
    requires OperandReads(tl, l) && OperandReads(tr, r)
    ensures SourceReads(JoinTokens(table, row, table2, row2, tl, tr),
        Join(table, row, table2, row2, Expr.Compare(l, "=", r)))
  {
    hide ParseSource, ParseOperand, ParseSuffix;
    var head := [Word(table), Word(row), Word("JOIN"), Word(table2), Word(row2), Word("ON")];
    forall rest | Starts(rest, Word("WHERE"))
      ensures ParseSource(JoinTokens(table, row, table2, row2, tl, tr) + rest)
           == Parsed(Join(table, row, table2, row2, Expr.Compare(l, "=", r)), rest)
    {
      EqualReads(tl, l, tr, r, rest);
      JoinTail(head, tl + ([Sym("=")] + tr), Expr.Compare(l, "=", r), rest);
    }
  }

  function ExistsTokens(source: seq<Token>, parts: seq<seq<Token>>): seq<Token>
    requires parts != []
  {
    [Word("EXISTS")] + EXISTS_HEAD + source + ([Word("WHERE")] + Chain(Word("AND"), parts) + [Sym(")")])
  }

  /** EXISTS over the rows of a source that meet every one of some conditions. */
  lemma ReadsExists(ts: seq<Token>, source: Source, parts: seq<seq<Token>>, es: seq<Expr>)
    requires SourceReads(ts, source) && parts != [] && AllRead(parts, es)
    ensures Reads(ExistsTokens(ts, parts), Exists(source, Folded(true, es[0], es[1..])))
  {
    hide ParseNot, ParseOr, ParseSource, Folded, Chain;
    forall rest | Follow(rest)
      ensures ParseNot(ExistsTokens(ts, parts) + rest) == Parsed(Exists(source, Folded(true, es[0], es[1..])), rest)
    {
      ReadsJoined(true, parts, es, [Sym(")")] + rest);
      ExistsReads(ts, source, Chain(Word("AND"), parts), Folded(true, es[0], es[1..]), rest);
    }
  }

  lemma ExistsReads(ts: seq<Token>, source: Source, where: seq<Token>, e: Expr, rest: seq<Token>)
    requires SourceReads(ts, source)
    requires ParseOr(where + ([Sym(")")] + rest)) == Parsed(e, [Sym(")")] + rest)
    ensures ParseNot([Word("EXISTS")] + EXISTS_HEAD + ts + ([Word("WHERE")] + where + [Sym(")")]) + rest)
        == Parsed(Exists(source, e), rest)
  {
    hide ParseSource, ParseOr;
    var all := [Word("EXISTS")] + EXISTS_HEAD + ts + ([Word("WHERE")] + where + [Sym(")")]) + rest;
    var close := [Sym(")")] + rest;
    var tail := [Word("WHERE")] + (where + close);
    assert all[0] == Word("EXISTS") && all[1..5] == EXISTS_HEAD && all[5..] == ts + tail;
    assert ParseSource(ts + tail) == Parsed(source, tail);
    assert tail[1..] == where + close && close[1..] == rest;
    assert ParsePredicate(all) == Parsed(Exists(source, e), rest);
  }
}
