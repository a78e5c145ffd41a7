/** Building the insert-or-update statements of the frame store, and what the server reads in them. */
module Upserts {
  import opened Options
  import opened Decimal
  import opened SqlText
  import opened SqlParser
  import opened SqlReading
  import opened Numerals
  import opened Query
  import opened FilterReading

  // ---- The statement as text ----

  function Kept(columns: seq<string>, insertOnly: set<string>): seq<string> {
    if columns == [] then []
    else Kept(columns[..|columns| - 1], insertOnly) + (if columns[|columns| - 1] in insertOnly then []
        else [columns[|columns| - 1]])
  }

  function Update(column: string): string {
    column + " = VALUES(" + column + ")"
  }

  function Updates(columns: seq<string>): seq<string> {
    seq(|columns|, i requires 0 <= i < |columns| => Update(columns[i]))
  }

  function List(parts: seq<string>): string {
    if parts == [] then "" else JoinText(", ", parts)
  }

  function InsertText(table: string, columns: seq<string>, values: seq<string>, updates: seq<string>): string {
    "INSERT INTO " + table + " (" + List(columns) + ") VALUES (" + List(values) + ") ON DUPLICATE KEY UPDATE "
    + List(updates)
  }

  /** Columns and the SQL of their values, in the order in which they are given. */
  class Upsert {
    var columns: seq<string>
    var values: seq<string>

    constructor ()
      ensures columns == [] && values == []
    {
      columns, values := [], [];
    }

    method Raw(column: string, value: string)
      modifies this
      ensures columns == old(columns) + [column] && values == old(values) + [value]
    {
      columns := columns + [column];
      values := values + [value];
    }

    method Str(column: string, value: Option<string>)
      modifies this
      ensures columns == old(columns) + [column]
          && values == old(values) + [if value.Some? then Quoted(value.value) else "NULL"]
    {
      Raw(column, if value.Some? then "'" + Escape(value.value) + "'" else "NULL");
    }

    method Num(column: string, value: Option<int>)
      modifies this
      ensures columns == old(columns) + [column]
          && values == old(values) + [if value.Some? then IntText(value.value) else "NULL"]
    {
      Raw(column, if value.Some? then IntText(value.value) else "NULL");
    }

    method Real(column: string, value: Option<real>)
      modifies this
      ensures columns == old(columns) + [column]
          && values == old(values) + [if value.Some? then SixDecimals(value.value) else "NULL"]
    {
      Raw(column, if value.Some? then SixDecimals(value.value) else "NULL");
    }

    method Bit(column: string, value: bool)
      modifies this
      ensures columns == old(columns) + [column] && values == old(values) + [if value then "1" else "0"]
    {
      Raw(column, if value then "1" else "0");
    }

    /** build: the columns, their values, and an update of every column that is not insert-only. */
    method Build(table: string, insertOnly: set<string>) returns (text: string)
      ensures text == InsertText(table, columns, values, Updates(Kept(columns, insertOnly)))
    {
      var list := Listed(columns);
      var given := Listed(values);
      var updates := ListedUpdates(columns, insertOnly);
      text := "INSERT INTO " + table + " (" + list + ") VALUES (" + given + ") ON DUPLICATE KEY UPDATE " + updates;
    }
  }

  /** The last loop of build. */
  method ListedUpdates(columns: seq<string>, insertOnly: set<string>) returns (text: string)
    ensures text == List(Updates(Kept(columns, insertOnly)))
  {
    text := "";
    var first := true;
    var i := 0;
    while i < |columns|
      invariant 0 <= i <= |columns|
      invariant first <==> Kept(columns[..i], insertOnly) == []
      invariant text == List(Updates(Kept(columns[..i], insertOnly)))
    {
      KeptMore(columns, i, insertOnly);
      if columns[i] !in insertOnly {
        UpdatesSnoc(Kept(columns[..i], insertOnly), columns[i]);
        text := text + (if first then "" else ", ") + Update(columns[i]);
        first := false;
      }
      i := i + 1;
    }
    assert columns[..i] == columns;
  }

  lemma KeptMore(columns: seq<string>, i: nat, insertOnly: set<string>)
    requires i < |columns|
    ensures var kept := Kept(columns[..i], insertOnly);
            Kept(columns[..i + 1], insertOnly) == if columns[i] in insertOnly then kept else kept + [columns[i]]
  {
    assert columns[..i + 1][..i] == columns[..i];
    var kept := Kept(columns[..i], insertOnly);
    assert kept + [] == kept;
  }

  lemma UpdatesSnoc(kept: seq<string>, c: string)
    ensures List(Updates(kept + [c])) == if kept == [] then Update(c) else List(Updates(kept)) + ", " + Update(c)
  {
    hide Update, List;
    ListSnoc(Updates(kept), Update(c));
    assert Updates(kept + [c]) == Updates(kept) + [Update(c)];
  }

  method Listed(parts: seq<string>) returns (text: string)
    ensures text == List(parts)
  {
    text := "";
    var i := 0;
    NothingListed(parts);
    hide List;
    while i < |parts|
      invariant 0 <= i <= |parts|
      invariant text == List(parts[..i])
    {
      ListSnoc(parts[..i], parts[i]);
      assert parts[..i] + [parts[i]] == parts[..i + 1];
      assert i == 0 ==> "" + "" + parts[i] == parts[i];
      text := text + (if i > 0 then ", " else "") + parts[i];
      i := i + 1;
    }
    assert parts[..i] == parts;
  }

  lemma NothingListed(parts: seq<string>)
    ensures List(parts[..0]) == ""
  {
  }

  lemma ListSnoc(parts: seq<string>, last: string)
    ensures List(parts + [last]) == if parts == [] then last else List(parts) + ", " + last
  {
    JoinSnoc(parts, last);
    hide JoinText;
  }

  // ---- What the server reads ----

  /** The values are kept as the tokens they are made of. */
  datatype Insert = Insert(table: string, columns: seq<string>, values: seq<seq<Token>>, updates: seq<string>)

  /** A value's tokens, up to a comma or a closing parenthesis outside its own parentheses. */
  function ReadValue(ts: seq<Token>, depth: nat): (r: Parse<seq<Token>>)
    ensures r.Parsed? ==> |r.rest| <= |ts|
  {
    if ts == [] then Fail
    else if depth == 0 && (ts[0] == Sym(",") || ts[0] == Sym(")")) then Parsed([], ts)
    else
      match ReadValue(ts[1..], if ts[0] == Sym("(") then depth + 1 else if ts[0] == Sym(")") then depth - 1 else depth)
      case Fail => Fail
      case Parsed(v, rest) => Parsed([ts[0]] + v, rest)
  }

  /** Values with commas between them, up to the closing parenthesis. */
  function ReadValues(ts: seq<Token>): (r: Parse<seq<seq<Token>>>)
    ensures r.Parsed? ==> |r.rest| < |ts|
    decreases |ts|
  {
    match ReadValue(ts, 0)
    case Fail => Fail
    case Parsed(v, rest) =>
      if rest == [] then Fail
      else if rest[0] == Sym(")") then Parsed([v], rest[1..])
      else
        match ReadValues(rest[1..])
        case Fail => Fail
        case Parsed(vs, rest2) => Parsed([v] + vs, rest2)
  }

  function NamesOf(vs: seq<seq<Token>>): Option<seq<string>> {
    if vs == [] then Some([])
    else if |vs[0]| == 1 && vs[0][0].Word? then
      match NamesOf(vs[1..])
      case None => None
      case Some(names) => Some([vs[0][0].name] + names)
    else None
  }

  /** column = VALUES(column), with commas between them. */
  function ReadUpdates(ts: seq<Token>): Option<seq<string>>
    decreases |ts|
  {
    if ts == [] then Some([])
    else if |ts| < 6 || !ts[0].Word? || ts[1..6] != [Sym("="), Word("VALUES"), Sym("("), ts[0], Sym(")")] then None
    else if |ts| == 6 then Some([ts[0].name])
    else if ts[6] != Sym(",") || |ts| == 7 then None
    else
      match ReadUpdates(ts[7..])
      case None => None
      case Some(names) => Some([ts[0].name] + names)
  }

  const UPDATE_HEAD: seq<Token> := [Word("ON"), Word("DUPLICATE"), Word("KEY"), Word("UPDATE")]

  function ReadInsert(ts: seq<Token>): Option<Insert> {
    if |ts| < 4 || ts[0] != Word("INSERT") || ts[1] != Word("INTO") || !ts[2].Word? || ts[3] != Sym("(") then None
    else
      match ReadValues(ts[4..])
      case Fail => None
      case Parsed(columns, rest) =>
        if NamesOf(columns).None? || |rest| < 2 || rest[0] != Word("VALUES") || rest[1] != Sym("(") then None
        else
          match ReadValues(rest[2..])
          case Fail => None
          case Parsed(values, rest2) =>
            if |rest2| < 4 || rest2[..4] != UPDATE_HEAD then None
            else
              match ReadUpdates(rest2[4..])
              case None => None
              case Some(updates) => Some(Insert(ts[2].name, NamesOf(columns).value, values, updates))
  }

  /** A value that keeps to itself: its parentheses match, and no comma is outside them. */
  predicate Closed(ts: seq<Token>, depth: nat)
    decreases |ts|
  {
    if ts == [] then depth == 0
    else if depth == 0 && (ts[0] == Sym(",") || ts[0] == Sym(")")) then false
    else Closed(ts[1..], if ts[0] == Sym("(") then depth + 1 else if ts[0] == Sym(")") then depth - 1 else depth)
  }

  lemma {:induction false} ClosedReads(v: seq<Token>, depth: nat, rest: seq<Token>)
    requires Closed(v, depth) && (Starts(rest, Sym(",")) || Starts(rest, Sym(")")))
    ensures ReadValue(v + rest, depth) == Parsed(v, rest)
    decreases |v|
  {
    if v == [] {
      assert v + rest == rest;
    } else {
      assert (v + rest)[0] == v[0] && (v + rest)[1..] == v[1..] + rest;
      ClosedReads(v[1..], if v[0] == Sym("(") then depth + 1 else if v[0] == Sym(")") then depth - 1 else depth, rest);
      assert [v[0]] + v[1..] == v;
    }
  }

  lemma {:induction false} ValuesRead(vs: seq<seq<Token>>, rest: seq<Token>)
    requires vs != [] && forall i :: 0 <= i < |vs| ==> Closed(vs[i], 0)
    ensures ReadValues(Chain(Sym(","), vs) + ([Sym(")")] + rest)) == Parsed(vs, rest)
    decreases |vs|
  {
    hide ReadValue, Closed;
    var close := [Sym(")")] + rest;
    assert close[1..] == rest;
    if |vs| == 1 {
      ClosedReads(vs[0], 0, close);
      assert [vs[0]] == vs;
    } else {
      var tail := [Sym(",")] + (Chain(Sym(","), vs[1..]) + close);
      ChainSplits(Sym(","), vs, close);
      ClosedReads(vs[0], 0, tail);
      assert tail[1..] == Chain(Sym(","), vs[1..]) + close;
      ValuesRead(vs[1..], rest);
      assert [vs[0]] + vs[1..] == vs;
    }
  }

  function Words(names: seq<string>): seq<seq<Token>> {
    seq(|names|, i requires 0 <= i < |names| => [Word(names[i])])
  }

  lemma {:induction false} NamesBack(names: seq<string>)
    ensures NamesOf(Words(names)) == Some(names)
  {
    if names != [] {
      NamesBack(names[1..]);
      assert Words(names)[1..] == Words(names[1..]);
      assert [names[0]] + names[1..] == names;
    }
  }

  function UpdateTokens(c: string): seq<Token> {
    [Word(c), Sym("="), Word("VALUES"), Sym("("), Word(c), Sym(")")]
  }

  function UpdatesTokens(cs: seq<string>): seq<seq<Token>> {
    seq(|cs|, i requires 0 <= i < |cs| => UpdateTokens(cs[i]))
  }

  lemma OneUpdate(c: string, rest: seq<Token>)
    ensures ReadUpdates(UpdateTokens(c)) == Some([c])
    ensures rest != [] && ReadUpdates(rest).Some? ==>
              ReadUpdates(UpdateTokens(c) + ([Sym(",")] + rest)) == Some([c] + ReadUpdates(rest).value)
  {
    var head := UpdateTokens(c);
    assert head[1..6] == [Sym("="), Word("VALUES"), Sym("("), head[0], Sym(")")];
    var ts := head + ([Sym(",")] + rest);
    assert ts[0] == head[0] && ts[1..6] == head[1..6] && ts[6] == Sym(",") && ts[7..] == rest;
  }

  lemma {:induction false} UpdatesRead(cs: seq<string>)
    requires cs != []
    ensures ReadUpdates(Chain(Sym(","), UpdatesTokens(cs))) == Some(cs)
    decreases |cs|
  {
    hide ReadUpdates, UpdateTokens;
    var toks := UpdatesTokens(cs);
    assert toks[0] == UpdateTokens(cs[0]) && toks[1..] == UpdatesTokens(cs[1..]);
    if |cs| == 1 {
      OneUpdate(cs[0], []);
      assert [cs[0]] == cs;
    } else {
      var rest := Chain(Sym(","), toks[1..]);
      UpdatesRead(cs[1..]);
      ChainNotEmpty(cs[1..]);
      OneUpdate(cs[0], rest);
      assert Chain(Sym(","), toks) == UpdateTokens(cs[0]) + ([Sym(",")] + rest);
      assert [cs[0]] + cs[1..] == cs;
    }
  }

  lemma ChainNotEmpty(cs: seq<string>)
    requires cs != []
    ensures Chain(Sym(","), UpdatesTokens(cs)) != []
  {
    assert UpdatesTokens(cs)[0] == UpdateTokens(cs[0]);
  }

  // ---- From the text to the statement ----

  lemma {:induction false} NamesYield(names: seq<string>)
    requires names != [] && forall i :: 0 <= i < |names| ==> Printable(Word(names[i]))
    ensures Yields(List(names), Chain(Sym(","), Words(names)))
  {
    hide Printable, Yields, Leads, JoinText, Chain;
    CommaLeads();
    forall i | 0 <= i < |names|
      ensures Yields(names[i], Words(names)[i])
    {
      TokenYields(Word(names[i]));
      WordPrints(names[i]);
    }
    JoinYields(", ", Sym(","), names, Words(names));
  }

  lemma WordPrints(w: string)
    ensures Print(Word(w)) == w
  {
  }

  lemma UpdateYields(c: string)
    requires Printable(Word(c))
    ensures Yields(Update(c), UpdateTokens(c))
  {
    WordLeads(c);
    CallLeads("VALUES");
    EqualsLeads();
    TokenYields(Word(c));
    WordPrints(c);
    CloseYields();
    assert "VALUES" + "(" == "VALUES(";
    hide Printable, Yields, Leads, Print;
    YieldsThen(c, [Word(c)], ")", [Sym(")")]);
    LeadsYields("VALUES(", [Word("VALUES"), Sym("(")], c + ")", [Word(c)] + [Sym(")")]);
    LeadsYields("= ", [Sym("=")], "VALUES(" + (c + ")"), [Word("VALUES"), Sym("(")] + ([Word(c)] + [Sym(")")]));
    LeadsYields(c + " ", [Word(c)], "= " + ("VALUES(" + (c + ")")),
        [Sym("=")] + ([Word("VALUES"), Sym("(")] + ([Word(c)] + [Sym(")")])));
    assert c + " " + ("= " + ("VALUES(" + (c + ")"))) == Update(c);
    assert [Word(c)] + ([Sym("=")] + ([Word("VALUES"), Sym("(")] + ([Word(c)] + [Sym(")")]))) == UpdateTokens(c);
  }

  lemma EqualsLeads()
    ensures Leads("= ", [Sym("=")])
  {
    TokenLeads(Sym("="));
    assert Print(Sym("=")) + " " == "= ";
    hide Leads;
  }

  lemma UpdatesYield(cs: seq<string>)
    requires cs != [] && forall i :: 0 <= i < |cs| ==> Printable(Word(cs[i]))
    ensures Yields(List(Updates(cs)), Chain(Sym(","), UpdatesTokens(cs)))
  {
    hide Printable, Yields, Leads, JoinText, Chain, Update, UpdateTokens;
    CommaLeads();
    forall i | 0 <= i < |cs|
      ensures Yields(Updates(cs)[i], UpdatesTokens(cs)[i])
    {
      UpdateYields(cs[i]);
    }
    JoinYields(", ", Sym(","), Updates(cs), UpdatesTokens(cs));
  }

  /** "(" list ")" */
  lemma ParensYield(text: string, ts: seq<Token>)
    requires Yields(text, ts)
    ensures Yields(" (" + text + ")", [Sym("(")] + ts + [Sym(")")])
  {
    LeadsSpace(' ');
    InParens(text, ts);
    hide Yields, Leads;
    LeadsYields([' '], [], "(" + text + ")", [Sym("(")] + ts + [Sym(")")]);
    assert [' '] + ("(" + text + ")") == " (" + text + ")";
    assert [] + ([Sym("(")] + ts + [Sym(")")]) == [Sym("(")] + ts + [Sym(")")];
  }

  lemma InsertHead(table: string)
    requires Printable(Word(table))
    ensures Yields("INSERT INTO " + table, [Word("INSERT"), Word("INTO"), Word(table)])
  {
    WordLeads("INSERT");
    WordLeads("INTO");
    TokenYields(Word(table));
    WordPrints(table);
    assert "INSERT" + " " == "INSERT " && "INTO" + " " == "INTO " && "INSERT " + "INTO " == "INSERT INTO ";
    hide Printable, Yields, Leads;
    LeadsThen("INSERT ", [Word("INSERT")], "INTO ", [Word("INTO")]);
    LeadsYields("INSERT " + "INTO ", [Word("INSERT")] + [Word("INTO")], table, [Word(table)]);
    assert [Word("INSERT")] + [Word("INTO")] + [Word(table)] == [Word("INSERT"), Word("INTO"), Word(table)];
  }

  lemma ValuesWord()
    ensures Yields(" VALUES", [Word("VALUES")])
  {
    LeadsSpace(' ');
    TokenYields(Word("VALUES"));
    WordPrints("VALUES");
    hide Yields, Leads;
    LeadsYields([' '], [], "VALUES", [Word("VALUES")]);
    assert [' '] + "VALUES" == " VALUES" && [] + [Word("VALUES")] == [Word("VALUES")];
  }

  lemma TwoLead(a: string, b: string)
    requires Printable(Word(a)) && Printable(Word(b))
    ensures Leads(a + " " + (b + " "), [Word(a), Word(b)])
  {
    WordLeads(a);
    WordLeads(b);
    hide Leads, Printable;
    LeadsThen(a + " ", [Word(a)], b + " ", [Word(b)]);
    assert [Word(a)] + [Word(b)] == [Word(a), Word(b)];
  }

  lemma UpdateHead()
    ensures Leads(" ON DUPLICATE KEY UPDATE ", UPDATE_HEAD)
  {
    LeadsSpace(' ');
    TwoLead("ON", "DUPLICATE");
    TwoLead("KEY", "UPDATE");
    hide Leads;
    var a, b := "ON" + " " + ("DUPLICATE" + " "), "KEY" + " " + ("UPDATE" + " ");
    var ta, tb := [Word("ON"), Word("DUPLICATE")], [Word("KEY"), Word("UPDATE")];
    LeadsThen(a, ta, b, tb);
    LeadsThen([' '], [], a + b, ta + tb);
    HeadText();
    assert [] + (ta + tb) == UPDATE_HEAD;
  }

  lemma HeadText()
    ensures [' '] + ("ON" + " " + ("DUPLICATE" + " ") + ("KEY" + " " + ("UPDATE" + " "))) == " ON DUPLICATE KEY UPDATE "
  {
    assert "ON" + " " + ("DUPLICATE" + " ") == "ON DUPLICATE ";
    assert "KEY" + " " + ("UPDATE" + " ") == "KEY UPDATE ";
  }

  function Parens(ts: seq<Token>): seq<Token> {
    [Sym("(")] + ts + [Sym(")")]
  }

  function InsertTokens(table: string, columns: seq<Token>, values: seq<Token>, updates: seq<Token>): seq<Token> {
    [Word("INSERT"), Word("INTO"), Word(table)]
        + (Parens(columns) + ([Word("VALUES")] + (Parens(values) + (UPDATE_HEAD + updates))))
  }

  lemma InsertYields(table: string, c: string, tc: seq<Token>, v: string, tv: seq<Token>, u: string, tu: seq<Token>)
    requires Printable(Word(table)) && Yields(c, tc) && Yields(v, tv) && Yields(u, tu)
    ensures Yields("INSERT INTO " + table + " (" + c + ") VALUES (" + v + ") ON DUPLICATE KEY UPDATE " + u,
        InsertTokens(table, tc, tv, tu))
  {
    InsertHead(table);
    ParensYield(c, tc);
    ParensYield(v, tv);
    ValuesWord();
    UpdateHead();
    hide Yields, Leads, Printable;
    var back, tb := " ON DUPLICATE KEY UPDATE " + u, UPDATE_HEAD + tu;
    LeadsYields(" ON DUPLICATE KEY UPDATE ", UPDATE_HEAD, u, tu);
    YieldsThen(" (" + v + ")", Parens(tv), back, tb);
    var given, tg := " (" + v + ")" + back, Parens(tv) + tb;
    YieldsThen(" VALUES", [Word("VALUES")], given, tg);
    var rest, tr := " VALUES" + given, [Word("VALUES")] + tg;
    YieldsThen(" (" + c + ")", Parens(tc), rest, tr);
    YieldsThen("INSERT INTO " + table, [Word("INSERT"), Word("INTO"), Word(table)], " (" + c + ")" + rest,
        Parens(tc) + tr);
    InsertParts(table, c, v, u);
  }

  lemma InsertParts(table: string, c: string, v: string, u: string)
    ensures "INSERT INTO " + table + (" (" + c + ")"
        + (" VALUES" + (" (" + v + ")" + (" ON DUPLICATE KEY UPDATE " + u))))
         == "INSERT INTO " + table + " (" + c + ") VALUES (" + v + ") ON DUPLICATE KEY UPDATE " + u
  {
    assert ") VALUES (" == ")" + (" VALUES" + " (");
    assert ") ON DUPLICATE KEY UPDATE " == ")" + " ON DUPLICATE KEY UPDATE ";
  }

  /** The parts of a statement's tokens, from each keyword on. */
  lemma InsertSlices(table: string, tc: seq<Token>, tv: seq<Token>, tu: seq<Token>)
    ensures var ts, back := InsertTokens(table, tc, tv, tu), UPDATE_HEAD + tu;
            var middle := [Word("VALUES")] + (Parens(tv) + back);
            && |ts| >= 4 && ts[0] == Word("INSERT") && ts[1] == Word("INTO") && ts[2] == Word(table)
            && ts[3] == Sym("(")
            && ts[4..] == tc + ([Sym(")")] + middle)
            && |middle| >= 2 && middle[0] == Word("VALUES") && middle[1] == Sym("(")
            && middle[2..] == tv + ([Sym(")")] + back)
            && |back| >= 4 && back[..4] == UPDATE_HEAD && back[4..] == tu
  {
  }

  lemma InsertRead(table: string, columns: seq<string>, values: seq<seq<Token>>, updates: seq<string>)
    requires columns != [] && values != [] && updates != [] && forall i :: 0 <= i < |values| ==> Closed(values[i], 0)
    ensures ReadInsert(InsertTokens(table, Chain(Sym(","), Words(columns)), Chain(Sym(","), values),
        Chain(Sym(","), UpdatesTokens(updates))))
         == Some(Insert(table, columns, values, updates))
  {
    hide Closed, ReadValue, ReadValues, ReadUpdates, NamesOf, Chain, InsertTokens, Parens, ReadInsert, UpdateTokens;
    var tc, tv, tu := Chain(Sym(","), Words(columns)), Chain(Sym(","), values), Chain(Sym(","), UpdatesTokens(updates));
    var back := UPDATE_HEAD + tu;
    var middle := [Word("VALUES")] + (Parens(tv) + back);
    InsertSlices(table, tc, tv, tu);
    SomeWords(columns);
    WordsClosed(columns);
    ValuesRead(Words(columns), middle);
    ValuesRead(values, back);
    NamesBack(columns);
    UpdatesRead(updates);
    ReadsParts(InsertTokens(table, tc, tv, tu), table, columns, values, updates, middle, back);
  }

  lemma SomeWords(columns: seq<string>)
    ensures |Words(columns)| == |columns|
  {
  }

  lemma ReadsParts(ts: seq<Token>, table: string, columns: seq<string>, values: seq<seq<Token>>, updates: seq<string>,
      middle: seq<Token>, back: seq<Token>)
    requires |ts| >= 4 && ts[0] == Word("INSERT") && ts[1] == Word("INTO") && ts[2] == Word(table) && ts[3] == Sym("(")
    requires |middle| >= 2 && middle[0] == Word("VALUES") && middle[1] == Sym("(") && |back| >= 4
        && back[..4] == UPDATE_HEAD
    requires ReadValues(ts[4..]) == Parsed(Words(columns), middle) && ReadValues(middle[2..]) == Parsed(values, back)
    requires NamesOf(Words(columns)) == Some(columns) && ReadUpdates(back[4..]) == Some(updates)
    ensures ReadInsert(ts) == Some(Insert(table, columns, values, updates))
  {
    hide ReadValues, NamesOf, ReadUpdates, Words;
  }

  lemma WordsClosed(names: seq<string>)
    ensures forall i :: 0 <= i < |names| ==> Closed(Words(names)[i], 0)
  {
  }

  /** Whatever the strings in it, a built statement is read as one value for each column, in order, and
      an update of exactly the columns that are not insert-only. */
  lemma UpsertReads(table: string, columns: seq<string>, values: seq<string>, toks: seq<seq<Token>>,
      insertOnly: set<string>)
    requires Printable(Word(table)) && |columns| == |values| == |toks| && Kept(columns, insertOnly) != []
    requires forall i :: 0 <= i < |columns| ==>
        Printable(Word(columns[i])) && Yields(values[i], toks[i]) && Closed(toks[i], 0)
    ensures var ts := Lex(InsertText(table, columns, values, Updates(Kept(columns, insertOnly))));
            ts.Some? && ReadInsert(ts.value) == Some(Insert(table, columns, toks, Kept(columns, insertOnly)))
  {
    var kept := Kept(columns, insertOnly);
    KeptAmong(columns, insertOnly);
    assert columns != [];
    hide Yields, Leads, Printable, Closed, Lex, ReadInsert, Chain, JoinText, InsertTokens, Kept, Updates, UpdatesTokens,
        Words;
    NamesYield(columns);
    CommaLeads();
    JoinYields(", ", Sym(","), values, toks);
    forall i | 0 <= i < |kept|
      ensures Printable(Word(kept[i]))
    {
      assert kept[i] in kept;
      var j :| 0 <= j < |columns| && columns[j] == kept[i];
    }
    UpdatesYield(kept);
    assert columns != [] && InsertText(table, columns, values, Updates(kept))
        == "INSERT INTO " + table + " (" + List(columns)
      + ") VALUES (" + List(values) + ") ON DUPLICATE KEY UPDATE " + List(Updates(kept));
    InsertYields(table, List(columns), Chain(Sym(","), Words(columns)), List(values), Chain(Sym(","), toks),
      List(Updates(kept)), Chain(Sym(","), UpdatesTokens(kept)));
    WholeLex(InsertText(table, columns, values, Updates(kept)),
      InsertTokens(table, Chain(Sym(","), Words(columns)), Chain(Sym(","), toks),
          Chain(Sym(","), UpdatesTokens(kept))));
    InsertRead(table, columns, toks, kept);
  }

  lemma {:induction false} KeptAmong(columns: seq<string>, insertOnly: set<string>)
    ensures forall c :: c in Kept(columns, insertOnly) <==> c in columns && c !in insertOnly
  {
    if columns != [] {
      KeptAmong(columns[..|columns| - 1], insertOnly);
      assert columns == columns[..|columns| - 1] + [columns[|columns| - 1]];
    }
  }

  /** A string given to str is the value of its column, character for character. */
  lemma StrValue(s: string)
    ensures Yields(Quoted(s), [Str(s)]) && Closed([Str(s)], 0)
  {
    QuotedYields(s);
    hide Yields;
    assert [Str(s)][1..] == [];
  }
}
