/** The statements the frame store builds for files and frames, with every kind of value it puts in them. */
module StoreStatements {
  import opened Options
  import opened Decimal
  import opened SqlText
  import opened Numerals
  import opened Query
  import opened SqlParser
  import opened FilterReading
  import opened Upserts

  // ---- Values ----

  /** What the store gives a column. */
  datatype Given =
    | NoValue
    | Chars(s: string)
    | Whole(n: int)
    | Fraction(x: real)
    | Flag(b: bool)
    | Now(precise: bool) // UTC_TIMESTAMP(6), or without a precision
    | PathHash(path: string) // UNHEX(MD5('..'))
    | Digest(hex: string) // UNHEX('..')

  function TextOf(g: Given): string {
    match g
    case NoValue => "NULL"
    case Chars(s) => Quoted(s)
    case Whole(n) => IntText(n)
    case Fraction(x) => SixDecimals(x)
    case Flag(b) => if b then "1" else "0"
    case Now(precise) => if precise then "UTC_TIMESTAMP(6)" else "UTC_TIMESTAMP()"
    case PathHash(path) => "UNHEX(" + ("MD5(" + (Quoted(path) + ("))")))
    case Digest(hex) => "UNHEX(" + (Quoted(hex) + ")")
  }

  function TokensOf(g: Given): seq<Token> {
    match g
    case NoValue => [Word("NULL")]
    case Chars(s) => [Str(s)]
    case Whole(n) => SignTokens(if n < 0 then "-" else "") + [Num(ToDec(if n < 0 then -n else n))]
    case Fraction(x) => SignTokens(if x < 0.0 then "-" else "") + [Num(FixedText(Micros(Abs(x))))]
    case Flag(b) => [Num(if b then "1" else "0")]
    case Now(precise) => [Word("UTC_TIMESTAMP"), Sym("(")] + ((if precise then [Num("6")] else []) + [Sym(")")])
    case PathHash(path) => [Word("UNHEX"), Sym("(")]
        + ([Word("MD5"), Sym("(")] + ([Str(path)] + ([Sym(")")] + [Sym(")")])))
    case Digest(hex) => [Word("UNHEX"), Sym("(")] + ([Str(hex)] + [Sym(")")])
  }

  /** The text is the tokens, wherever it stands in a list, and keeps to itself there. */
  ghost predicate Stands(text: string, ts: seq<Token>) {
    Yields(text, ts) && Upserts.Closed(ts, 0)
  }

  lemma OneTokenStands(t: Token)
    requires Printable(t) && t != Sym("(") && t != Sym(")") && t != Sym(",")
    ensures Stands(Print(t), [t])
  {
    TokenYields(t);
    OneClosed(t);
    hide Yields, Upserts.Closed;
  }

  lemma NothingClosed()
    ensures Upserts.Closed([], 0)
  {
  }

  /** A token that is no parenthesis and, outside parentheses, no comma. */
  lemma PlainCloses(t: Token, rest: seq<Token>, depth: nat)
    requires t != Sym("(") && t != Sym(")") && (depth == 0 ==> t != Sym(",")) && Upserts.Closed(rest, depth)
    ensures Upserts.Closed([t] + rest, depth)
  {
    assert ([t] + rest)[1..] == rest;
  }

  lemma OpenCloses(rest: seq<Token>, depth: nat)
    requires Upserts.Closed(rest, depth + 1)
    ensures Upserts.Closed([Sym("(")] + rest, depth)
  {
    assert ([Sym("(")] + rest)[1..] == rest;
  }

  lemma CloseCloses(rest: seq<Token>, depth: nat)
    requires Upserts.Closed(rest, depth)
    ensures Upserts.Closed([Sym(")")] + rest, depth + 1)
  {
    assert ([Sym(")")] + rest)[1..] == rest;
  }

  lemma OneClosed(t: Token)
    requires t != Sym("(") && t != Sym(")") && t != Sym(",")
    ensures Upserts.Closed([t], 0)
  {
    NothingClosed();
    PlainCloses(t, [], 0);
    assert [t] + [] == [t];
  }

  /** f(arguments) */
  lemma CallCloses(f: string, arguments: seq<Token>, depth: nat)
    requires Upserts.Closed(arguments + [Sym(")")], depth + 1)
    ensures Upserts.Closed([Word(f), Sym("(")] + (arguments + [Sym(")")]), depth)
  {
    OpenCloses(arguments + [Sym(")")], depth);
    PlainCloses(Word(f), [Sym("(")] + (arguments + [Sym(")")]), depth);
    hide Upserts.Closed;
    assert [Word(f)] + ([Sym("(")] + (arguments + [Sym(")")])) == [Word(f), Sym("(")] + (arguments + [Sym(")")]);
  }

  lemma SignedStands(sign: string, digits: string)
    requires (sign == "-" || sign == "") && Printable(Num(digits))
    ensures Stands(sign + digits, SignTokens(sign) + [Num(digits)])
  {
    SignedYields(sign, Num(digits));
    OneClosed(Num(digits));
    if sign == "-" {
      PlainCloses(Sym("-"), [Num(digits)], 0);
    }
    hide Yields, Upserts.Closed;
    assert sign == "" ==> SignTokens(sign) + [Num(digits)] == [Num(digits)];
  }

  lemma TwoCloses()
    ensures Yields("))", [Sym(")")] + [Sym(")")])
  {
    CloseYields();
    hide Yields;
    YieldsThen(")", [Sym(")")], ")", [Sym(")")]);
    assert ")" + ")" == "))";
  }

  lemma NowStands(precise: bool)
    ensures Stands(TextOf(Now(precise)), TokensOf(Now(precise)))
  {
    CallLeads("UTC_TIMESTAMP");
    CloseYields();
    TokenYields(Num("6"));
    assert "UTC_TIMESTAMP" + "(" == "UTC_TIMESTAMP(" && Print(Num("6")) == "6";
    assert "UTC_TIMESTAMP(" + ("6" + ")") == "UTC_TIMESTAMP(6)" && "UTC_TIMESTAMP(" + ")" == "UTC_TIMESTAMP()";
    var head, close := [Word("UTC_TIMESTAMP"), Sym("(")], [Sym(")")];
    NowCloses(precise);
    hide Yields, Leads, Upserts.Closed;
    YieldsThen("6", [Num("6")], ")", close);
    LeadsYields("UTC_TIMESTAMP(", head, "6" + ")", [Num("6")] + close);
    LeadsYields("UTC_TIMESTAMP(", head, ")", close);
    assert [] + close == close;
  }

  lemma NowCloses(precise: bool)
    ensures Upserts.Closed(TokensOf(Now(precise)), 0)
  {
    LastClose(0);
    if precise {
      PlainCloses(Num("6"), [Sym(")")], 1);
    }
    CallCloses("UTC_TIMESTAMP", if precise then [Num("6")] else [], 0);
    hide Upserts.Closed;
    assert [] + [Sym(")")] == [Sym(")")];
  }

  lemma LastClose(depth: nat)
    requires depth == 0
    ensures Upserts.Closed([Sym(")")], depth + 1)
  {
    NothingClosed();
    CloseCloses([], depth);
    assert [Sym(")")] + [] == [Sym(")")];
  }

  lemma HashStands(path: string)
    ensures Stands(TextOf(PathHash(path)), TokensOf(PathHash(path)))
  {
    HashYields(Quoted(path), [Str(path)], [Sym(")")] + [Sym(")")]) by {
      TwoCloses();
      QuotedYields(path);
    }
    HashCloses(path);
    hide Yields, Upserts.Closed, Quoted;
  }

  lemma HashYields(text: string, ts: seq<Token>, closes: seq<Token>)
    requires Yields(text, ts) && Yields("))", closes)
    ensures Yields("UNHEX(" + ("MD5(" + (text + "))")),
        [Word("UNHEX"), Sym("(")] + ([Word("MD5"), Sym("(")] + (ts + closes)))
  {
    CallLeads("UNHEX");
    CallLeads("MD5");
    assert "UNHEX" + "(" == "UNHEX(" && "MD5" + "(" == "MD5(";
    hide Yields, Leads;
    YieldsThen(text, ts, "))", closes);
    LeadsYields("MD5(", [Word("MD5"), Sym("(")], text + "))", ts + closes);
    LeadsYields("UNHEX(", [Word("UNHEX"), Sym("(")], "MD5(" + (text + "))"), [Word("MD5"), Sym("(")] + (ts + closes));
  }

  lemma HashCloses(path: string)
    ensures Upserts.Closed(TokensOf(PathHash(path)), 0)
  {
    LastClose(0);
    CloseCloses([Sym(")")], 1);
    PlainCloses(Str(path), [Sym(")")] + [Sym(")")], 2);
    OpenCloses([Str(path)] + ([Sym(")")] + [Sym(")")]), 1);
    PlainCloses(Word("MD5"), [Sym("(")] + ([Str(path)] + ([Sym(")")] + [Sym(")")])), 1);
    OpenCloses([Word("MD5")] + ([Sym("(")] + ([Str(path)] + ([Sym(")")] + [Sym(")")]))), 0);
    PlainCloses(Word("UNHEX"), [Sym("(")] + ([Word("MD5")] + ([Sym("(")] + ([Str(path)] + ([Sym(")")] + [Sym(")")])))),
        0);
    hide Upserts.Closed;
    assert [Word("UNHEX")] + ([Sym("(")] + ([Word("MD5")] + ([Sym("(")] + ([Str(path)] + ([Sym(")")] + [Sym(")")])))))
        == TokensOf(PathHash(path));
  }

  lemma DigestStands(hex: string)
    ensures Stands(TextOf(Digest(hex)), TokensOf(Digest(hex)))
  {
    CallLeads("UNHEX");
    CloseYields();
    QuotedYields(hex);
    assert "UNHEX" + "(" == "UNHEX(";
    LastClose(0);
    PlainCloses(Str(hex), [Sym(")")], 1);
    CallCloses("UNHEX", [Str(hex)], 0);
    hide Yields, Leads, Upserts.Closed, Quoted;
    YieldsThen(Quoted(hex), [Str(hex)], ")", [Sym(")")]);
    LeadsYields("UNHEX(", [Word("UNHEX"), Sym("(")], Quoted(hex) + ")", [Str(hex)] + [Sym(")")]);
  }

  lemma NoValueStands()
    ensures Stands(TextOf(NoValue), TokensOf(NoValue))
  {
    OneTokenStands(Word("NULL"));
    hide Stands;
    assert Print(Word("NULL")) == "NULL";
  }

  lemma FlagStands(b: bool)
    ensures Stands(TextOf(Flag(b)), TokensOf(Flag(b)))
  {
    var d := if b then "1" else "0";
    assert Printable(Num(d));
    OneTokenStands(Num(d));
    hide Stands;
    assert Print(Num(d)) == d;
  }

  lemma WholeStands(n: int)
    ensures Stands(TextOf(Whole(n)), TokensOf(Whole(n)))
  {
    var digits := ToDec(if n < 0 then -n else n);
    assert Printable(Num(digits));
    SignedStands(if n < 0 then "-" else "", digits);
    hide Stands, ToDec;
    assert (if n < 0 then "-" else "") + digits == IntText(n);
  }

  lemma FractionStands(x: real)
    ensures Stands(TextOf(Fraction(x)), TokensOf(Fraction(x)))
  {
    FixedIsNumeral(Micros(Abs(x)));
    SignedStands(if x < 0.0 then "-" else "", FixedText(Micros(Abs(x))));
    hide Stands, FixedText, Micros;
  }

  /** Whatever the store gives a column is read as one value. */
  lemma GivenStands(g: Given)
    ensures Stands(TextOf(g), TokensOf(g))
  {
    match g
    case NoValue => NoValueStands();
    case Chars(s) => StrValue(s);
    case Whole(n) => WholeStands(n);
    case Fraction(x) => FractionStands(x);
    case Flag(b) => FlagStands(b);
    case Now(precise) => NowStands(precise);
    case PathHash(path) => HashStands(path);
    case Digest(hex) => DigestStands(hex);
  }

  // ---- Statements ----

  function Texts(gs: seq<Given>): seq<string> {
    seq(|gs|, i requires 0 <= i < |gs| => TextOf(gs[i]))
  }

  function AllTokens(gs: seq<Given>): seq<seq<Token>> {
    seq(|gs|, i requires 0 <= i < |gs| => TokensOf(gs[i]))
  }

  /** A statement built from such values is read as one value for each column, in order, and an update of
      every column that is not insert-only: whatever strings, numbers and paths they are. */
  lemma StatementReads(table: string, columns: seq<string>, gs: seq<Given>, insertOnly: set<string>)
    requires LowerName(table) && |columns| == |gs| && Kept(columns, insertOnly) != []
    requires forall i :: 0 <= i < |columns| ==> LowerName(columns[i])
    ensures var ts := Lex(InsertText(table, columns, Texts(gs), Updates(Kept(columns, insertOnly))));
            ts.Some? && ReadInsert(ts.value) == Some(Insert(table, columns, AllTokens(gs), Kept(columns, insertOnly)))
  {
    LowerNameIsPlain(table);
    forall i | 0 <= i < |columns|
      ensures Printable(Word(columns[i])) && Yields(Texts(gs)[i], AllTokens(gs)[i])
          && Upserts.Closed(AllTokens(gs)[i], 0)
    {
      LowerNameIsPlain(columns[i]);
      GivenStands(gs[i]);
      hide Yields, Upserts.Closed, TextOf, TokensOf, LowerName;
    }
    hide Yields, Upserts.Closed, TextOf, TokensOf, LowerName, Lex, ReadInsert, InsertText, Kept, Printable;
    UpsertReads(table, columns, Texts(gs), AllTokens(gs), insertOnly);
  }

  // ---- The statement for a file ----

  const FILE_COLUMNS := [
    "root_id", "rel_path", "rel_path_hash", "filename", "ext", "format", "bucket", "size_bytes", "mtime_utc", "inode",
    "status", "last_seen_utc", "last_indexed_utc", "first_seen_utc", "error"]

  datatype FileValues = FileValues(
    root: int, path: string, hashed: string, filename: string, ext: string, format: string, bucket: string,
    size: Option<int>, mtime: Option<string>, inode: Option<int>)

  function GivenText(s: Option<string>): Given {
    if s.Some? then Chars(s.value) else NoValue
  }

  function GivenWhole(n: Option<int>): Given {
    if n.Some? then Whole(n.value) else NoValue
  }

  function FileGiven(v: FileValues): seq<Given> {
    [Whole(v.root), Chars(v.path), PathHash(v.hashed), Chars(v.filename), if v.ext == "" then NoValue else Chars(v.ext),
     Chars(v.format), Chars(v.bucket), GivenWhole(v.size), GivenText(v.mtime), GivenWhole(v.inode),
     Chars("ok"), Now(true), Now(false), Now(true), NoValue]
  }

  /** The calls of store_file_once for the row of a file. */
  method FileStatement(v: FileValues) returns (text: string)
    ensures text == InsertText("files", FILE_COLUMNS, Texts(FileGiven(v)),
        Updates(Kept(FILE_COLUMNS, {"first_seen_utc"})))
  {
    hide InsertText, Kept, Updates, Escape;
    var f := new Upsert();
    GivePlace(f, v);
    GiveState(f, v);
    assert f.columns == FILE_COLUMNS;
    assert f.values == Texts(FileGiven(v));
    text := f.Build("files", {"first_seen_utc"});
  }

  /** Where the file is. */
  method GivePlace(f: Upsert, v: FileValues)
    modifies f
    ensures f.columns == old(f.columns) + FILE_COLUMNS[..7] && f.values == old(f.values) + Texts(FileGiven(v)[..7])
  {
    HashText(v.hashed);
    hide Quoted, IntText, Escape, TextOf;
    f.Num("root_id", Some(v.root));
    f.Str("rel_path", Some(v.path));
    f.Raw("rel_path_hash", "UNHEX(MD5('" + Escape(v.hashed) + "'))");
    f.Str("filename", Some(v.filename));
    f.Str("ext", if v.ext == "" then None else Some(v.ext));
    QuotedIs(v.format);
    QuotedIs(v.bucket);
    f.Raw("format", "'" + Escape(v.format) + "'");
    f.Raw("bucket", "'" + Escape(v.bucket) + "'");
    PlaceTexts(v);
    hide Texts, FileGiven;
  }

  lemma PlaceTexts(v: FileValues)
    ensures FILE_COLUMNS[..7] == ["root_id", "rel_path", "rel_path_hash", "filename", "ext", "format", "bucket"]
    ensures Texts(FileGiven(v)[..7]) ==
            [IntText(v.root), Quoted(v.path), TextOf(PathHash(v.hashed)), Quoted(v.filename),
             if v.ext == "" then "NULL" else Quoted(v.ext), Quoted(v.format), Quoted(v.bucket)]
  {
    hide Quoted, IntText, Escape;
  }

  lemma StateTexts(v: FileValues)
    ensures FILE_COLUMNS[7..] == ["size_bytes", "mtime_utc", "inode", "status", "last_seen_utc", "last_indexed_utc",
        "first_seen_utc", "error"]
    ensures Texts(FileGiven(v)[7..]) ==
            [if v.size.Some? then IntText(v.size.value) else "NULL", if v.mtime.Some? then Quoted(v.mtime.value)
                else "NULL",
             if v.inode.Some? then IntText(v.inode.value) else "NULL", Quoted("ok"),
             "UTC_TIMESTAMP(6)", "UTC_TIMESTAMP()", "UTC_TIMESTAMP(6)", "NULL"]
  {
    hide Quoted, IntText, Escape;
  }

  /** How the sweep found it. */
  method GiveState(f: Upsert, v: FileValues)
    modifies f
    ensures f.columns == old(f.columns) + FILE_COLUMNS[7..] && f.values == old(f.values) + Texts(FileGiven(v)[7..])
  {
    OkText();
    hide Quoted, IntText, Escape;
    f.Num("size_bytes", v.size);
    f.Str("mtime_utc", v.mtime);
    f.Num("inode", v.inode);
    f.Raw("status", "'ok'");
    f.Raw("last_seen_utc", "UTC_TIMESTAMP(6)");
    f.Raw("last_indexed_utc", "UTC_TIMESTAMP()");
    f.Raw("first_seen_utc", "UTC_TIMESTAMP(6)");
    f.Raw("error", "NULL");
    StateTexts(v);
    hide Texts, FileGiven;
  }

  lemma QuotedIs(s: string)
    ensures Quoted(s) == "'" + Escape(s) + "'"
  {
    hide Escape;
  }

  lemma HashText(path: string)
    ensures "UNHEX(MD5('" + Escape(path) + "'))" == TextOf(PathHash(path))
  {
    hide Escape;
    assert "UNHEX(" + "MD5(" + "'" == "UNHEX(MD5('" && "'" + "))" == "'))";
  }

  lemma OkText()
    ensures Quoted("ok") == "'ok'"
  {
    EscapeLetters("ok");
    hide Escape;
  }

  lemma FileColumnsNamed()
    ensures forall i :: 0 <= i < |FILE_COLUMNS| ==> LowerName(FILE_COLUMNS[i])
  {
  }

  lemma FileColumnsMatch(v: FileValues)
    ensures |FILE_COLUMNS| == |FileGiven(v)| && "error" in FILE_COLUMNS && LowerName("files")
  {
    hide Escape;
  }

  /** The row of a file is read as its fifteen values, and on a known path every column but
      first_seen_utc is updated. */
  lemma FileStatementReads(v: FileValues)
    ensures var kept := Kept(FILE_COLUMNS, {"first_seen_utc"});
            var ts := Lex(InsertText("files", FILE_COLUMNS, Texts(FileGiven(v)), Updates(kept)));
            && (forall c :: c in kept <==> c in FILE_COLUMNS && c != "first_seen_utc")
            && ts.Some? && ReadInsert(ts.value) == Some(Insert("files", FILE_COLUMNS, AllTokens(FileGiven(v)), kept))
  {
    hide *;
    FileColumnsNamed();
    FileColumnsMatch(v);
    KeptAmong(FILE_COLUMNS, {"first_seen_utc"});
    StatementReads("files", FILE_COLUMNS, FileGiven(v), {"first_seen_utc"});
  }

  // ---- The statement for a frame ----

  const FRAME_TARGET := [
    "file_id", "hdu", "fingerprint", "image_type", "object", "object_canonical", "ra_deg", "dec_deg", "date_obs_utc",
    "session_night", "exposure_s", "filter_raw"]

  const FRAME_GEAR := [
    "filter_defaulted", "instrume_raw", "telescope_raw", "focal_len_mm", "camera_id", "rig_id", "filter_id", "site_id",
    "gain", "offset_adu", "binx", "biny"]

  const FRAME_SKY := [
    "naxis1", "naxis2", "ccd_temp_c", "set_temp_c", "airmass", "sqm_mag_arcsec2", "sqm_sensor", "sqm_time_utc",
    "sqm_dt_s", "pier_side", "row_order", "quarantine_reason"]

  const FRAME_COLUMNS := FRAME_TARGET + FRAME_GEAR + FRAME_SKY

  lemma TargetColumnsNamed()
    ensures forall i :: 0 <= i < |FRAME_TARGET| ==> LowerName(FRAME_TARGET[i])
  {
  }

  lemma GearColumnsNamed()
    ensures forall i :: 0 <= i < |FRAME_GEAR| ==> LowerName(FRAME_GEAR[i])
  {
  }

  lemma SkyColumnsNamed()
    ensures forall i :: 0 <= i < |FRAME_SKY| ==> LowerName(FRAME_SKY[i])
  {
  }

  /** The row of a frame is read as its thirty-six values, and all columns are updated. */
  lemma FrameStatementReads(gs: seq<Given>)
    requires |gs| == |FRAME_COLUMNS|
    ensures var kept := Kept(FRAME_COLUMNS, {});
            var ts := Lex(InsertText("frames", FRAME_COLUMNS, Texts(gs), Updates(kept)));
            && (forall c :: c in kept <==> c in FRAME_COLUMNS)
            && ts.Some? && ReadInsert(ts.value) == Some(Insert("frames", FRAME_COLUMNS, AllTokens(gs), kept))
  {
    TargetColumnsNamed();
    GearColumnsNamed();
    SkyColumnsNamed();
    KeptAmong(FRAME_COLUMNS, {});
    assert FRAME_COLUMNS[0] in FRAME_COLUMNS;
    assert LowerName("frames");
    hide LowerName, Lex, ReadInsert, InsertText, Kept, Texts, AllTokens;
    StatementReads("frames", FRAME_COLUMNS, gs, {});
  }
}
