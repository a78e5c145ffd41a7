/** The filter compiler: from a filter in JSON to an SQL condition over v_frames. */
module Query {
  import opened Options
  import opened Decimal
  import opened Canon
  import opened SqlText
  import opened Numerals

  /** A JSON value. Numbers are exact; JSON has no infinities. */
  datatype Json =
    | JNull
    | JBool(b: bool)
    | JNum(d: real)
    | JStr(s: string)
    | JArr(items: seq<Json>)
    | JObj(members: map<string, Json>)

  /** QueryError is the compiler's own refusal, JsonError the JSON library's; a cone is not modelled. */
  datatype Result<+T> = Ok(value: T) | QueryError | JsonError | Cone

  datatype Kind = StringKind | NumberKind | DateKind

  const STRINGS := {
    "image_type", "object", "object_canonical", "filter", "rig", "camera", "site", "bucket", "file_status",
    "root_label",
    "pier_side", "row_order"}

  const DATES := {"session_night", "date_obs_utc"}

  const NUMBERS := {
    "exposure_s", "gain", "offset_adu", "binx", "biny", "ccd_temp_c", "set_temp_c", "airmass", "sqm_mag_arcsec2",
    "ra_deg", "dec_deg", "focus_pos", "rotator_deg", "guide_rms_arcsec", "naxis1", "naxis2"}

  /** The queryable columns and their kinds. */
  function FieldKind(field: string): Option<Kind> {
    if field in STRINGS then Some(StringKind)
    else if field in DATES then Some(DateKind)
    else if field in NUMBERS then Some(NumberKind)
    else None
  }

  /** The comparison operators a filter may name. */
  function BinOp(op: string): Option<Token> {
    match op
    case "eq" => Some(Sym("="))
    case "ne" => Some(Sym("<>"))
    case "lt" => Some(Sym("<"))
    case "lte" => Some(Sym("<="))
    case "gt" => Some(Sym(">"))
    case "gte" => Some(Sym(">="))
    case "like" => Some(Word("LIKE"))
    case _ => None
  }

  // ---- Text ----

  function Quoted(s: string): string {
    "'" + Escape(s) + "'"
  }

  function IntText(n: int): string {
    if n < 0 then "-" + ToDec(-n) else ToDec(n)
  }

  /** A number as an id: towards zero. */
  function Truncated(d: real): int {
    if d < 0.0 then -(-d).Floor else d.Floor
  }

  lemma TowardsZero(d: real)
    ensures var n := Truncated(d) as real; if d < 0.0 then n - 1.0 < d <= n else n <= d < n + 1.0
  {
  }

  function JoinText(separator: string, parts: seq<string>): string
    requires parts != []
  {
    if |parts| == 1 then parts[0] else parts[0] + separator + JoinText(separator, parts[1..])
  }

  function Compared(left: string, op: Token, right: string): string {
    left + " " + Print(op) + " " + right
  }

  function ExistsText(source: string, conditions: seq<string>): string
    requires conditions != []
  {
    "EXISTS (SELECT 1 FROM " + source + " WHERE " + JoinText(" AND ", conditions) + ")"
  }

  function SameFrame(alias: string): string {
    Compared(alias + "." + "frame_id", Sym("="), "v_frames.frame_id")
  }

  /** A link table joined with the table its rows link to. */
  function LinkSource(link: string, l: string, key: string, target: string, t: string): string {
    link + " " + l + " JOIN " + target + " " + t + " ON " + Compared(t + "." + "id", Sym("="), l + "." + key)
  }

  // ---- Literals ----

  /** One scalar, for a column of a kind; None is a QueryError. */
  function Literal(kind: Kind, v: Json): Option<string> {
    match v
    case JNum(d) => Some(if kind.NumberKind? then NumberText(d) else Quoted(SixDecimals(d)))
    case JStr(s) =>
      if !kind.NumberKind? then Some(Quoted(s))
      else if ReadNumeral(s).Some? then Some(s)
      else None
    case _ => None
  }

  function Literals(kind: Kind, vs: seq<Json>): (r: Option<seq<string>>)
    ensures r.Some? ==> |r.value| == |vs| && forall i :: 0 <= i < |vs| ==> Literal(kind, vs[i]) == Some(r.value[i])
  {
    if vs == [] then Some([]) else
    var first, rest := Literal(kind, vs[0]), Literals(kind, vs[1..]);
    if first.Some? && rest.Some? then Some([first.value] + rest.value) else None
  }

  // ---- Nodes ----

  type Node = map<string, Json>

  /** node.value("op", otherwise): an operator that is no string is an error of the library. */
  function OpOf(node: Node, otherwise: string): Option<string> {
    if "op" !in node then Some(otherwise) else if node["op"].JStr? then Some(node["op"].s) else None
  }

  const KEYWORD_PREFIX := "keyword:"

  /** keyword:KW, a condition on the header cards. */
  function CompileKeyword(kw: string, node: Node): Result<string> {
    if kw == "" then QueryError else
    var card := Compared("k.keyword", Sym("="), Quoted(kw));
    match OpOf(node, "eq")
    case None => JsonError
    case Some(op) =>
      if op == "isnull" then Ok("NOT " + ExistsText("frame_keywords k", [SameFrame("k"), card]))
      else if op == "notnull" then Ok(ExistsText("frame_keywords k", [SameFrame("k"), card]))
      else if BinOp(op).None? || "value" !in node then QueryError
      else
        var kind := if node["value"].JNum? then NumberKind else StringKind;
        var left := if node["value"].JNum? then "CAST(k.value AS DECIMAL(20,6))" else "k.value";
        match Literal(kind, node["value"])
        case Some(text) => Ok(ExistsText("frame_keywords k",
            [SameFrame("k"), card, Compared(left, BinOp(op).value, text)]))
        case None => QueryError
  }

  /** Membership through a link table: by the id in the link, or by the name of what it links to. */
  function CompileLink(link: string, l: string, key: string, target: string, t: string, node: Node): Result<string> {
    if "value" !in node then QueryError else
    var source := LinkSource(link, l, key, target, t);
    match node["value"]
    case JNum(d) => Ok(ExistsText(source, [SameFrame(l), Compared(l + "." + key, Sym("="), IntText(Truncated(d)))]))
    case JStr(s) => Ok(ExistsText(source, [SameFrame(l), Compared(t + "." + "name", Sym("="), Quoted(s))]))
    case _ => QueryError
  }

  function CompileTagged(node: Node, negate: bool): Result<string> {
    match CompileLink("frame_tags", "ft", "tag_id", "tags", "t", node)
    case Ok(text) => Ok(if negate then "NOT " + text else text)
    case _ => QueryError
  }

  function CompileInCollection(node: Node): Result<string> {
    CompileLink("collection_frames", "cf", "collection_id", "collections", "c", node)
  }

  /** One designation of an object, compared with the stored canonical name. */
  function DesignationText(like: bool, d: string): string {
    if like then Compared("object_canonical", Word("LIKE"), "'%" + Escape(d) + "%'")
    else Compared("object_canonical", Sym("="), Quoted(d))
  }

  function DesignationTexts(like: bool, ds: seq<string>): seq<string> {
    seq(|ds|, i requires 0 <= i < |ds| => DesignationText(like, ds[i]))
  }

  /** Object searches by = and LIKE go by catalogue designation. */
  predicate ByDesignation(field: string, op: string, node: Node) {
    field == "object" && (op == "eq" || op == "like") && "value" in node && node["value"].JStr?
  }

  function CompileComparison(node: Node): Result<string> {
    if "field" !in node then JsonError
    else if !node["field"].JStr? then QueryError
    else
      var field := node["field"].s;
      if KEYWORD_PREFIX <= field then CompileKeyword(field[|KEYWORD_PREFIX|..], node)
      else if FieldKind(field).None? then QueryError
      else
        match OpOf(node, "eq")
        case None => JsonError
        case Some(op) => CompileField(field, FieldKind(field).value, op, node)
  }

  function CompileField(field: string, kind: Kind, op: string, node: Node): Result<string> {
    if op == "isnull" then Ok(field + " IS NULL")
    else if op == "notnull" then Ok(field + " IS NOT NULL")
    else if ByDesignation(field, op, node) then
      Ok("(" + JoinText(" OR ", DesignationTexts(op == "like", Designations(node["value"].s))) + ")")
    else if op == "in" then
      if "value" !in node then JsonError
      else if !node["value"].JArr? || node["value"].items == [] then QueryError
      else
        match Literals(kind, node["value"].items)
        case Some(texts) => Ok(field + " IN (" + JoinText(", ", texts) + ")")
        case None => QueryError
    else if op == "between" then
      if "value" !in node then JsonError
      else if !node["value"].JArr? || |node["value"].items| != 2 then QueryError
      else
        match (Literal(kind, node["value"].items[0]), Literal(kind, node["value"].items[1]))
        case (Some(low), Some(high)) => Ok(field + " BETWEEN " + low + " AND " + high)
        case _ => QueryError
    else if BinOp(op).None? || "value" !in node then QueryError
    else
      match Literal(kind, node["value"])
      case Some(text) => Ok(Compared(field, BinOp(op).value, text))
      case None => QueryError
  }

  function CompileNode(node: Json): Result<string>
    decreases node
  {
    if !node.JObj? then QueryError else
    var m := node.members;
    match OpOf(m, "")
    case None => JsonError
    case Some(op) =>
      if op == "and" || op == "or" then
        if "clauses" !in m then JsonError
        else if !m["clauses"].JArr? || m["clauses"].items == [] then QueryError
        else
          match CompileAll(m["clauses"].items)
          case Ok(texts) => Ok("(" + JoinText(if op == "and" then " AND " else " OR ", texts) + ")")
          case QueryError => QueryError
          case JsonError => JsonError
          case Cone => Cone
      else if op == "not" then
        if "clauses" !in m then JsonError
        else if !m["clauses"].JArr? || |m["clauses"].items| != 1 then QueryError
        else
          match CompileNode(m["clauses"].items[0])
          case Ok(text) => Ok("NOT (" + text + ")")
          case QueryError => QueryError
          case JsonError => JsonError
          case Cone => Cone
      else if op == "cone" then Cone
      else if op == "tagged" || op == "untagged" then CompileTagged(m, op == "untagged")
      else if op == "in_collection" then CompileInCollection(m)
      else CompileComparison(m)
  }

  /** The clauses of a group, up to the first that does not compile. */
  function CompileAll(nodes: seq<Json>): (r: Result<seq<string>>)
    ensures r.Ok? ==> |r.value| == |nodes|
    decreases nodes
  {
    if nodes == [] then Ok([]) else
    match CompileNode(nodes[0])
    case Ok(text) =>
      (match CompileAll(nodes[1..])
       case Ok(texts) => Ok([text] + texts)
       case QueryError => QueryError
       case JsonError => JsonError
       case Cone => Cone)
    case QueryError => QueryError
    case JsonError => JsonError
    case Cone => Cone
  }

  /** No filter, and the empty one, let every row through. */
  function CompileFilter(ast: Json): Result<string> {
    if ast.JNull? || (ast.JObj? && ast.members == map[]) then Ok("1=1") else CompileNode(ast)
  }
}
