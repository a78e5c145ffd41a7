/** Which filters compile. */
module FilterAccepted {
  import opened Options
  import opened Numerals
  import opened Query
  import opened FilterAnswers

  /** One value a column of a kind can be compared with. */
  predicate Scalar(kind: Kind, v: Json) {
    v.JNum? || (v.JStr? && (kind == NumberKind ==> ReadNumeral(v.s).Some?))
  }

  predicate Scalars(kind: Kind, vs: seq<Json>) {
    forall i :: 0 <= i < |vs| ==> Scalar(kind, vs[i])
  }

  /** keyword:KW with a keyword, and isnull, notnull, or an operator and a value. */
  predicate CardAccepted(kw: string, op: string, node: Node) {
    kw != "" && (op in ["isnull", "notnull"]
                 || (op in OPERATORS && "value" in node && (node["value"].JNum? || node["value"].JStr?)))
  }

  predicate ColumnAccepted(field: string, kind: Kind, op: string, node: Node) {
    || op in ["isnull", "notnull"]
    || ("value" in node &&
        var v := node["value"];
        || (op in OPERATORS && Scalar(kind, v))
        || (op == "in" && v.JArr? && |v.items| > 0 && Scalars(kind, v.items))
        || (op == "between" && v.JArr? && |v.items| == 2 && Scalars(kind, v.items)))
  }

  /** A comparison names a keyword or a known column; without an operator it asks for equality. */
  predicate ComparisonAccepted(node: Node) {
    && "field" in node && node["field"].JStr?
    && var field, op := node["field"].s, if "op" in node && node["op"].JStr? then node["op"].s else "eq";
       if "keyword:" <= field then CardAccepted(field[8..], op, node)
       else FieldKind(field).Some? && ColumnAccepted(field, FieldKind(field).value, op, node)
  }

  /** A clause is an object; a group has a non-empty list of clauses, a negation a list of one. */
  predicate Accepted(node: Json)
    decreases node
  {
    && node.JObj?
    && var m := node.members;
       && ("op" in m ==> m["op"].JStr?)
       && var op := if "op" in m then m["op"].s else "";
          if op in ["and", "or"] then
            "clauses" in m && m["clauses"].JArr? && |m["clauses"].items| > 0 && AllAccepted(m["clauses"].items)
          else if op == "not" then
            "clauses" in m && m["clauses"].JArr? && |m["clauses"].items| == 1 && AllAccepted(m["clauses"].items)
          else if op in ["tagged", "untagged", "in_collection"] then
            "value" in m && (m["value"].JNum? || m["value"].JStr?)
          else op != "cone" && ComparisonAccepted(m)
  }

  predicate AllAccepted(nodes: seq<Json>)
    decreases nodes
  {
    nodes == [] || (Accepted(nodes[0]) && AllAccepted(nodes[1..]))
  }

  lemma LiteralAccepted(kind: Kind, v: Json)
    ensures Literal(kind, v).Some? <==> Scalar(kind, v)
  {
    hide ReadNumeral, NumberText, SixDecimals, Quoted;
  }

  lemma {:induction false} LiteralsAccepted(kind: Kind, vs: seq<Json>)
    ensures Literals(kind, vs).Some? <==> Scalars(kind, vs)
  {
    hide Literal, Scalar;
    if vs != [] {
      LiteralAccepted(kind, vs[0]);
      LiteralsAccepted(kind, vs[1..]);
      assert forall i :: 1 <= i < |vs| ==> vs[i] == vs[1..][i - 1];
    }
  }

  lemma OperatorKnown(op: string)
    ensures BinOp(op).Some? <==> op in OPERATORS
  {
  }

  lemma KeywordAccepted(kw: string, node: Node)
    requires "op" in node ==> node["op"].JStr?
    ensures CompileKeyword(kw, node).Ok? <==> CardAccepted(kw, if "op" in node then node["op"].s else "eq", node)
  {
    var op := if "op" in node then node["op"].s else "eq";
    OperatorKnown(op);
    if "value" in node {
      LiteralAccepted(if node["value"].JNum? then NumberKind else StringKind, node["value"]);
    }
    hide Literal, ExistsText, Compared, BinOp, Quoted, SameFrame, OPERATORS;
  }

  lemma FieldAccepted(field: string, kind: Kind, op: string, node: Node)
    requires field == "object" ==> kind == StringKind
    ensures CompileField(field, kind, op, node).Ok? <==> ColumnAccepted(field, kind, op, node)
  {
    OperatorKnown(op);
    if "value" in node {
      var v := node["value"];
      LiteralAccepted(kind, v);
      if v.JArr? {
        LiteralsAccepted(kind, v.items);
        if |v.items| == 2 {
          LiteralAccepted(kind, v.items[0]);
          LiteralAccepted(kind, v.items[1]);
        }
      }
    }
    OperatorsAre(op);
    hide Literal, Literals, Compared, BinOp, JoinText, DesignationTexts, OPERATORS;
  }

  lemma OperatorsAre(op: string)
    ensures op in ["isnull", "notnull", "in", "between"] ==> op !in OPERATORS
    ensures op in ["eq", "like"] ==> op in OPERATORS
  {
  }

  lemma ComparisonCompiles(node: Node)
    requires "op" in node ==> node["op"].JStr?
    ensures CompileComparison(node).Ok? <==> ComparisonAccepted(node)
  {
    ObjectKind();
    if "field" in node && node["field"].JStr? {
      var field, op := node["field"].s, if "op" in node then node["op"].s else "eq";
      if KEYWORD_PREFIX <= field {
        KeywordAccepted(field[8..], node);
      } else if FieldKind(field).Some? {
        FieldAccepted(field, FieldKind(field).value, op, node);
      }
    }
    hide CompileKeyword, CompileField, FieldKind, CardAccepted, ColumnAccepted;
  }

  lemma ObjectKind()
    ensures FieldKind("object") == Some(StringKind) && |KEYWORD_PREFIX| == 8
  {
  }

  lemma LinkAccepted(node: Node, negate: bool)
    ensures CompileTagged(node, negate).Ok? <==> "value" in node && (node["value"].JNum? || node["value"].JStr?)
    ensures CompileInCollection(node).Ok? <==> "value" in node && (node["value"].JNum? || node["value"].JStr?)
  {
    hide ExistsText, LinkSource, Compared, SameFrame, Quoted, IntText;
  }

  /** A clause compiles exactly when it is accepted. */
  lemma {:induction false} NodeCompiles(node: Json)
    ensures CompileNode(node).Ok? <==> Accepted(node)
    decreases node, 1
  {
    hide CompileTagged, CompileInCollection, CompileComparison, ComparisonAccepted, JoinText;
    if node.JObj? && ("op" in node.members ==> node.members["op"].JStr?) {
      var m := node.members;
      ComparisonCompiles(m);
      LinkAccepted(m, true);
      LinkAccepted(m, false);
      if "clauses" in m && m["clauses"].JArr? {
        NodesCompile(m["clauses"].items);
        if |m["clauses"].items| == 1 {
          NodeCompiles(m["clauses"].items[0]);
        }
      }
    }
  }

  lemma {:induction false} NodesCompile(nodes: seq<Json>)
    ensures CompileAll(nodes).Ok? <==> AllAccepted(nodes)
    decreases nodes, 0
  {
    hide CompileNode, Accepted;
    if nodes != [] {
      NodeCompiles(nodes[0]);
      NodesCompile(nodes[1..]);
    }
  }

  /** And a filter when it is none, or empty, or an accepted clause. */
  lemma FilterCompiles(ast: Json)
    ensures CompileFilter(ast).Ok? <==> ast.JNull? || (ast.JObj? && ast.members == map[]) || Accepted(ast)
  {
    NodeCompiles(ast);
    hide CompileNode, Accepted;
  }
}
