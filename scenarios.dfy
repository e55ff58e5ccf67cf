/** The compiler on the two request shapes its documentation walks through, and the
    empty-group law. */
module Scenarios {
  import opened Text
  import opened Wrappers
  import opened QueryTypes
  import opened QueryRoute

  /** A group with no members compiles to no WHERE clause: the statement is the one
      compiled without a query. */
  lemma EmptyGroupLaw(table: string, combinator: string, joins: seq<JoinConfig>, cols: seq<ColumnProjection>)
    ensures Where(Group(combinator, []), table, joins) == ""
    ensures Sql(table, Some(Group(combinator, [])), joins, cols) == Sql(table, None, joins, cols)
  {
  }

  /** ` WHERE …` is appended exactly when the query is present and some leaf in it has a
      field and an operator, and then it carries the compiled condition. */
  lemma WhereClauseIff(table: string, query: Option<Group>, joins: seq<JoinConfig>)
    ensures WhereClause(table, query, joins) != "" <==> query.Some? && HasValidLeaf(query.value)
    ensures WhereClause(table, query, joins) != "" ==>
      WhereClause(table, query, joins) == " WHERE " + Where(query.value, table, joins)
  {
    if query.Some? {
      WhereEmptyIff(query.value, table, joins);
    }
  }

  lemma SingleRuleWhere(table: string, comb: string, field: string, op: string, v: Value, joins: seq<JoinConfig>)
    requires field != "" && op != ""
    ensures Where(Group(comb, [Leaf(field, op, v)]), table, joins) == Condition(field, op, v, table, joins)
    ensures HasValidLeaf(Group(comb, [Leaf(field, op, v)]))
  {
    var ms := [Leaf(field, op, v)];
    var c := Condition(field, op, v, table, joins);
    assert ms[..0] == [];
    assert MemberPart(ms[0], table, joins) == [c];
    assert Parts(ms, table, joins) == Parts(ms[..0], table, joins) + [c];
    assert Parts(ms, table, joins) == [c];
    assert MemberHasValidLeaf(ms[0]);
  }

  /** A query with one rule that has a field and an operator. */
  lemma SingleRuleSql(table: string, comb: string, field: string, op: string, v: Value,
                      joins: seq<JoinConfig>, cols: seq<ColumnProjection>)
    requires field != "" && op != ""
    ensures Sql(table, Some(Group(comb, [Leaf(field, op, v)])), joins, cols)
      == "SELECT " + Projection(table, joins, cols) + FromClause(table) + JoinClauses(joins)
         + " WHERE " + Condition(field, op, v, table, joins)
  {
    var g := Group(comb, [Leaf(field, op, v)]);
    SingleRuleWhere(table, comb, field, op, v, joins);
    WhereClauseIff(table, Some(g), joins);
  }

  lemma EmailField()
    ensures FieldParts("email", "users", []) == (MainAlias, "email")
  {
    assert !HasChar("email", '.');
  }

  /** Without joins or selected columns the projection is `main.*` and there is no JOIN. */
  lemma PlainSql(table: string, query: Option<Group>)
    ensures Sql(table, query, [], []) == "SELECT " + "main.*" + FromClause(table) + WhereClause(table, query, [])
  {
    assert JoinStars(0) == "";
    assert MainAlias + ".*" + "" == "main.*";
  }

  /** `contains` on a text value that is not integer text wraps it in `%…%`. */
  lemma ContainsCondition(alias: string, col: string, s: string)
    requires !IsNumeric(VStr(s))
    ensures ConditionAt(alias, col, "contains", VStr(s))
      == NormalizedField(alias + "." + Q(col)) + " LIKE unaccent(lower(" + Literal("%" + s + "%") + "))"
  {
    assert "contains" != "=" && "contains" != "!=" && !IsComparison("contains");
  }

  lemma Regroup(p: string, w: string, a: string, b: string, c: string, d: string)
    ensures p + (w + (a + b + c + d)) == p + w + a + b + c + d
  {
  }

  lemma RegroupThree(p: string, w: string, a: string, b: string, c: string)
    ensures p + (w + (a + b + c)) == p + w + a + b + c
  {
  }

  /** Table `users`, no joins, one rule `email contains "@example.com"`. */
  lemma EmailContainsScenario()
    ensures Sql("users", Some(Group("and", [Leaf("email", "contains", VStr("@example.com"))])), [], [])
      == "SELECT " + "main.*" + FromClause("users") + " WHERE "
         + NormalizedField(MainAlias + "." + Q("email")) + " LIKE unaccent(lower(" + Literal("%" + "@example.com" + "%") + "))"
  {
    var g := Group("and", [Leaf("email", "contains", VStr("@example.com"))]);
    PlainSql("users", Some(g));
    SingleRuleWhere("users", "and", "email", "contains", VStr("@example.com"), []);
    WhereClauseIff("users", Some(g), []);
    EmailField();
    assert !IsIntText("@example.com");
    ContainsCondition(MainAlias, "email", "@example.com");
    var c := ConditionAt(MainAlias, "email", "contains", VStr("@example.com"));
    assert Condition("email", "contains", VStr("@example.com"), "users", []) == c;
    assert WhereClause("users", Some(g), []) == " WHERE " + c;
    var pre := "SELECT " + "main.*" + FromClause("users");
    assert Sql("users", Some(g), [], []) == pre + (" WHERE " + c);
    Regroup(pre, " WHERE ", NormalizedField(MainAlias + "." + Q("email")), " LIKE unaccent(lower(",
            Literal("%" + "@example.com" + "%"), "))");
  }

  /** A field `t.c` with undotted `t` and `c` names column `c` of the table `t` resolves to. */
  lemma DottedFieldParts(t: string, c: string, mainTable: string, joins: seq<JoinConfig>)
    requires !HasChar(t, '.') && !HasChar(c, '.')
    ensures FieldParts(t + ['.'] + c, mainTable, joins) == (TableAlias(t, mainTable, joins), c)
  {
    var f := t + ['.'] + c;
    assert f[|t|] == '.';
    FirstTwoSegmentsOfJoined(t, c, [], '.');
  }

  /** The target of the first join, when it is not the primary table, is `j0`. */
  lemma FirstJoinAlias(t: string, mainTable: string, joins: seq<JoinConfig>)
    requires joins != [] && joins[0].targetTable == t && t != mainTable
    ensures TableAlias(t, mainTable, joins) == "j0"
  {
    assert IntToString(0) == "0";
  }

  lemma OrdersField(joins: seq<JoinConfig>)
    requires joins == [JoinConfig("LEFT", "orders", "id", "user_id")]
    ensures FieldParts("orders.status", "users", joins) == ("j0", "status")
  {
    assert "orders.status" == "orders" + ['.'] + "status";
    assert !HasChar("orders", '.') && !HasChar("status", '.');
    DottedFieldParts("orders", "status", "users", joins);
    assert "orders" != "users" by {
      assert |"orders"| != |"users"|;
    }
    FirstJoinAlias("orders", "users", joins);
  }

  /** `=` on a text value that is not integer text compares normalised forms. */
  lemma EqualsTextCondition(alias: string, col: string, s: string)
    requires s != "" && !IsIntText(s)
    ensures ConditionAt(alias, col, "=", VStr(s))
      == NormalizedField(alias + "." + Q(col)) + " = " + ("unaccent(lower(" + Literal(s) + "))")
  {
    assert !IsNumeric(VStr(s));
    assert "=" != "null" && "=" != "notNull";
  }

  /** With one join and no selected columns the projection adds `j0.*` and the statement
      carries that join's clause. */
  lemma OneJoinSql(table: string, query: Option<Group>, j: JoinConfig)
    ensures Sql(table, query, [j], [])
      == "SELECT " + (MainAlias + ".*" + ", " + "j0" + ".*") + FromClause(table)
         + (" " + j.joinType + " JOIN " + Q(j.targetTable) + " AS " + "j0"
            + " ON " + MainAlias + "." + Q(j.sourceColumn) + " = " + "j0" + "." + Q(j.targetColumn))
         + WhereClause(table, query, [j])
  {
    assert JoinAlias(0) == "j0" by {
      assert IntToString(0) == "0";
    }
    assert JoinStars(0) == "";
    assert JoinStars(1) == ", " + "j0" + ".*";
    assert Projection(table, [j], []) == MainAlias + ".*" + ", " + "j0" + ".*";
    assert [j][..0] == [];
    assert JoinClauses([j]) == JoinClause(j, 0);
  }

  /** A rule's condition is the condition on the alias and column its field resolves to. */
  lemma ConditionOfParts(field: string, op: string, v: Value, table: string, joins: seq<JoinConfig>,
                         alias: string, col: string)
    requires FieldParts(field, table, joins) == (alias, col)
    ensures Condition(field, op, v, table, joins) == ConditionAt(alias, col, op, v)
  {
  }

  lemma ShippedCondition(j: JoinConfig)
    requires j == JoinConfig("LEFT", "orders", "id", "user_id")
    ensures Condition("orders.status", "=", VStr("shipped"), "users", [j])
      == NormalizedField("j0" + "." + Q("status")) + " = " + ("unaccent(lower(" + Literal("shipped") + "))")
  {
    OrdersField([j]);
    ConditionOfParts("orders.status", "=", VStr("shipped"), "users", [j], "j0", "status");
    ShippedIsText();
    EqualsTextCondition("j0", "status", "shipped");
  }

  lemma ShippedIsText()
    ensures "shipped" != "" && !IsIntText("shipped")
  {
    assert "shipped"[0] == 's';
  }

  lemma JoinScenarioWhere(j: JoinConfig, g: Group)
    requires j == JoinConfig("LEFT", "orders", "id", "user_id")
    requires g == Group("and", [Leaf("orders.status", "=", VStr("shipped"))])
    ensures WhereClause("users", Some(g), [j])
      == " WHERE " + (NormalizedField("j0" + "." + Q("status")) + " = " + ("unaccent(lower(" + Literal("shipped") + "))"))
  {
    SingleRuleWhere("users", "and", "orders.status", "=", VStr("shipped"), [j]);
    WhereClauseIff("users", Some(g), [j]);
    ShippedCondition(j);
  }

  /** Table `users` with a LEFT join of `orders` on `id = user_id`, one rule
      `orders.status = "shipped"`. */
  lemma JoinScenario()
    ensures var joins := [JoinConfig("LEFT", "orders", "id", "user_id")];
      Sql("users", Some(Group("and", [Leaf("orders.status", "=", VStr("shipped"))])), joins, [])
      == "SELECT " + (MainAlias + ".*" + ", " + "j0" + ".*") + FromClause("users")
         + (" " + "LEFT" + " JOIN " + Q("orders") + " AS " + "j0"
            + " ON " + MainAlias + "." + Q("id") + " = " + "j0" + "." + Q("user_id"))
         + " WHERE " + NormalizedField("j0" + "." + Q("status")) + " = " + ("unaccent(lower(" + Literal("shipped") + "))")
  {
    var j := JoinConfig("LEFT", "orders", "id", "user_id");
    var g := Group("and", [Leaf("orders.status", "=", VStr("shipped"))]);
    OneJoinSql("users", Some(g), j);
    JoinScenarioWhere(j, g);
    var pre := "SELECT " + (MainAlias + ".*" + ", " + "j0" + ".*") + FromClause("users")
      + (" " + "LEFT" + " JOIN " + Q("orders") + " AS " + "j0"
         + " ON " + MainAlias + "." + Q("id") + " = " + "j0" + "." + Q("user_id"));
    RegroupThree(pre, " WHERE ", NormalizedField("j0" + "." + Q("status")), " = ",
                 "unaccent(lower(" + Literal("shipped") + "))");
  }
}
