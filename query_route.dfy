/** The SQL statement compiler of the query endpoint: identifier quoting, the leaf-condition
    compiler, the recursive rule-group compiler, the statement assembler and the endpoint's
    missing-table guard. The primary table is always aliased `main`; the join at position N
    is aliased `jN`. */
module QueryRoute {
  import opened Text
  import opened Wrappers
  import opened QueryTypes
  import opened SqlLexer

  const MainAlias: string := "main"

  // ---------------------------------------------------------------- quoting

  /** `q(identifier)`: the identifier in double quotes with every `"` doubled. */
  function Q(identifier: string): string {
    QuotedToken(identifier, '"')
  }

  /** A SQL string literal as every value template writes it: single quotes around `x`
      with each single quote inside doubled. */
  function Literal(x: string): string {
    QuotedToken(x, '\'')
  }

  /** A quoted token is delimited by its quote, collapsing the doubled quotes of its inner
      part recovers the text, and the inner part holds no lone quote, so the token cannot
      end early. */
  lemma QuotedTokenRoundTrip(x: string, c: char)
    ensures var r := QuotedToken(x, c);
      |r| >= 2 && r[0] == c && r[|r| - 1] == c &&
      Undouble(r[1..|r| - 1], c) == x && PairedOnly(r[1..|r| - 1], c)
  {
    var r := QuotedToken(x, c);
    UndoubleDouble(x, c);
    assert r[1..|r| - 1] == Double(x, c);
  }

  /** `q` round trip: see `QuotedTokenRoundTrip`. */
  lemma QRoundTrip(identifier: string)
    ensures var r := Q(identifier);
      |r| >= 2 && r[0] == '"' && r[|r| - 1] == '"' &&
      Undouble(r[1..|r| - 1], '"') == identifier && PairedOnly(r[1..|r| - 1], '"')
  {
    QuotedTokenRoundTrip(identifier, '"');
  }

  lemma LiteralRoundTrip(x: string)
    ensures var r := Literal(x);
      |r| >= 2 && r[0] == '\'' && r[|r| - 1] == '\'' &&
      Undouble(r[1..|r| - 1], '\'') == x && PairedOnly(r[1..|r| - 1], '\'')
  {
    QuotedTokenRoundTrip(x, '\'');
  }

  // ---------------------------------------------------------------- field resolution

  /** The position of the first join whose target table is `tbl`, or -1. */
  function FindJoinIndex(joins: seq<JoinConfig>, tbl: string): (r: int)
    ensures -1 <= r < |joins|
    ensures r >= 0 ==> joins[r].targetTable == tbl
    ensures r >= 0 ==> forall k :: 0 <= k < r ==> joins[k].targetTable != tbl
    ensures r == -1 <==> forall k :: 0 <= k < |joins| ==> joins[k].targetTable != tbl
  {
    if joins == [] then -1
    else if joins[0].targetTable == tbl then 0
    else
      var k := FindJoinIndex(joins[1..], tbl);
      assert forall i :: 0 < i < |joins| ==> joins[i] == joins[1..][i - 1];
      if k == -1 then -1 else k + 1
  }

  /** The alias of join number `index`. */
  function JoinAlias(index: int): string {
    "j" + IntToString(index)
  }

  /** The alias a table name resolves to: `main` for the primary table, else `j` followed by
      the position of the first join whose target is that table, `j-1` when there is none. */
  function TableAlias(tbl: string, mainTable: string, joins: seq<JoinConfig>): string {
    if tbl == mainTable then MainAlias else JoinAlias(FindJoinIndex(joins, tbl))
  }

  /** The alias and column a rule's field refers to: a dotted field keeps only its first two
      segments, an undotted field is a column of the primary table. */
  function FieldParts(field: string, mainTable: string, joins: seq<JoinConfig>): (string, string) {
    if HasChar(field, '.') then
      var (tbl, col) := FirstTwoSegments(field, '.');
      (TableAlias(tbl, mainTable, joins), col)
    else (MainAlias, field)
  }

  // ---------------------------------------------------------------- values

  /** `isNumeric(val)`: not null, undefined or empty, and both `Number` and `parseFloat`
      accept it. Strings count when they are integer text; a one-element array is numeric
      when its element is, because `Number` and `String` read it as that element. */
  predicate IsNumeric(v: Value) {
    match v
    case VStr(s) => s != "" && IsIntText(s)
    case VNum(_) => true
    case VArr(items) => |items| == 1 && IsNumeric(items[0])
    case _ => false
  }

  /** `Number(val)` for a numeric value. */
  function NumberValue(v: Value): int
    requires IsNumeric(v)
  {
    match v
    case VStr(s) => ParseInt(s)
    case VNum(n) => n
    case VArr(items) => NumberValue(items[0])
  }

  /** `String(val)`; inside an array `null` and `undefined` print as nothing. */
  function JsString(v: Value): string
    decreases v
  {
    match v
    case VNull => "null"
    case VUndef => "undefined"
    case VStr(s) => s
    case VNum(n) => IntToString(n)
    case VBool(b) => if b then "true" else "false"
    case VArr(items) => ArrayString(items)
  }

  function ArrayString(items: seq<Value>): string
    decreases items
  {
    if items == [] then ""
    else
      var x := items[0];
      var first := if x.VNull? || x.VUndef? then "" else JsString(x);
      if |items| == 1 then first else first + "," + ArrayString(items[1..])
  }

  predicate IsTextOperator(op: string) {
    op == "contains" || op == "beginsWith" || op == "endsWith"
  }

  predicate IsComparison(op: string) {
    op == "<" || op == ">" || op == "<=" || op == ">="
  }

  /** `shouldNormalize`. */
  predicate ShouldNormalize(op: string, v: Value) {
    IsTextOperator(op) || (!IsNumeric(v) && op != "null" && op != "notNull")
  }

  /** `unaccent(lower(CAST(f AS TEXT)))`. */
  function NormalizedField(f: string): string {
    "unaccent(lower(CAST(" + f + " AS TEXT)))"
  }

  /** `escapeValue(val)`, where `normalize` is the rule's `shouldNormalize`. */
  function EscapeValue(v: Value, normalize: bool): string {
    if v.VNull? || v.VUndef? then "NULL"
    else if IsNumeric(v) then IntToString(NumberValue(v))
    else if v.VStr? then
      if normalize then "unaccent(lower(" + Literal(v.s) + "))" else Literal(v.s)
    else Literal(JsString(v))
  }

  function EscapeAll(items: seq<Value>, normalize: bool): (r: seq<string>)
    ensures |r| == |items|
    ensures forall i :: 0 <= i < |items| ==> r[i] == EscapeValue(items[i], normalize)
  {
    seq(|items|, i requires 0 <= i < |items| => EscapeValue(items[i], normalize))
  }

  // ---------------------------------------------------------------- leaf conditions

  /** `buildCondition(rule, "main", mainTable, joins)`. */
  function Condition(field: string, op: string, value: Value, mainTable: string, joins: seq<JoinConfig>): string {
    var (alias, col) := FieldParts(field, mainTable, joins);
    ConditionAt(alias, col, op, value)
  }

  /** The operator switch of `buildCondition`, on the field resolved to `alias."col"`. */
  function ConditionAt(alias: string, col: string, op: string, value: Value): string {
    var fieldRef := alias + "." + Q(col);
    var norm := ShouldNormalize(op, value);
    var normField := if norm then NormalizedField(fieldRef) else fieldRef;
    var text := JsString(value);
    if op == "=" then normField + " = " + EscapeValue(value, norm)
    else if op == "!=" then normField + " != " + EscapeValue(value, norm)
    else if IsComparison(op) then
      fieldRef + " " + op + " " + (if IsNumeric(value) then IntToString(NumberValue(value)) else Literal(JsString(value)))
    else if op == "contains" then NormalizedField(fieldRef) + " LIKE unaccent(lower(" + Literal("%" + text + "%") + "))"
    else if op == "beginsWith" then NormalizedField(fieldRef) + " LIKE unaccent(lower(" + Literal(text + "%") + "))"
    else if op == "endsWith" then NormalizedField(fieldRef) + " LIKE unaccent(lower(" + Literal("%" + text) + "))"
    else if op == "null" then fieldRef + " IS NULL"
    else if op == "notNull" then fieldRef + " IS NOT NULL"
    else if op == "in" then
      var list := if value.VArr? then JoinWith(EscapeAll(value.items, norm), ", ") else EscapeValue(value, norm);
      if norm then normField + " IN (" + list + ")" else fieldRef + " IN (" + list + ")"
    else normField + " = " + EscapeValue(value, norm)
  }

  /** The three LIKE patterns `'%${v}%'`, `'${v}%'` and `'%${v}'`, with the quotes of `v`
      doubled, are the literals of the value's text with `%` added. */
  lemma LikeLiterals(x: string)
    ensures Literal("%" + x + "%") == "'%" + Double(x, '\'') + "%'"
    ensures Literal(x + "%") == "'" + Double(x, '\'') + "%'"
    ensures Literal("%" + x) == "'%" + Double(x, '\'')+ "'"
  {
    assert Double("%", '\'') == "%";
    ContainsLiteral(x);
    PrefixLiteral(x);
    SuffixLiteral(x);
  }

  lemma ContainsLiteral(x: string)
    requires Double("%", '\'') == "%"
    ensures Literal("%" + x + "%") == "'%" + Double(x, '\'') + "%'"
  {
    DoubleAppend("%", x, '\'');
    DoubleAppend("%" + x, "%", '\'');
  }

  lemma PrefixLiteral(x: string)
    requires Double("%", '\'') == "%"
    ensures Literal(x + "%") == "'" + Double(x, '\'') + "%'"
  {
    DoubleAppend(x, "%", '\'');
  }

  lemma SuffixLiteral(x: string)
    requires Double("%", '\'') == "%"
    ensures Literal("%" + x) == "'%" + Double(x, '\'')+ "'"
  {
    DoubleAppend("%", x, '\'');
  }

  // ---------------------------------------------------------------- rule groups

  /** A leaf the group compiler does not skip. */
  predicate IsCompiledLeaf(m: Member) {
    m.Leaf? && m.field != "" && m.op != ""
  }

  /** What member `m` contributes to its group's list of parts. */
  function MemberPart(m: Member, mainTable: string, joins: seq<JoinConfig>): seq<string>
    decreases m
  {
    match m
    case Sub(h) =>
      var nested := Where(h, mainTable, joins);
      if Trim(nested) != "" then ["(" + nested + ")"] else []
    case Leaf(f, op, v) =>
      if f != "" && op != "" then [Condition(f, op, v, mainTable, joins)] else []
  }

  /** The parts the members contribute, in member order. */
  function Parts(ms: seq<Member>, mainTable: string, joins: seq<JoinConfig>): seq<string>
    decreases ms
  {
    if ms == [] then [] else Parts(ms[..|ms| - 1], mainTable, joins) + MemberPart(ms[|ms| - 1], mainTable, joins)
  }

  /** The separator of a group's parts: the combinator upper-cased, between spaces. */
  function Separator(combinator: string): string {
    " " + Upper(combinator) + " "
  }

  /** What `buildWhere(group, "main", mainTable, joins)` returns. */
  function Where(g: Group, mainTable: string, joins: seq<JoinConfig>): string
    decreases g
  {
    JoinWith(Parts(g.members, mainTable, joins), Separator(g.combinator))
  }

  /** `buildWhere`: compiles the members in order into `parts` and joins them. */
  method BuildWhere(g: Group, mainTable: string, joins: seq<JoinConfig>) returns (w: string)
    ensures w == Where(g, mainTable, joins)
    decreases g
  {
    var parts: seq<string> := [];
    for i := 0 to |g.members|
      invariant parts == Parts(g.members[..i], mainTable, joins)
    {
      var m := g.members[i];
      var part := BuildPart(m, mainTable, joins);
      assert Parts(g.members[..i + 1], mainTable, joins) == parts + part by {
        assert g.members[..i + 1][..i] == g.members[..i];
        assert g.members[..i + 1][i] == m;
      }
      parts := parts + part;
    }
    assert g.members[..|g.members|] == g.members;
    w := JoinWith(parts, Separator(g.combinator));
  }

  /** One pass of the loop of `buildWhere`: what member `m` pushes onto `parts`. */
  method BuildPart(m: Member, mainTable: string, joins: seq<JoinConfig>) returns (part: seq<string>)
    ensures part == MemberPart(m, mainTable, joins)
    decreases m
  {
    part := [];
    match m {
      case Sub(h) =>
        var nested := BuildWhere(h, mainTable, joins);
        if Trim(nested) != "" {
          part := ["(" + nested + ")"];
        }
      case Leaf(f, op, v) =>
        if f != "" && op != "" {
          part := [Condition(f, op, v, mainTable, joins)];
        }
    }
  }

  /** Some leaf in the tree has a field and an operator. */
  predicate HasValidLeaf(g: Group)
    decreases g
  {
    exists i :: 0 <= i < |g.members| && MemberHasValidLeaf(g.members[i])
  }

  predicate MemberHasValidLeaf(m: Member)
    decreases m
  {
    match m
    case Leaf(f, op, _) => f != "" && op != ""
    case Sub(h) => HasValidLeaf(h)
  }

  /** A condition on `alias."col"` starts with the alias or with `unaccent`. */
  lemma ConditionAtStart(alias: string, col: string, op: string, value: Value)
    requires alias != []
    ensures var c := ConditionAt(alias, col, op, value); c != [] && (c[0] == alias[0] || c[0] == 'u')
  {
    var f := alias + "." + Q(col);
    assert f[0] == alias[0];
    assert NormalizedField(f)[0] == 'u';
  }

  /** Every condition is non-empty and starts with its field reference, so never with
      whitespace. */
  lemma ConditionStart(field: string, op: string, value: Value, mainTable: string, joins: seq<JoinConfig>)
    ensures var c := Condition(field, op, value, mainTable, joins); c != [] && !IsWhitespace(c[0])
  {
    var (alias, col) := FieldParts(field, mainTable, joins);
    assert alias != [] && !IsWhitespace(alias[0]) by {
      if alias != MainAlias {
        assert alias == JoinAlias(FindJoinIndex(joins, FirstTwoSegments(field, '.').0));
      }
    }
    ConditionAtStart(alias, col, op, value);
  }

  lemma {:induction false} JoinWithEmpty(parts: seq<string>, sep: string)
    requires forall i :: 0 <= i < |parts| ==> parts[i] != []
    ensures JoinWith(parts, sep) == [] <==> parts == []
    ensures parts != [] ==> JoinWith(parts, sep)[0] == parts[0][0]
  {
  }

  /** `buildWhere` yields "" exactly when no leaf anywhere in the tree has a field and an
      operator; otherwise its result starts with a non-blank character, so the `trim()`
      tests of the compiler are emptiness tests. */
  lemma {:induction false} WhereEmptyIff(g: Group, mainTable: string, joins: seq<JoinConfig>)
    ensures Where(g, mainTable, joins) == "" <==> !HasValidLeaf(g)
    ensures Where(g, mainTable, joins) != "" ==> !IsWhitespace(Where(g, mainTable, joins)[0])
    ensures Trim(Where(g, mainTable, joins)) != "" <==> HasValidLeaf(g)
    decreases g, 2
  {
    var ps := Parts(g.members, mainTable, joins);
    PartsEmptyIff(g.members, mainTable, joins);
    JoinWithEmpty(ps, Separator(g.combinator));
    var w := Where(g, mainTable, joins);
    if w != "" {
      assert !IsBlank(w) by { assert !IsWhitespace(w[0]); }
    }
  }

  lemma {:induction false} PartsEmptyIff(ms: seq<Member>, mainTable: string, joins: seq<JoinConfig>)
    ensures Parts(ms, mainTable, joins) == [] <==> forall i :: 0 <= i < |ms| ==> !MemberHasValidLeaf(ms[i])
    ensures forall i :: 0 <= i < |Parts(ms, mainTable, joins)| ==>
      Parts(ms, mainTable, joins)[i] != [] && !IsWhitespace(Parts(ms, mainTable, joins)[i][0])
    decreases ms, 1
  {
    if ms != [] {
      var init := ms[..|ms| - 1];
      PartsEmptyIff(init, mainTable, joins);
      MemberPartEmptyIff(ms[|ms| - 1], mainTable, joins);
      assert forall i :: 0 <= i < |init| ==> init[i] == ms[i];
    }
  }

  lemma {:induction false} MemberPartEmptyIff(m: Member, mainTable: string, joins: seq<JoinConfig>)
    ensures MemberPart(m, mainTable, joins) == [] <==> !MemberHasValidLeaf(m)
    ensures forall i :: 0 <= i < |MemberPart(m, mainTable, joins)| ==>
      MemberPart(m, mainTable, joins)[i] != [] && !IsWhitespace(MemberPart(m, mainTable, joins)[i][0])
    decreases m, 0
  {
    match m
    case Sub(h) =>
      SubPartEmptyIff(h, mainTable, joins);
    case Leaf(f, op, v) =>
      LeafPartEmptyIff(f, op, v, mainTable, joins);
  }

  lemma {:induction false} SubPartEmptyIff(h: Group, mainTable: string, joins: seq<JoinConfig>)
    ensures MemberPart(Sub(h), mainTable, joins) == [] <==> !HasValidLeaf(h)
    ensures forall i :: 0 <= i < |MemberPart(Sub(h), mainTable, joins)| ==>
      MemberPart(Sub(h), mainTable, joins)[i] != [] && !IsWhitespace(MemberPart(Sub(h), mainTable, joins)[i][0])
    decreases h, 3
  {
    WhereEmptyIff(h, mainTable, joins);
    var nested := Where(h, mainTable, joins);
    var part := MemberPart(Sub(h), mainTable, joins);
    var nonBlank := Trim(nested) != "";
    assert part == if nonBlank then ["(" + nested + ")"] else [];
    if nonBlank {
      assert part[0][0] == '(';
    }
  }

  lemma LeafPartEmptyIff(f: string, op: string, v: Value, mainTable: string, joins: seq<JoinConfig>)
    ensures MemberPart(Leaf(f, op, v), mainTable, joins) == [] <==> !(f != "" && op != "")
    ensures forall i :: 0 <= i < |MemberPart(Leaf(f, op, v), mainTable, joins)| ==>
      MemberPart(Leaf(f, op, v), mainTable, joins)[i] != [] && !IsWhitespace(MemberPart(Leaf(f, op, v), mainTable, joins)[i][0])
  {
    ConditionStart(f, op, v, mainTable, joins);
    assert MemberPart(Leaf(f, op, v), mainTable, joins) ==
      if f != "" && op != "" then [Condition(f, op, v, mainTable, joins)] else [];
  }

  // ---------------------------------------------------------------- statements

  /** `alias.q(column) AS q(alias)` for one projected column. */
  function ProjectionItem(c: ColumnProjection, mainTable: string, joins: seq<JoinConfig>): string {
    TableAlias(c.table, mainTable, joins) + "." + Q(c.column) + " AS " + Q(c.alias)
  }

  function ProjectionItems(cols: seq<ColumnProjection>, mainTable: string, joins: seq<JoinConfig>): (r: seq<string>)
    ensures |r| == |cols|
    ensures forall i :: 0 <= i < |cols| ==> r[i] == ProjectionItem(cols[i], mainTable, joins)
  {
    seq(|cols|, i requires 0 <= i < |cols| => ProjectionItem(cols[i], mainTable, joins))
  }

  /** `, j0.*, j1.*, …` for the first `n` joins. */
  function JoinStars(n: nat): string {
    if n == 0 then "" else JoinStars(n - 1) + ", " + JoinAlias(n - 1) + ".*"
  }

  /** The projection list. */
  function Projection(mainTable: string, joins: seq<JoinConfig>, cols: seq<ColumnProjection>): string {
    if |cols| == 0 then MainAlias + ".*" + JoinStars(|joins|)
    else JoinWith(ProjectionItems(cols, mainTable, joins), ", ")
  }

  /** One JOIN clause; empty column names are emitted as `""` without complaint. */
  function JoinClause(j: JoinConfig, index: int): string {
    " " + j.joinType + " JOIN " + Q(j.targetTable) + " AS " + JoinAlias(index)
      + " ON " + MainAlias + "." + Q(j.sourceColumn) + " = " + JoinAlias(index) + "." + Q(j.targetColumn)
  }

  /** The JOIN clauses of `js`, numbered by position. */
  function JoinClauses(js: seq<JoinConfig>): string {
    if js == [] then "" else JoinClauses(js[..|js| - 1]) + JoinClause(js[|js| - 1], |js| - 1)
  }

  /** ` WHERE …` when the query has rules and compiles to a non-blank condition, else "". */
  function WhereClause(table: string, query: Option<Group>, joins: seq<JoinConfig>): string {
    if query.Some? && |query.value.members| > 0 then
      var w := Where(query.value, table, joins);
      if Trim(w) != "" then " WHERE " + w else ""
    else ""
  }

  /** ` FROM q(table) AS main`. */
  function FromClause(table: string): string {
    " FROM " + Q(table) + " AS " + MainAlias
  }

  /** The statement `buildSQL(table, query, joins, selectedColumns)` returns. */
  function Sql(table: string, query: Option<Group>, joins: seq<JoinConfig>, cols: seq<ColumnProjection>): string {
    "SELECT " + Projection(table, joins, cols) + FromClause(table) + JoinClauses(joins)
      + WhereClause(table, query, joins)
  }

  /** The projection part of `buildSQL`: `main.*` and one `jN.*` per join when no column
      is selected, else the selected columns joined by commas. */
  method BuildProjection(table: string, joins: seq<JoinConfig>, cols: seq<ColumnProjection>)
    returns (p: string)
    ensures p == Projection(table, joins, cols)
  {
    if |cols| == 0 {
      p := MainAlias + ".*";
      for index := 0 to |joins|
        invariant p == MainAlias + ".*" + JoinStars(index)
      {
        p := p + ", " + JoinAlias(index) + ".*";
      }
    } else {
      p := JoinWith(ProjectionItems(cols, table, joins), ", ");
    }
  }

  /** The JOIN part of `buildSQL`: one clause per join, in order. */
  method BuildJoins(joins: seq<JoinConfig>) returns (s: string)
    ensures s == JoinClauses(joins)
  {
    s := "";
    for index := 0 to |joins|
      invariant s == JoinClauses(joins[..index])
    {
      assert joins[..index + 1][..index] == joins[..index];
      s := s + JoinClause(joins[index], index);
    }
    assert joins[..|joins|] == joins;
  }

  /** `buildSQL`: grows the statement clause by clause. */
  method BuildSql(table: string, query: Option<Group>, joins: seq<JoinConfig>, cols: seq<ColumnProjection>)
    returns (sql: string)
    ensures sql == Sql(table, query, joins, cols)
  {
    var projection := BuildProjection(table, joins, cols);
    var joinText := BuildJoins(joins);
    sql := "SELECT " + projection + FromClause(table) + joinText;
    if query.Some? && |query.value.members| > 0 {
      var where := BuildWhere(query.value, table, joins);
      if Trim(where) != "" {
        sql := sql + " WHERE " + where;
      }
    }
  }

  /** The endpoint's answer before the statement is sent to the database: an error for a
      missing table name, else the compiled statement. */
  method HandleQuery(table: string, query: Option<Group>, joins: seq<JoinConfig>, cols: seq<ColumnProjection>)
    returns (r: Result<string, string>)
    ensures table == "" ==> r == Failure("Table name is required")
    ensures table != "" ==> r == Success(Sql(table, query, joins, cols))
  {
    if table == "" {
      return Failure("Table name is required");
    }
    var sql := BuildSql(table, query, joins, cols);
    return Success(sql);
  }
}
