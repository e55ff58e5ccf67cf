/** Injection safety of whole rule groups and statements: provided every combinator and
    every join type is quote-free (the two strings the compiler interpolates unquoted),
    the compiled WHERE condition and the compiled statement scan to closed tokens only. */
module StatementSafety {
  import opened Text
  import opened Wrappers
  import opened QueryTypes
  import opened SqlLexer
  import opened QueryRoute
  import opened Injection

  lemma UpperQuoteFree(s: string)
    requires QuoteFree(s)
    ensures QuoteFree(Upper(s))
  {
  }

  /** Every combinator in the tree is quote-free. */
  predicate CombinatorsQuoteFree(g: Group)
    decreases g
  {
    QuoteFree(g.combinator) &&
    forall i :: 0 <= i < |g.members| ==> MemberCombinatorsQuoteFree(g.members[i])
  }

  predicate MemberCombinatorsQuoteFree(m: Member)
    decreases m
  {
    m.Sub? ==> CombinatorsQuoteFree(m.group)
  }

  /** `parts.join(sep)` on fragment sequences. */
  function JoinFrags(ps: seq<seq<Fragment>>, sep: string): (r: seq<Fragment>)
    ensures Render(r) == JoinWith(RenderAll(ps), sep)
    ensures (forall i :: 0 <= i < |ps| ==> Separated(ps[i])) && QuoteFree(sep) && sep != [] ==> Separated(r)
  {
    if ps == [] then []
    else if |ps| == 1 then ps[0]
    else
      assert RenderAll(ps)[1..] == RenderAll(ps[1..]);
      Cat(SuffixFrags(ps[0], sep), JoinFrags(ps[1..], sep))
  }

  function RenderAll(ps: seq<seq<Fragment>>): (r: seq<string>)
    ensures |r| == |ps|
    ensures forall i :: 0 <= i < |ps| ==> r[i] == Render(ps[i])
  {
    seq(|ps|, i requires 0 <= i < |ps| => Render(ps[i]))
  }

  /** The fragments of `buildWhere(g, …)`. */
  function WhereFrags(g: Group, mainTable: string, joins: seq<JoinConfig>): (r: seq<Fragment>)
    ensures Render(r) == Where(g, mainTable, joins)
    ensures CombinatorsQuoteFree(g) ==> Separated(r)
    decreases g, 2
  {
    var ps := PartFrags(g.members, mainTable, joins);
    var sep := Separator(g.combinator);
    if QuoteFree(g.combinator) then
      UpperQuoteFree(g.combinator);
      QuoteFreeCat(" ", Upper(g.combinator));
      QuoteFreeCat(" " + Upper(g.combinator), " ");
      JoinFrags(ps, sep)
    else
      JoinFrags(ps, sep)
  }

  /** The fragments of the parts the members contribute. */
  function PartFrags(ms: seq<Member>, mainTable: string, joins: seq<JoinConfig>): (r: seq<seq<Fragment>>)
    ensures RenderAll(r) == Parts(ms, mainTable, joins)
    ensures (forall i :: 0 <= i < |ms| ==> MemberCombinatorsQuoteFree(ms[i])) ==>
      forall i :: 0 <= i < |r| ==> Separated(r[i])
    decreases ms, 1
  {
    if ms == [] then []
    else
      var init := PartFrags(ms[..|ms| - 1], mainTable, joins);
      var last := MemberFrags(ms[|ms| - 1], mainTable, joins);
      assert RenderAll(init + last) == RenderAll(init) + RenderAll(last);
      init + last
  }

  /** The fragments of what member `m` contributes: none, or one part. */
  function MemberFrags(m: Member, mainTable: string, joins: seq<JoinConfig>): (r: seq<seq<Fragment>>)
    ensures RenderAll(r) == MemberPart(m, mainTable, joins)
    ensures MemberCombinatorsQuoteFree(m) ==> forall i :: 0 <= i < |r| ==> Separated(r[i])
    decreases m, 0
  {
    match m
    case Sub(h) =>
      var nested := Where(h, mainTable, joins);
      if Trim(nested) != "" then
        TemplateQuoteFree();
        [SuffixFrags(Cat(RawF("("), WhereFrags(h, mainTable, joins)), ")")]
      else []
    case Leaf(f, op, v) =>
      if f != "" && op != "" then [ConditionFrags(f, op, v, mainTable, joins)] else []
  }

  /** The compiled condition of a tree whose combinators are quote-free scans to closed
      tokens, whatever its column names and values hold. */
  lemma WhereSkeleton(g: Group, mainTable: string, joins: seq<JoinConfig>)
    requires CombinatorsQuoteFree(g)
    ensures Skeleton(Where(g, mainTable, joins)) == Some(Shape(WhereFrags(g, mainTable, joins)))
  {
    SkeletonOfSeparated(WhereFrags(g, mainTable, joins));
  }

  /** Inside a token opened by `q`, text without `q` never closes it. */
  lemma {:induction false} ScanInToken(s: string, q: char)
    requires !HasChar(s, q)
    ensures Scan(s, Quoted(q)) == ([], Quoted(q))
  {
    if s != [] {
      assert !HasChar(s[1..], q) by {
        assert forall i :: 0 <= i < |s[1..]| ==> s[1..][i] == s[i + 1];
      }
      ScanInToken(s[1..], q);
      assert s[0] != q;
      var e: string := [];
      assert Step(s[0], Quoted(q)) == (e, Quoted(q));
      assert e + e == e;
    }
  }

  /** The scanner only ever closes a token on a quote character. */
  lemma {:induction false} ScanClosesOnQuote(s: string, m: Mode)
    requires m.Code? || IsQuote(m.q)
    ensures var m2 := Scan(s, m).1; m2.Code? || IsQuote(m2.q)
  {
    if s != [] {
      ScanClosesOnQuote(s[1..], Step(s[0], m).1);
    }
  }

  /** From outside a token, ` ' ` opens one. */
  lemma OpenQuote(m: Mode)
    requires m.Code? || (m.Closed? && IsQuote(m.q))
    ensures Scan(" ' ", m).1 == Quoted('\'')
  {
    var s := " ' ";
    assert s[1..] == "' " && s[1..][1..] == " " && s[1..][1..][1..] == [];
    assert Step(' ', m).1 == Code;
    assert Step('\'', Code).1 == Quoted('\'');
    assert Scan(" ", Quoted('\'')).1 == Quoted('\'');
    assert Scan("' ", Code).1 == Quoted('\'');
  }

  /** The two-rule group the counterexample uses, compiled. */
  lemma TwoRuleWhere(comb: string, mainTable: string, joins: seq<JoinConfig>)
    ensures Where(Group(comb, [Leaf("a", "null", VNull), Leaf("b", "null", VNull)]), mainTable, joins)
      == Condition("a", "null", VNull, mainTable, joins) + Separator(comb) + Condition("b", "null", VNull, mainTable, joins)
  {
    var ms := [Leaf("a", "null", VNull), Leaf("b", "null", VNull)];
    var c1 := Condition("a", "null", VNull, mainTable, joins);
    var c2 := Condition("b", "null", VNull, mainTable, joins);
    assert ms[..1] == [Leaf("a", "null", VNull)];
    assert ms[..1][..0] == [];
    assert Parts(ms[..1], mainTable, joins) == [c1];
    assert Parts(ms, mainTable, joins) == [c1, c2];
    assert [c1, c2][1..] == [c2];
  }

  /** Text that leaves the scanner outside a token, then ` ' `, then text without `'`:
      the token opened by the quote is never closed. */
  lemma OpenAfter(c1: string, c2: string)
    requires Skeleton(c1).Some? && !HasChar(c2, '\'')
    ensures Skeleton(c1 + " ' " + c2) == None
  {
    var m1 := Scan(c1, Code).1;
    ScanClosesOnQuote(c1, Code);
    OpenQuote(m1);
    ScanInToken(c2, '\'');
    ScanAppend(" ' ", c2, m1);
    ScanAppend(c1, " ' " + c2, Code);
    assert c1 + " ' " + c2 == c1 + (" ' " + c2);
  }

  /** A combinator holding a quote opens a token the statement never closes: the
      quote-freedom the safety lemmas ask of combinators is needed. */
  lemma CombinatorBreaksOut(mainTable: string, joins: seq<JoinConfig>)
    ensures Skeleton(Where(Group("'", [Leaf("a", "null", VNull), Leaf("b", "null", VNull)]), mainTable, joins)) == None
  {
    var c1 := Condition("a", "null", VNull, mainTable, joins);
    var c2 := Condition("b", "null", VNull, mainTable, joins);
    TwoRuleWhere("'", mainTable, joins);
    assert Separator("'") == " ' ";
    assert !HasChar(c2, '\'') by {
      assert c2 == "main." + Q("b") + " IS NULL";
      assert Q("b") == "\"b\"";
    }
    ConditionSkeleton("a", "null", VNull, mainTable, joins);
    OpenAfter(c1, c2);
  }

  // ---------------------------------------------------------------- statements

  lemma JoinAliasQuoteFree(index: int)
    ensures QuoteFree(JoinAlias(index))
  {
    IntTextQuoteFree(index);
    QuoteFreeCat("j", IntToString(index));
  }

  lemma {:induction false} JoinStarsQuoteFree(n: nat)
    ensures QuoteFree(JoinStars(n))
  {
    if n > 0 {
      JoinStarsQuoteFree(n - 1);
      JoinAliasQuoteFree(n - 1);
      QuoteFreeCat(JoinStars(n - 1), ", ");
      QuoteFreeCat(JoinStars(n - 1) + ", ", JoinAlias(n - 1));
      QuoteFreeCat(JoinStars(n - 1) + ", " + JoinAlias(n - 1), ".*");
    }
  }

  /** `alias."column" AS "alias"`. */
  function ItemFrags(c: ColumnProjection, mainTable: string, joins: seq<JoinConfig>): (r: seq<Fragment>)
    ensures Render(r) == ProjectionItem(c, mainTable, joins)
    ensures Separated(r)
  {
    AliasQuoteFree(c.table, mainTable, joins);
    TemplateQuoteFree();
    assert QuoteFree(" AS ");
    Cat(SuffixFrags(FieldFrags(TableAlias(c.table, mainTable, joins), c.column), " AS "), IdentF(c.alias))
  }

  function ItemsFrags(cols: seq<ColumnProjection>, mainTable: string, joins: seq<JoinConfig>): (r: seq<seq<Fragment>>)
    ensures RenderAll(r) == ProjectionItems(cols, mainTable, joins)
    ensures forall i :: 0 <= i < |r| ==> Separated(r[i])
  {
    seq(|cols|, i requires 0 <= i < |cols| => ItemFrags(cols[i], mainTable, joins))
  }

  /** The projection list as fragments. */
  function ProjectionFrags(mainTable: string, joins: seq<JoinConfig>, cols: seq<ColumnProjection>): (r: seq<Fragment>)
    ensures Render(r) == Projection(mainTable, joins, cols)
    ensures Separated(r)
  {
    if |cols| == 0 then
      JoinStarsQuoteFree(|joins|);
      assert QuoteFree(MainAlias + ".*");
      QuoteFreeCat(MainAlias + ".*", JoinStars(|joins|));
      RawF(MainAlias + ".*" + JoinStars(|joins|))
    else
      assert QuoteFree(", ");
      JoinFrags(ItemsFrags(cols, mainTable, joins), ", ")
  }

  /** Every join type is quote-free. */
  predicate JoinTypesQuoteFree(joins: seq<JoinConfig>) {
    forall i :: 0 <= i < |joins| ==> QuoteFree(joins[i].joinType)
  }

  /** One JOIN clause as fragments, left to right. */
  function JoinClauseFrags(j: JoinConfig, index: int): (r: seq<Fragment>)
    ensures Render(r) == JoinClause(j, index)
    ensures QuoteFree(j.joinType) ==> Separated(r)
    ensures r != [] && StartsRaw(r)
  {
    JoinAliasQuoteFree(index);
    TemplateQuoteFree();
    assert QuoteFree(" JOIN ") && QuoteFree(" AS ") && QuoteFree(" ON ") && QuoteFree(MainAlias);
    var alias := JoinAlias(index);
    var head := SuffixFrags(SuffixFrags(RawF(" "), j.joinType), " JOIN ");
    var target := SuffixFrags(SuffixFrags(SuffixFrags(Cat(head, IdentF(j.targetTable)), " AS "), alias), " ON ");
    var source := SuffixFrags(SuffixFrags(Cat(SuffixFrags(SuffixFrags(target, MainAlias), "."), IdentF(j.sourceColumn)), " = "), alias);
    Cat(SuffixFrags(source, "."), IdentF(j.targetColumn))
  }

  function JoinClausesFrags(js: seq<JoinConfig>): (r: seq<Fragment>)
    ensures Render(r) == JoinClauses(js)
    ensures JoinTypesQuoteFree(js) ==> Separated(r)
    ensures r == [] || StartsRaw(r)
  {
    if js == [] then []
    else
      var init := js[..|js| - 1];
      assert JoinTypesQuoteFree(js) ==> JoinTypesQuoteFree(init);
      Cat(JoinClausesFrags(init), JoinClauseFrags(js[|js| - 1], |js| - 1))
  }

  /** The WHERE clause as fragments. */
  function WhereClauseFrags(table: string, query: Option<Group>, joins: seq<JoinConfig>): (r: seq<Fragment>)
    ensures Render(r) == WhereClause(table, query, joins)
    ensures (query.Some? ==> CombinatorsQuoteFree(query.value)) ==> Separated(r)
    ensures r == [] || StartsRaw(r)
  {
    if query.Some? && |query.value.members| > 0 && Trim(Where(query.value, table, joins)) != "" then
      assert QuoteFree(" WHERE ");
      Cat(RawF(" WHERE "), WhereFrags(query.value, table, joins))
    else []
  }

  /** The whole statement as fragments. */
  function SqlFrags(table: string, query: Option<Group>, joins: seq<JoinConfig>, cols: seq<ColumnProjection>): (r: seq<Fragment>)
    ensures Render(r) == Sql(table, query, joins, cols)
    ensures JoinTypesQuoteFree(joins) && (query.Some? ==> CombinatorsQuoteFree(query.value)) ==> Separated(r)
  {
    assert QuoteFree("SELECT ") && QuoteFree(" FROM ") && QuoteFree(" AS " + MainAlias);
    var from := SuffixFrags(Cat(RawF(" FROM "), IdentF(table)), " AS " + MainAlias);
    assert Render(from) == FromClause(table);
    var head := Cat(Cat(RawF("SELECT "), ProjectionFrags(table, joins, cols)), from);
    Cat(Cat(head, JoinClausesFrags(joins)), WhereClauseFrags(table, query, joins))
  }

  /** The compiled statement scans to closed tokens whatever the table, column, alias and
      value strings hold, provided the join types and combinators are quote-free. */
  lemma StatementSkeleton(table: string, query: Option<Group>, joins: seq<JoinConfig>, cols: seq<ColumnProjection>)
    requires JoinTypesQuoteFree(joins)
    requires query.Some? ==> CombinatorsQuoteFree(query.value)
    ensures Skeleton(Sql(table, query, joins, cols)) == Some(Shape(SqlFrags(table, query, joins, cols)))
  {
    SkeletonOfSeparated(SqlFrags(table, query, joins, cols));
  }
}
