/** Injection safety of the statement compiler, stated with the quote-aware scanner: every
    generated condition, rule group and statement is rendered from separated fragments, so
    every identifier and every value is one closed quoted token whatever characters it
    holds, and what the scanner keeps does not depend on the text of string values or
    column names. The two pieces the compiler interpolates unquoted, a group's combinator
    and a join's type, must be quote-free for this to hold. */
module Injection {
  import opened Text
  import opened Wrappers
  import opened QueryTypes
  import opened SqlLexer
  import opened QueryRoute

  // ---------------------------------------------------------------- building fragments

  /** The sequence ends with an identifier or a literal. */
  predicate EndsInToken(fs: seq<Fragment>) {
    fs != [] && !fs[|fs| - 1].Raw?
  }

  /** The sequence starts with non-empty template text. */
  predicate StartsRaw(fs: seq<Fragment>) {
    fs != [] && fs[0].Raw? && fs[0].text != []
  }

  /** The scanner cannot pass from `a` into `b` inside a token. */
  predicate Glues(a: seq<Fragment>, b: seq<Fragment>) {
    EndsInToken(a) && b != [] ==> StartsRaw(b)
  }

  /** `a + b`, with what rendering, shaping and separation make of it. */
  function Cat(a: seq<Fragment>, b: seq<Fragment>): (r: seq<Fragment>)
    ensures Render(r) == Render(a) + Render(b)
    ensures Shape(r) == Shape(a) + Shape(b)
    ensures Separated(a) && Separated(b) && Glues(a, b) ==> Separated(r)
    ensures r == [] <==> a == [] && b == []
    ensures EndsInToken(r) == if b == [] then EndsInToken(a) else EndsInToken(b)
    ensures StartsRaw(r) == if a == [] then StartsRaw(b) else StartsRaw(a)
  {
    RenderAppend(a, b);
    if Separated(a) && Separated(b) && Glues(a, b) then
      SeparatedAppend(a, b);
      a + b
    else
      a + b
  }

  function RawF(t: string): (r: seq<Fragment>)
    ensures Render(r) == t && Shape(r) == t
    ensures QuoteFree(t) ==> Separated(r)
    ensures r != [] && !EndsInToken(r) && StartsRaw(r) == (t != [])
  {
    assert [Raw(t)][1..] == [];
    [Raw(t)]
  }

  function IdentF(x: string): (r: seq<Fragment>)
    ensures Render(r) == Q(x) && Shape(r) == "\"" && Separated(r)
    ensures r != [] && EndsInToken(r) && !StartsRaw(r)
  {
    assert [Ident(x)][1..] == [];
    [Ident(x)]
  }

  function LitF(x: string): (r: seq<Fragment>)
    ensures Render(r) == Literal(x) && Shape(r) == "'" && Separated(r)
    ensures r != [] && EndsInToken(r) && !StartsRaw(r)
  {
    assert [Lit(x)][1..] == [];
    [Lit(x)]
  }

  lemma {:induction false} DigitsQuoteFree(s: string)
    requires IsDigits(s)
    ensures QuoteFree(s)
  {
  }

  lemma IntTextQuoteFree(n: int)
    ensures QuoteFree(IntToString(n))
  {
    var s := IntToString(n);
    if s[0] == '-' {
      assert forall i :: 1 <= i < |s| ==> s[i] == s[1..][i - 1];
    }
  }

  lemma QuoteFreeCat(a: string, b: string)
    requires QuoteFree(a) && QuoteFree(b)
    ensures QuoteFree(a + b)
  {
    assert forall i :: |a| <= i < |a + b| ==> (a + b)[i] == b[i - |a|];
  }

  /** Every alias the compiler produces is quote-free. */
  lemma AliasQuoteFree(tbl: string, mainTable: string, joins: seq<JoinConfig>)
    ensures QuoteFree(TableAlias(tbl, mainTable, joins))
  {
    IntTextQuoteFree(FindJoinIndex(joins, tbl));
    QuoteFreeCat("j", IntToString(FindJoinIndex(joins, tbl)));
  }

  // ---------------------------------------------------------------- conditions

  /** The template text of conditions holds no quote. */
  lemma TemplateQuoteFree()
    ensures QuoteFree(".") && QuoteFree("unaccent(lower(CAST(") && QuoteFree(" AS TEXT)))")
    ensures QuoteFree("NULL") && QuoteFree("unaccent(lower(") && QuoteFree("))") && QuoteFree(", ")
    ensures QuoteFree(" = ") && QuoteFree(" != ") && QuoteFree(" ") && QuoteFree(" IN (") && QuoteFree(")") && QuoteFree("(")
    ensures QuoteFree(" LIKE unaccent(lower(") && QuoteFree(" IS NULL") && QuoteFree(" IS NOT NULL")
    ensures QuoteFree("<") && QuoteFree(">") && QuoteFree("<=") && QuoteFree(">=")
  {
  }

  lemma PrefixQuoteFree(alias: string)
    ensures QuoteFree(alias) ==> QuoteFree(alias + ".") && QuoteFree("unaccent(lower(CAST(" + alias + ".")
  {
    TemplateQuoteFree();
    if QuoteFree(alias) {
      QuoteFreeCat(alias, ".");
      QuoteFreeCat("unaccent(lower(CAST(", alias);
      QuoteFreeCat("unaccent(lower(CAST(" + alias, ".");
    }
  }

  /** `alias."col"`. */
  function FieldFrags(alias: string, col: string): (r: seq<Fragment>)
    ensures Render(r) == alias + "." + Q(col)
    ensures Shape(r) == alias + "." + "\""
    ensures QuoteFree(alias) ==> Separated(r)
    ensures r != [] && EndsInToken(r)
  {
    PrefixQuoteFree(alias);
    Cat(RawF(alias + "."), IdentF(col))
  }

  /** `unaccent(lower(CAST(alias."col" AS TEXT)))`. */
  function NormFieldFrags(alias: string, col: string): (r: seq<Fragment>)
    ensures Render(r) == NormalizedField(alias + "." + Q(col))
    ensures Shape(r) == "unaccent(lower(CAST(" + alias + "." + "\"" + " AS TEXT)))"
    ensures QuoteFree(alias) ==> Separated(r)
    ensures r != [] && !EndsInToken(r)
  {
    PrefixQuoteFree(alias);
    TemplateQuoteFree();
    var pre := "unaccent(lower(CAST(" + alias + ".";
    assert pre + Q(col) + " AS TEXT)))" == NormalizedField(alias + "." + Q(col));
    SuffixFrags(Cat(RawF(pre), IdentF(col)), " AS TEXT)))")
  }

  /** Raw text after a field: ` IS NULL`, `)`, … */
  function SuffixFrags(fs: seq<Fragment>, t: string): (r: seq<Fragment>)
    ensures Render(r) == Render(fs) + t
    ensures Shape(r) == Shape(fs) + t
    ensures Separated(fs) && QuoteFree(t) && t != [] ==> Separated(r)
    ensures r != [] && !EndsInToken(r)
  {
    Cat(fs, RawF(t))
  }

  /** What `escapeValue` writes, as fragments. */
  function ValueFrags(v: Value, normalize: bool): (r: seq<Fragment>)
    ensures Render(r) == EscapeValue(v, normalize)
    ensures v.VStr? && !IsNumeric(v) ==> Shape(r) == if normalize then "unaccent(lower(" + "'" + "))" else "'"
    ensures Separated(r)
  {
    TemplateQuoteFree();
    if v.VNull? || v.VUndef? then RawF("NULL")
    else if IsNumeric(v) then
      IntTextQuoteFree(NumberValue(v));
      RawF(IntToString(NumberValue(v)))
    else if v.VStr? then
      if normalize then SuffixFrags(Cat(RawF("unaccent(lower("), LitF(v.s)), "))") else LitF(v.s)
    else LitF(JsString(v))
  }

  /** The escaped elements of an `in` list, separated by commas. */
  function ListFrags(items: seq<Value>, normalize: bool): (r: seq<Fragment>)
    ensures Render(r) == JoinWith(EscapeAll(items, normalize), ", ")
    ensures Separated(r)
  {
    if items == [] then []
    else if |items| == 1 then ValueFrags(items[0], normalize)
    else
      TemplateQuoteFree();
      assert EscapeAll(items, normalize)[1..] == EscapeAll(items[1..], normalize);
      Cat(SuffixFrags(ValueFrags(items[0], normalize), ", "), ListFrags(items[1..], normalize))
  }

  /** `field op value`: raw operator text between the field and the value fragments. */
  function OpValueFrags(field: seq<Fragment>, opText: string, value: seq<Fragment>): (r: seq<Fragment>)
    ensures Render(r) == Render(field) + opText + Render(value)
    ensures Shape(r) == Shape(field) + opText + Shape(value)
    ensures Separated(field) && QuoteFree(opText) && opText != [] && Separated(value) ==> Separated(r)
  {
    Cat(SuffixFrags(field, opText), value)
  }

  /** What the scanner keeps of a LIKE condition on a column of `alias`. */
  function LikeShape(alias: string): string {
    "unaccent(lower(CAST(" + alias + "." + "\"" + " AS TEXT)))" + " LIKE unaccent(lower(" + "'" + "))"
  }

  /** `unaccent(lower(CAST(field AS TEXT))) LIKE unaccent(lower('pattern'))`. */
  function LikeFrags(alias: string, col: string, pattern: string): (r: seq<Fragment>)
    ensures Render(r) == NormalizedField(alias + "." + Q(col)) + " LIKE unaccent(lower(" + Literal(pattern) + "))"
    ensures Shape(r) == LikeShape(alias)
    ensures QuoteFree(alias) ==> Separated(r)
  {
    TemplateQuoteFree();
    SuffixFrags(OpValueFrags(NormFieldFrags(alias, col), " LIKE unaccent(lower(", LitF(pattern)), "))")
  }

  /** `field IN (list)`. */
  function InFrags(field: seq<Fragment>, list: seq<Fragment>): (r: seq<Fragment>)
    ensures Render(r) == Render(field) + " IN (" + Render(list) + ")"
    ensures Shape(r) == Shape(field) + " IN (" + Shape(list) + ")"
    ensures Separated(field) && Separated(list) ==> Separated(r)
  {
    TemplateQuoteFree();
    SuffixFrags(OpValueFrags(field, " IN (", list), ")")
  }

  /** `field op value` for a comparison operator. */
  function CompareFrags(field: seq<Fragment>, op: string, value: Value): (r: seq<Fragment>)
    requires IsComparison(op)
    ensures Render(r) == Render(field) + " " + op + " " +
      (if IsNumeric(value) then IntToString(NumberValue(value)) else Literal(JsString(value)))
    ensures Shape(r) == Shape(field) + " " + op + " " +
      (if IsNumeric(value) then IntToString(NumberValue(value)) else "'")
    ensures Separated(field) ==> Separated(r)
  {
    TemplateQuoteFree();
    var f := SuffixFrags(SuffixFrags(field, " "), op);
    if IsNumeric(value) then
      IntTextQuoteFree(NumberValue(value));
      OpValueFrags(f, " ", RawF(IntToString(NumberValue(value))))
    else
      OpValueFrags(f, " ", LitF(JsString(value)))
  }

  /** The fragments of one leaf condition on the field `alias."col"`, branch for branch as
      the compiler writes it. */
  function ConditionFragsAt(alias: string, col: string, op: string, value: Value): (r: seq<Fragment>)
    ensures Render(r) == ConditionAt(alias, col, op, value)
    ensures QuoteFree(alias) ==> Separated(r)
  {
    TemplateQuoteFree();
    var fieldRef := FieldFrags(alias, col);
    var norm := ShouldNormalize(op, value);
    var normField := if norm then NormFieldFrags(alias, col) else fieldRef;
    var text := JsString(value);
    if op == "=" then OpValueFrags(normField, " = ", ValueFrags(value, norm))
    else if op == "!=" then OpValueFrags(normField, " != ", ValueFrags(value, norm))
    else if IsComparison(op) then CompareFrags(fieldRef, op, value)
    else if op == "contains" then LikeFrags(alias, col, "%" + text + "%")
    else if op == "beginsWith" then LikeFrags(alias, col, text + "%")
    else if op == "endsWith" then LikeFrags(alias, col, "%" + text)
    else if op == "null" then SuffixFrags(fieldRef, " IS NULL")
    else if op == "notNull" then SuffixFrags(fieldRef, " IS NOT NULL")
    else if op == "in" then InFrags(normField, if value.VArr? then ListFrags(value.items, norm) else ValueFrags(value, norm))
    else OpValueFrags(normField, " = ", ValueFrags(value, norm))
  }

  /** The fragments of the condition `buildCondition` writes for a rule. */
  function ConditionFrags(field: string, op: string, value: Value, mainTable: string, joins: seq<JoinConfig>): (r: seq<Fragment>)
    ensures Render(r) == Condition(field, op, value, mainTable, joins)
    ensures Separated(r)
  {
    var parts := FieldParts(field, mainTable, joins);
    FieldAliasQuoteFree(field, mainTable, joins);
    ConditionFragsAt(parts.0, parts.1, op, value)
  }

  /** The alias a field resolves to holds no quote. */
  lemma FieldAliasQuoteFree(field: string, mainTable: string, joins: seq<JoinConfig>)
    ensures QuoteFree(FieldParts(field, mainTable, joins).0)
  {
    if HasChar(field, '.') {
      AliasQuoteFree(FirstTwoSegments(field, '.').0, mainTable, joins);
    }
  }

  /** Every condition scans to closed tokens: whatever the column name and the value hold,
      the scanner reads each as exactly one quoted token. */
  lemma ConditionSkeleton(field: string, op: string, value: Value, mainTable: string, joins: seq<JoinConfig>)
    ensures Skeleton(Condition(field, op, value, mainTable, joins)) == Some(Shape(ConditionFrags(field, op, value, mainTable, joins)))
  {
    SkeletonOfSeparated(ConditionFrags(field, op, value, mainTable, joins));
  }

  lemma LikeShapeOf(alias: string, col: string, op: string, s: string)
    requires IsTextOperator(op)
    ensures Shape(ConditionFragsAt(alias, col, op, VStr(s))) == LikeShape(alias)
  {
  }

  lemma CompareShapeIgnoresContents(alias: string, col1: string, col2: string, op: string, s1: string, s2: string)
    requires IsComparison(op)
    requires !IsNumeric(VStr(s1)) && !IsNumeric(VStr(s2))
    ensures Shape(ConditionFragsAt(alias, col1, op, VStr(s1))) == Shape(ConditionFragsAt(alias, col2, op, VStr(s2)))
  {
  }

  lemma NullShapeIgnoresContents(alias: string, col1: string, col2: string, op: string, s1: string, s2: string)
    requires op == "null" || op == "notNull"
    ensures Shape(ConditionFragsAt(alias, col1, op, VStr(s1))) == Shape(ConditionFragsAt(alias, col2, op, VStr(s2)))
  {
    var t := if op == "null" then " IS NULL" else " IS NOT NULL";
    assert ConditionFragsAt(alias, col1, op, VStr(s1)) == SuffixFrags(FieldFrags(alias, col1), t);
    assert ConditionFragsAt(alias, col2, op, VStr(s2)) == SuffixFrags(FieldFrags(alias, col2), t);
  }

  lemma InShapeIgnoresContents(alias: string, col1: string, col2: string, s1: string, s2: string)
    requires !IsNumeric(VStr(s1)) && !IsNumeric(VStr(s2))
    ensures Shape(ConditionFragsAt(alias, col1, "in", VStr(s1))) == Shape(ConditionFragsAt(alias, col2, "in", VStr(s2)))
  {
  }

  lemma EqualShapeIgnoresContents(alias: string, col1: string, col2: string, op: string, s1: string, s2: string)
    requires !IsComparison(op) && !IsTextOperator(op) && op != "null" && op != "notNull" && op != "in"
    requires !IsNumeric(VStr(s1)) && !IsNumeric(VStr(s2))
    ensures Shape(ConditionFragsAt(alias, col1, op, VStr(s1))) == Shape(ConditionFragsAt(alias, col2, op, VStr(s2)))
  {
  }

  /** The shape of a condition on a string value does not depend on the column name or on
      the string's text, as long as the string is not numeric. */
  lemma ShapeIgnoresContents(alias: string, col1: string, col2: string, op: string, s1: string, s2: string)
    requires !IsNumeric(VStr(s1)) && !IsNumeric(VStr(s2))
    ensures Shape(ConditionFragsAt(alias, col1, op, VStr(s1))) == Shape(ConditionFragsAt(alias, col2, op, VStr(s2)))
  {
    if IsTextOperator(op) {
      LikeShapeOf(alias, col1, op, s1);
      LikeShapeOf(alias, col2, op, s2);
    } else if IsComparison(op) {
      CompareShapeIgnoresContents(alias, col1, col2, op, s1, s2);
    } else if op == "null" || op == "notNull" {
      NullShapeIgnoresContents(alias, col1, col2, op, s1, s2);
    } else if op == "in" {
      InShapeIgnoresContents(alias, col1, col2, s1, s2);
    } else {
      EqualShapeIgnoresContents(alias, col1, col2, op, s1, s2);
    }
  }

  /** Two conditions that differ only in the column name and in the text of a non-numeric
      string value are the same SQL once their quoted tokens are collapsed: no value and no
      column name can change the structure of the condition. */
  lemma SkeletonIgnoresContents(field1: string, field2: string, op: string, s1: string, s2: string,
                                mainTable: string, joins: seq<JoinConfig>)
    requires FieldParts(field1, mainTable, joins).0 == FieldParts(field2, mainTable, joins).0
    requires !IsNumeric(VStr(s1)) && !IsNumeric(VStr(s2))
    ensures Skeleton(Condition(field1, op, VStr(s1), mainTable, joins)).Some?
    ensures Skeleton(Condition(field1, op, VStr(s1), mainTable, joins)) == Skeleton(Condition(field2, op, VStr(s2), mainTable, joins))
  {
    ConditionSkeleton(field1, op, VStr(s1), mainTable, joins);
    ConditionSkeleton(field2, op, VStr(s2), mainTable, joins);
    var (a1, c1) := FieldParts(field1, mainTable, joins);
    var (a2, c2) := FieldParts(field2, mainTable, joins);
    ShapeIgnoresContents(a1, c1, c2, op, s1, s2);
  }
}
