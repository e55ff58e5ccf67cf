# query-craft in Dafny

A model of the query core of query-craft, a Next.js front end for exploring a Postgres
database. A user builds a tree of filter rules in the browser, picks a table, joins and
columns, and posts them to `/api/query`. There the route handler compiles the request into
one SQL statement. The model covers:

- **The statement compiler** of `app/api/query/route.ts`:
  - the identifier quoter `q`;
  - the leaf-condition compiler `buildCondition` (alias resolution, text normalisation, value
    escaping, operator dispatch);
  - the recursive rule-group compiler `buildWhere`;
  - the statement assembler `buildSQL` (projection, `FROM … AS main`, the `jN` join clauses
    and the optional `WHERE`);
  - the missing-table guard of `POST`.

  Modules `QueryTypes`, `QueryRoute`, `SqlLexer`, `Injection`, `StatementSafety` and
  `Scenarios` hold this part.
- **The rule-tree sanitiser and the Postgres type mapper** of `app/hooks/useQueryBuilder.ts`,
  in module `QueryBuilder`. `app/page.tsx:183-191` and `app/page.tsx:225-247` hold
  character-for-character copies of these two functions, so they are defined once and
  `Page` uses them.
- **The page state of `app/page.tsx`** (joins being edited, the pager, the
  no-table guard of `executeQuery`), as class `Page.QueryPage`.
- **`ColumnSelector.tsx`**: the keyed selection map, kept in insertion order as
  `Object.values` returns it, and the order of loaded columns.
- **`CreateUserForm.tsx`**: validity, the contact filter, the pre-submit checks, the payload
  and the reaction to the answer.
- **`CustomValueEditor.tsx`**: field split, numeric-type test, numeric input filter, fetch
  trigger and suggestion filter.
- **`CustomFieldSelector.tsx`**: option flattening, filtering, the selected label and the
  open/closed state.
- **`ResultsTable.tsx`**: the pagination arithmetic and the empty-data rule.

State the source changes through React setters is modelled as fields of a Dafny class,
changed by `modifies` methods. Pure helpers are functions. Loops that build strings
(`buildSQL`'s `+=` and `buildWhere`'s `parts.push`) are methods with loop invariants, proved
equal to recursive reference functions (`QueryRoute.Sql`, `QueryRoute.Where`).

**How the compiler's quoting is stated.** `SqlLexer` defines a quote-aware scanner, as a SQL
lexer reads text. Its *skeleton* of a statement replaces each quoted identifier or literal
by its quote character and fails when a quote is left open. `Injection` and
`StatementSafety` describe every compiled piece as a sequence of fragments: raw text,
identifier or literal. They prove that:

- the statement's skeleton is exactly the fragment shape;
- two conditions that differ only in the column name or in a non-numeric string value have
  the same skeleton.

So user-supplied column names and values can only change what is inside quotes. This
holds under one assumption: the rule-group combinators and the join types, which the
source interpolates raw, contain no quote. `StatementSafety.CombinatorBreaksOut` shows
that this assumption is needed.

**Source behaviour the model keeps as written:**

- A dotted field keeps only its first two segments.
- A table prefix that is neither the main table nor a join target gets the alias `j-1`.
- Empty join columns are emitted as `""`.
- `LIKE` patterns do not escape `%` or `_`.
- Every nested group is kept by the sanitiser, even an empty one, and gets the combinator
  `and` when it has none. The top-level combinator is copied unchanged.
- The numeric-type test is a substring test, so `interval` and `point` count as numeric:
  they contain `int`. This is `CustomValueEditor.SubstringTypesAreNumeric`.
- The create-user pre-submit checks do not trim the user name and do not check the names,
  so a form the submit button would refuse can pass them
  (`CreateUserForm.ChecksWeakerThanValid`).
- `ColumnSelector` keys are `table + "." + column`, so two different pairs can share a key
  when a name contains a dot.

## Model

| member | source | states |
|---|---|---|
| QueryRoute.Q | app/api/query/route.ts:83-85 | the quoted identifier; what it guarantees is `QRoundTrip` |
| QueryRoute.Literal | app/api/query/route.ts:205-210 | the single-quoted literal every value template writes; what it guarantees is `LiteralRoundTrip` |
| QueryRoute.FieldParts | app/api/query/route.ts:169-180 | the alias and column a field resolves to; `Injection.FieldAliasQuoteFree`, `Scenarios.EmailField` and `Scenarios.DottedFieldParts` state its cases |
| QueryRoute.IsNumeric | app/api/query/route.ts:183-186 | the numeric test on a rule value: integer text, a number, or a one-element array of a numeric value; its limits are under Left out |
| QueryRoute.NumberValue | app/api/query/route.ts:201-202 | `Number(val)` of a numeric value, whose text `Text.ParseIntToString` reads back |
| QueryRoute.JsString | app/api/query/route.ts:210 | `String(val)` of a rule value, arrays printed comma-separated with null and undefined as nothing |
| QueryRoute.ShouldNormalize | app/api/query/route.ts:189-193 | text operators always normalise; other operators normalise non-numeric values except for `null` and `notNull` |
| QueryRoute.NormalizedField | app/api/query/route.ts:194 | the field wrapped in `unaccent(lower(CAST(… AS TEXT)))` |
| QueryRoute.EscapeValue | app/api/query/route.ts:197-211 | `NULL`, the number's text, or a literal; `Injection.ValueFrags` states its shape |
| QueryRoute.ConditionAt | app/api/query/route.ts:213-255 | the operator switch on a resolved field; `Injection.ConditionFragsAt` and `Injection.ShapeIgnoresContents` state its properties |
| QueryRoute.Condition | app/api/query/route.ts:160-256 | the compiled leaf; `ConditionStart`, `Injection.ConditionSkeleton` and `Injection.SkeletonIgnoresContents` state its properties |
| QueryRoute.Parts | app/api/query/route.ts:145-154 | the reference list of a group's parts, in member order; `PartsEmptyIff` states it |
| QueryRoute.Where | app/api/query/route.ts:139-157 | the reference compilation of a rule group, computed by `BuildWhere`; `WhereEmptyIff` and `StatementSafety.WhereSkeleton` state it |
| QueryRoute.Projection | app/api/query/route.ts:97-117 | the reference projection list, computed by `BuildProjection` |
| QueryRoute.JoinClauses | app/api/query/route.ts:123-126 | the reference join clauses, computed by `BuildJoins` |
| QueryRoute.WhereClause | app/api/query/route.ts:128-131 | the optional WHERE clause; `Scenarios.WhereClauseIff` states when it appears |
| QueryRoute.Sql | app/api/query/route.ts:88-136 | the reference statement, computed by `BuildSql`; `StatementSafety.StatementSkeleton` states its quoting |
| QueryRoute.QRoundTrip | app/api/query/route.ts:83-85 | a quoted identifier starts and ends with `"`; undoubling its inside gives back the identifier, and the inside has no lone `"` |
| QueryRoute.LiteralRoundTrip | app/api/query/route.ts:205-210 | a string literal starts and ends with `'`; undoubling its inside gives back the value, and the inside has no lone `'` |
| QueryRoute.LikeLiterals | app/api/query/route.ts:230-237 | the three LIKE patterns keep their `%` outside the doubled value: `'%v%'`, `'v%'`, `'%v'` |
| QueryRoute.FindJoinIndex | app/api/query/route.ts:173-175 | the first join whose target table matches, and −1 exactly when no join matches |
| QueryRoute.BuildWhere | app/api/query/route.ts:139-157 | the loop over the rules computes the reference rule-tree compilation `Where` |
| QueryRoute.BuildPart | app/api/query/route.ts:148-153 | one rule's contribution: a parenthesised non-blank nested group, a compiled leaf with field and operator, or nothing |
| QueryRoute.WhereEmptyIff | app/api/query/route.ts:139-157 | the compiled group is empty exactly when no leaf with a field and an operator occurs anywhere in the tree; a non-empty result starts with a non-blank character, so its trim is non-empty exactly then too |
| QueryRoute.PartsEmptyIff | app/api/query/route.ts:145-154 | a group's parts list is empty exactly when none of its rules holds a valid leaf, and every part is non-empty and starts with a non-blank character |
| QueryRoute.MemberPartEmptyIff | app/api/query/route.ts:147-153 | one rule contributes nothing exactly when it holds no valid leaf |
| QueryRoute.SubPartEmptyIff | app/api/query/route.ts:148-150 | a nested group contributes nothing exactly when it holds no valid leaf |
| QueryRoute.LeafPartEmptyIff | app/api/query/route.ts:151-152 | a leaf contributes nothing exactly when its field or its operator is empty |
| QueryRoute.ConditionStart | app/api/query/route.ts:160-256 | every compiled condition is non-empty and starts with a non-blank character |
| QueryRoute.JoinWithEmpty | app/api/query/route.ts:156 | joining non-empty parts with a separator gives the empty string exactly when there are no parts |
| QueryRoute.BuildProjection | app/api/query/route.ts:97-117 | the projection loop computes `main.*` plus `, jN.*` per join in order when no column is selected, else the `alias."col" AS "alias"` items joined by `, ` |
| QueryRoute.BuildJoins | app/api/query/route.ts:123-126 | the join loop appends one `type JOIN "t" AS jN ON main."s" = jN."c"` clause per join, N its position |
| QueryRoute.BuildSql | app/api/query/route.ts:88-136 | the assembler computes projection, FROM clause, join clauses and optional WHERE clause, in that order |
| QueryRoute.HandleQuery | app/api/query/route.ts:27-36 | an empty table gives the failure "Table name is required"; any other table gives the compiled statement |
| Text.UndoubleDouble | app/api/query/route.ts:84 | undoubling a string whose quote characters were doubled gives it back, and the doubled string has no lone quote |
| Text.ParseIntToString | app/api/query/route.ts:202 | the canonical text of an integer reads back as that integer |
| Text.FirstTwoSegmentsOfJoined | app/api/query/route.ts:170 | destructuring a split on `.` gives the first two dot-free segments and drops the rest |
| Text.Trim | app/api/query/route.ts:130 | trimming gives a contiguous window of the text, empty exactly when the text is blank, with no blank character at either end, and only whitespace dropped before and after it |
| SqlLexer.ScanDoubled | app/api/query/route.ts:206 | inside a quote, a value whose quote characters are doubled never closes the quote |
| SqlLexer.ScanToken | app/api/query/route.ts:83-85 | a quoted token read from outside quotes ends right after its closing quote, with only that quote left in the skeleton |
| SqlLexer.ScanSeparated | app/api/query/route.ts:88-256 | scanning the rendering of well-separated fragments yields their shape and leaves no quote open |
| SqlLexer.SkeletonOfSeparated | app/api/query/route.ts:88-256 | the skeleton of well-separated fragments is defined and equals their shape |
| Injection.ValueFrags | app/api/query/route.ts:197-211 | every escaped value is a well-separated fragment list; a non-numeric string has the shape of one literal, wrapped in `unaccent(lower(…))` exactly when normalising |
| Injection.ConditionFragsAt | app/api/query/route.ts:213-255 | every operator's condition text is the rendering of a well-separated fragment list, given a quote-free alias |
| Injection.ConditionFrags | app/api/query/route.ts:160-256 | every compiled condition is the rendering of a well-separated fragment list |
| Injection.AliasQuoteFree | app/api/query/route.ts:173-175 | a table alias (`main` or `j` plus an integer) holds no quote |
| Injection.FieldAliasQuoteFree | app/api/query/route.ts:169-180 | the alias a field resolves to holds no quote |
| Injection.IntTextQuoteFree | app/api/query/route.ts:202 | the canonical text of a number holds no quote |
| Injection.ConditionSkeleton | app/api/query/route.ts:160-256 | a compiled condition closes every quote it opens, and its skeleton is its fragment shape |
| Injection.LikeShapeOf | app/api/query/route.ts:230-237 | a LIKE condition on a string has the same skeleton for every column and value |
| Injection.ShapeIgnoresContents | app/api/query/route.ts:213-255 | for each operator, changing the column or a non-numeric string value leaves the condition's shape unchanged |
| Injection.SkeletonIgnoresContents | app/api/query/route.ts:169-256 | two conditions whose fields resolve to the same alias and whose values are non-numeric strings have the same defined skeleton |
| StatementSafety.WhereSkeleton | app/api/query/route.ts:139-157 | with quote-free combinators, a compiled rule tree closes every quote and its skeleton is its fragment shape |
| StatementSafety.SqlFrags | app/api/query/route.ts:88-136 | the whole statement is the rendering of a fragment list, well separated when combinators and join types are quote-free |
| StatementSafety.JoinClauseFrags | app/api/query/route.ts:123-126 | a join clause is a fragment list starting with raw text, well separated when its join type is quote-free |
| StatementSafety.ProjectionFrags | app/api/query/route.ts:97-117 | the projection is always a well-separated fragment list |
| StatementSafety.StatementSkeleton | app/api/query/route.ts:88-136 | with quote-free combinators and join types, the statement closes every quote and its skeleton is its fragment shape |
| StatementSafety.TwoRuleWhere | app/api/query/route.ts:145-156 | two valid leaves are joined by the upper-cased combinator between spaces |
| StatementSafety.CombinatorBreaksOut | app/api/query/route.ts:156 | a combinator `'` leaves a quote open in the compiled group |
| Scenarios.EmptyGroupLaw | app/api/query/route.ts:128-131 | a top-level group with no rules compiles to the statement with no WHERE clause |
| Scenarios.WhereClauseIff | app/api/query/route.ts:128-131 | ` WHERE …` is appended exactly when a query is present and holds a valid leaf, and it then carries the compiled group |
| Scenarios.SingleRuleWhere | app/api/query/route.ts:147-156 | a group of one valid leaf compiles to that leaf's condition |
| Scenarios.SingleRuleSql | app/api/query/route.ts:88-136 | a one-leaf query gives projection, FROM, joins and ` WHERE ` plus the condition |
| Scenarios.EmailField | app/api/query/route.ts:178-179 | an undotted field resolves to the `main` alias and itself |
| Scenarios.PlainSql | app/api/query/route.ts:97-120 | with no joins and no columns the statement starts `SELECT main.* FROM "t" AS main` |
| Scenarios.DottedFieldParts | app/api/query/route.ts:169-177 | a `table.column` field resolves to the table's alias and the column |
| Scenarios.FirstJoinAlias | app/api/query/route.ts:173-175 | the first join's target table gets alias `j0` |
| Scenarios.OrdersField | app/api/query/route.ts:169-177 | `orders.status` with one join to `orders` resolves to `("j0", "status")` |
| Scenarios.ContainsCondition | app/api/query/route.ts:230-231 | `contains` on a string gives the normalised field `LIKE` the normalised `'%v%'` literal |
| Scenarios.EqualsTextCondition | app/api/query/route.ts:193-215 | `=` on a non-numeric string normalises both the field and the literal |
| Scenarios.ShippedCondition | app/api/query/route.ts:169-215 | `orders.status = 'shipped'` through one join compiles against alias `j0` with both sides normalised |
| Scenarios.OneJoinSql | app/api/query/route.ts:97-126 | with one join and no columns the projection is `main.*, j0.*` and one join clause follows FROM |
| Scenarios.EmailContainsScenario | app/api/query/route.ts:88-136 | the complete statement of an `email contains '@example.com'` query on `users` |
| Scenarios.JoinScenario | app/api/query/route.ts:88-136 | the complete statement of a LEFT join to `orders` filtered on `orders.status = 'shipped'` |
| QueryBuilder.KeepsLeaf | app/hooks/useQueryBuilder.ts:84 | the keep rule for a leaf: field and operator set, value neither undefined nor empty; `LeafKeptIff` states it |
| QueryBuilder.ProcessMembers | app/hooks/useQueryBuilder.ts:76-94 | the cleaned rule list, never longer than the input; `ProcessedIsClean`, `CleanIsFixed` and `ProcessMembersAppend` state it |
| QueryBuilder.DefaultCombinator | app/hooks/useQueryBuilder.ts:79 | a nested group's combinator is kept when present and is never empty |
| QueryBuilder.ProcessQueryRules | app/hooks/useQueryBuilder.ts:75-97 | the top-level combinator is copied unchanged and no level grows |
| QueryBuilder.LeafKeptIff | app/hooks/useQueryBuilder.ts:84-91 | a leaf survives exactly when it was present and has a field, an operator and a value that is neither undefined nor empty |
| QueryBuilder.GroupsKept | app/hooks/useQueryBuilder.ts:77-82 | every nested group survives, empty or not |
| QueryBuilder.ProcessMembersAppend | app/hooks/useQueryBuilder.ts:76-94 | processing distributes over concatenation, so survivors keep their relative order |
| QueryBuilder.ProcessedIsClean | app/hooks/useQueryBuilder.ts:75-97 | the output holds only leaves that pass the keep rule and groups with a non-empty combinator, at every depth |
| QueryBuilder.CleanIsFixed | app/hooks/useQueryBuilder.ts:75-97 | processing leaves a clean rule list unchanged |
| QueryBuilder.ProcessIdempotent | app/hooks/useQueryBuilder.ts:75-97 | processing an already processed tree changes nothing |
| QueryBuilder.MapPostgresType | app/hooks/useQueryBuilder.ts:145-153 | the input type is one of six; it is `text` exactly when the lower-cased name is not a mapped type, and the mapped one otherwise |
| QueryBuilder.MapPostgresTypeIgnoresCase | app/hooks/useQueryBuilder.ts:152 | upper-casing a type name does not change its input type |
| ResultsTable.JsSlice | app/components/ResultsTable.tsx:23 | JavaScript's `slice`, its bounds placed by `SliceBound` |
| ResultsTable.TotalPages | app/components/ResultsTable.tsx:21 | the page count; `TotalPagesIsCeiling` states it |
| ResultsTable.StartIndex | app/components/ResultsTable.tsx:22 | the first row of a page counted from 1; `ThirdPage` and `PageInRange` use it |
| ResultsTable.PageSlice | app/components/ResultsTable.tsx:23 | the rows of a page; `PageSliceBounded`, `PageInRange` and `PagesCoverData` state it |
| ResultsTable.SliceBound | app/components/ResultsTable.tsx:23 | a slice bound is clipped into the data, and a bound inside the data is kept |
| ResultsTable.TotalPagesIsCeiling | app/components/ResultsTable.tsx:21 | the page count is the ceiling of rows over page size: enough pages for every row, one fewer is not, and zero only for no rows |
| ResultsTable.NinetyFiveRows | __tests__/integration.test.ts:219-225 | 95 rows at 10 per page make 10 pages |
| ResultsTable.ThirdPage | __tests__/integration.test.ts:227-235 | page 3 at 10 per page starts at 20 and shows rows 20 to 29 |
| ResultsTable.PageSliceBounded | app/components/ResultsTable.tsx:22-23 | a page never shows more rows than the page size |
| ResultsTable.PageInRange | app/components/ResultsTable.tsx:21-23 | every page from 1 to the page count is a non-empty window of the data at its start index |
| ResultsTable.PagesCoverData | app/components/ResultsTable.tsx:21-23 | pages 1 to the page count, concatenated, give back all the data |
| ResultsTable.Render | app/components/ResultsTable.tsx:18-23 | nothing is rendered exactly when there are no rows; otherwise the columns are the first row's keys, with the page count and the page's rows |
| ResultsTable.RenderedPageNonEmpty | app/components/ResultsTable.tsx:18-23 | a rendered page in range shows between one and page-size rows |
| Page.RemoveAt | app/page.tsx:221 | the join list without one position, one shorter exactly when the index is in range; `RemoveAtSpec` states its contents |
| Page.RemoveAtSpec | app/page.tsx:220-223 | removing index i drops exactly the element at i and keeps the rest in order; an index out of range changes nothing |
| Page.AddThenRemove | app/page.tsx:207-223 | removing the last added join by its position gives back the previous list |
| Page.RemoveShifts | app/page.tsx:220-223 | joins before the removed one keep their position and those after it move down by one |
| Page.QueryPage.constructor | app/page.tsx:22-44 | the initial page state: no joins, a blank RIGHT join being edited, page 1 of 10 rows, no table, an empty `and` query |
| Page.QueryPage.OnTargetTableChange | app/page.tsx:200-201 | the edited join gets the new target table and empty columns and keeps its type; nothing else changes |
| Page.QueryPage.AddJoin | app/page.tsx:207-217 | a join with target table and both columns is appended, the edit becomes a blank INNER join and the modal closes; an incomplete join changes nothing |
| Page.QueryPage.RemoveJoin | app/page.tsx:220-223 | the join list loses the element at the index, as `Page.RemoveAtSpec` describes |
| Page.QueryPage.HandleItemsPerPageChange | app/page.tsx:300-303 | the new page size is set and the pager returns to page 1 |
| Page.QueryPage.HandlePageChange | app/page.tsx:299 | the pager moves to the given page |
| Page.QueryPage.TotalPages | app/page.tsx:294 | enough pages for every row, and the last page is not empty |
| Page.QueryPage.CurrentData | app/page.tsx:294-297 | the current page never holds more rows than the page size |
| Page.QueryPage.ExecuteQuery | app/page.tsx:250-270 | with no table it sets the error "Please select a table first!" and sends nothing; otherwise it starts loading, clears the error and sends table, sanitised rule tree and joins |
| Page.QueryPage.FinishQuery | app/page.tsx:272-286 | rows replace the data and reset the pager to page 1; an error sets its message; loading ends either way |
| ColumnSelector.Key | app/components/ColumnSelector.tsx:55 | the record key `table.column`; key clashes are under source behaviour above |
| ColumnSelector.Toggled | app/components/ColumnSelector.tsx:54-64 | the record after a toggle; `ToggleLookup`, `ToggleKeepsDistinct` and the toggle-twice lemmas state it |
| ColumnSelector.WithAlias | app/components/ColumnSelector.tsx:68-73 | the record after a rename, of the same size; `AliasLookup` and `AliasKeepsDistinct` state it |
| ColumnSelector.Values | app/components/ColumnSelector.tsx:65 | `Object.values`: one projection per entry, in insertion order |
| ColumnSelector.JoinColumns | app/components/ColumnSelector.tsx:41-44 | the joined tables' columns, join by join; `JoinColumnsFromJoins` states it |
| ColumnSelector.Find | app/components/ColumnSelector.tsx:58 | the position of the key in the selection, or −1 exactly when it is absent |
| ColumnSelector.WithoutLookup | app/components/ColumnSelector.tsx:58-59 | after deletion the key is absent and every other key looks up as before |
| ColumnSelector.AppendLookup | app/components/ColumnSelector.tsx:60-61 | adding an absent key makes it look up to its entry and leaves every other key as before |
| ColumnSelector.ToggleLookup | app/components/ColumnSelector.tsx:54-66 | toggling adds the default entry for an absent key, removes a present one, and leaves every other key as before |
| ColumnSelector.ToggleAbsentValues | app/components/ColumnSelector.tsx:60-65 | toggling an absent column appends its default entry to the reported values |
| ColumnSelector.ToggleTwiceAbsent | app/components/ColumnSelector.tsx:54-66 | toggling an absent column twice restores the selection |
| ColumnSelector.ToggleTwicePresent | app/components/ColumnSelector.tsx:54-66 | toggling a present column twice brings it back with the default alias |
| ColumnSelector.ToggleKeepsDistinct | app/components/ColumnSelector.tsx:54-66 | toggling keeps every key at most once |
| ColumnSelector.WithoutKeepsDistinct | app/components/ColumnSelector.tsx:58-59 | deletion keeps keys distinct and adds no entry |
| ColumnSelector.AliasLookup | app/components/ColumnSelector.tsx:68-76 | renaming an absent column changes nothing; a present one changes only its alias; every other key looks up as before |
| ColumnSelector.AliasKeepsDistinct | app/components/ColumnSelector.tsx:68-76 | renaming keeps keys distinct |
| ColumnSelector.JoinColumnsFromJoins | app/components/ColumnSelector.tsx:41-44 | every column loaded for the joins belongs to some join's target table |
| ColumnSelector.Selector.constructor | app/components/ColumnSelector.tsx:16-17 | no columns loaded and nothing selected |
| ColumnSelector.Selector.LoadColumns | app/components/ColumnSelector.tsx:35-47 | the main table's columns come first, then each join's target-table columns in join order |
| ColumnSelector.Selector.Toggle | app/components/ColumnSelector.tsx:54-66 | the selection becomes the toggled one, keeps each key at most once, and its values are reported |
| ColumnSelector.Selector.ChangeAlias | app/components/ColumnSelector.tsx:68-76 | a selected column gets the alias and the values are reported; an unselected one changes and reports nothing; keys stay distinct |
| CreateUserForm.IsValid | app/components/CreateUserForm.tsx:53-61 | the submit-button rule; `ValidPassesChecks` and `ChecksWeakerThanValid` relate it to the pre-submit checks |
| CreateUserForm.AcceptsContact | app/components/CreateUserForm.tsx:70 | the contact filter: empty, or one to eleven digits; `Form.HandleContactChange` uses it |
| CreateUserForm.Set | app/components/CreateUserForm.tsx:48-50 | the named field gets the value and every other field is unchanged |
| CreateUserForm.PreSubmitError | app/components/CreateUserForm.tsx:82-98 | no error exactly when the passwords agree, the untrimmed user name has three characters and the password six; messages are checked in that order |
| CreateUserForm.ValidPassesChecks | app/components/CreateUserForm.tsx:53-98 | a form the submit button accepts passes every pre-submit check |
| CreateUserForm.ChecksWeakerThanValid | app/components/CreateUserForm.tsx:53-98 | a form with a three-space user name and no names passes the checks but is not valid |
| CreateUserForm.PayloadOf | app/components/CreateUserForm.tsx:104-113 | names and user name are sent trimmed; the contact is sent as null exactly when it is blank, else trimmed; password and role go unchanged; the creator's role and user name are attached |
| CreateUserForm.Form.constructor | app/components/CreateUserForm.tsx:30-41 | an empty form, not loading, with no messages, and `onSuccess` not yet called |
| CreateUserForm.Form.UpdateField | app/components/CreateUserForm.tsx:48-50 | only the named field changes |
| CreateUserForm.Form.HandleContactChange | app/components/CreateUserForm.tsx:67-73 | an empty value or one to eleven digits replaces the contact; anything else changes nothing |
| CreateUserForm.Form.BeginSubmit | app/components/CreateUserForm.tsx:75-114 | messages are cleared; the first failing check becomes the error and no payload is sent; otherwise the payload is sent and loading continues |
| CreateUserForm.Form.FinishSubmit | app/components/CreateUserForm.tsx:116-137 | success empties the form, sets the message (with its default) and calls `onSuccess` once; a refusal or a network failure sets the error and calls nothing; loading ends |
| CustomValueEditor.RendersEditor | app/components/CustomValueEditor.tsx:7-26 | on a first render, an editor is rendered exactly when the operator is neither `is null` nor `is not null` |
| CustomValueEditor.SplitField | app/components/CustomValueEditor.tsx:29-41 | a dotted field gives its first two dot-free segments, read from the start of the field; otherwise the table comes from the field data and the column from it or from the field |
| CustomValueEditor.SplitQualified | app/components/CustomValueEditor.tsx:32-34 | `table.column` splits back into table and column, and further segments are dropped |
| CustomValueEditor.IsNumericType | app/components/CustomValueEditor.tsx:44-49 | the numeric-type test; the lemmas below state which types pass |
| CustomValueEditor.WordAtIsNumeric | app/components/CustomValueEditor.tsx:44-49 | a type whose lower-cased name holds one of the numeric words is numeric |
| CustomValueEditor.UpperCaseIsNumeric | app/components/CustomValueEditor.tsx:44-49 | `INTEGER` is numeric: the test ignores case |
| CustomValueEditor.SubstringTypesAreNumeric | app/components/CustomValueEditor.tsx:44-49 | `interval` and `point` are numeric: the test looks for substrings |
| CustomValueEditor.TextIsNotNumeric | app/components/CustomValueEditor.tsx:44-49 | `text` is not numeric |
| CustomValueEditor.NumericDraft | app/components/CustomValueEditor.tsx:110 | the numeric input check, read left to right; `NumericDraftIff` states which strings pass |
| CustomValueEditor.AcceptsInput | app/components/CustomValueEditor.tsx:109-111 | the keystroke filter with its `''` and `'-'` exceptions; `AcceptsExactlyDrafts` states it |
| CustomValueEditor.NumericDraftIff | app/components/CustomValueEditor.tsx:110 | the numeric input check accepts exactly the strings of an optional minus, digits, an optional point and digits |
| CustomValueEditor.NumericDraftExamples | app/components/CustomValueEditor.tsx:110 | `""`, `-`, `-12.5` and `.` pass; `1-`, `1.2.3` and `e` do not |
| CustomValueEditor.AcceptsExactlyDrafts | app/components/CustomValueEditor.tsx:109-111 | the `''` and `'-'` exceptions add nothing: input is accepted exactly when the field is not numeric or the input passes the check |
| CustomValueEditor.Matching | app/components/CustomValueEditor.tsx:129-134 | the matching suggestions, never more than were fetched; `MatchingIff` and `MatchingAppend` state it |
| CustomValueEditor.MatchingIff | app/components/CustomValueEditor.tsx:129-134 | a suggestion is listed exactly when it was fetched and contains the search term, ignoring case |
| CustomValueEditor.MatchingAppend | app/components/CustomValueEditor.tsx:129-134 | filtering keeps the suggestions' order |
| CustomValueEditor.MatchingEmptyTerm | app/components/CustomValueEditor.tsx:129-134 | an empty search term lists every suggestion |
| CustomValueEditor.Editor.constructor | app/components/CustomValueEditor.tsx:17-49 | the search term starts as the value, closed, with no suggestions; table, column and numeric flag come from the field split and the type test |
| CustomValueEditor.Editor.HandleInputChange | app/components/CustomValueEditor.tsx:106-116 | rejected input changes nothing; accepted input becomes the search term, is forwarded, and opens the list unless blank |
| CustomValueEditor.Editor.SearchTermChanged | app/components/CustomValueEditor.tsx:52-96 | an odd trimmed length starts a fetch for the trimmed term when table and column are known; an empty one clears and closes the list; otherwise nothing changes |
| CustomValueEditor.Editor.FinishFetch | app/components/CustomValueEditor.tsx:68-84 | a successful answer's values become the suggestions, an error leaves none; the list opens and loading ends |
| CustomValueEditor.Editor.HandleInputFocus | app/components/CustomValueEditor.tsx:118-120 | focus opens the list when there are suggestions |
| CustomValueEditor.Editor.HandleBlur | app/components/CustomValueEditor.tsx:100-104 | focus leaving the editor closes the list; focus moving inside changes nothing |
| CustomValueEditor.Editor.HandleOptionSelect | app/components/CustomValueEditor.tsx:122-126 | the suggestion becomes the search term, is forwarded and the list closes |
| CustomValueEditor.Editor.FilteredSuggestions | app/components/CustomValueEditor.tsx:129-134 | exactly the fetched suggestions that match the search term |
| CustomValueEditor.Editor.ShouldShowDropdown | app/components/CustomValueEditor.tsx:137 | the list shows exactly when it is open, since a length is never negative |
| CustomFieldSelector.Flatten | app/components/CustomFieldSelector.tsx:13-14 | the offered options; `FlattenIff` and `FlattenAppend` state it |
| CustomFieldSelector.Filtered | app/components/CustomFieldSelector.tsx:16-18 | the listed options, never more than offered; `FilteredIff` and `FilteredAppend` state it |
| CustomFieldSelector.FlattenIff | app/components/CustomFieldSelector.tsx:13-14 | an option is offered exactly when some entry contributes it |
| CustomFieldSelector.FlattenAppend | app/components/CustomFieldSelector.tsx:13-14 | flattening keeps the entries' order |
| CustomFieldSelector.FlattenSingles | app/components/CustomFieldSelector.tsx:13-14 | a list without groups flattens to its own options |
| CustomFieldSelector.FilteredIff | app/components/CustomFieldSelector.tsx:16-18 | an option is listed exactly when it is offered and its label contains the search term, ignoring case |
| CustomFieldSelector.FilteredAppend | app/components/CustomFieldSelector.tsx:16-18 | filtering keeps the options' order |
| CustomFieldSelector.FilteredEmptyTerm | app/components/CustomFieldSelector.tsx:16-18 | an empty search lists every option |
| CustomFieldSelector.SelectedLabel | app/components/CustomFieldSelector.tsx:20 | the label of the first option with the value's name, or `Select field` when there is none or its label is empty |
| CustomFieldSelector.Selector.constructor | app/components/CustomFieldSelector.tsx:9-10 | closed, with an empty search |
| CustomFieldSelector.Selector.ToggleDropdown | app/components/CustomFieldSelector.tsx:22-24 | the list's open state flips |
| CustomFieldSelector.Selector.HandleBlur | app/components/CustomFieldSelector.tsx:26-32 | focus leaving the picker closes the list and clears the search; focus moving inside changes nothing |
| CustomFieldSelector.Selector.HandleSearchChange | app/components/CustomFieldSelector.tsx:34-38 | the search term becomes the input |
| CustomFieldSelector.Selector.HandleOptionSelect | app/components/CustomFieldSelector.tsx:40-44 | the option's name is passed on, the list closes and the search clears |
| CustomFieldSelector.Selector.Visible | app/components/CustomFieldSelector.tsx:13-18 | exactly the offered options whose label matches the search term |

## Left out

- HTTP, database and authentication: the rest of the `POST` handlers, the Supabase RPC calls, the column-value and table routes, `app/lib/auth.ts` and the login, seed and create-user routes. These are I/O, calls into external services, and randomness.
- `fetch` calls and their answers: requests are returned by methods (`Page.QueryPage.ExecuteQuery`, `CreateUserForm.Form.BeginSubmit`, `CustomValueEditor.Editor.SearchTermChanged`), and answers are parameters of the methods that take them (`FinishQuery`, `FinishSubmit`, `FinishFetch`, and the `fetched` function of `ColumnSelector.Selector.LoadColumns`).
- React rendering, JSX and effect scheduling: the effect that validates the form is the predicate `CreateUserForm.IsValid`, and the fetch trigger is a method the caller runs after each search-term change.
- CustomValueEditor.RendersEditor: describes the first render of an editor. The early `return null` (`app/components/CustomValueEditor.tsx:26`) comes before the hooks of lines 29-97, so a mounted editor whose operator changes to `is null` makes React throw for rendering fewer hooks instead of rendering nothing; hook order is not modelled.
- CustomValueEditor.Editor.HandleBlur: closes the list at once; the 200 ms delay of the source is a timer and is not modelled. Whether focus moved inside the container is a parameter.
- CustomFieldSelector.Selector.HandleBlur: whether focus moved inside the container is a parameter, for the same reason.
- `loadAllFieldsWithJoins`, with its `Promise.all`, and the loaders and `executeQuery` of `useQueryBuilder.ts`: concurrency and requests only.
- QueryRoute.IsNumeric: JavaScript number semantics are reduced to integer text (an optional minus and digits). `Number`/`parseFloat` on decimals, exponents, surrounding spaces, hexadecimal and `Infinity` are not modelled, and numbers are unbounded integers. Arrays of one numeric element are numeric, as `Number([x])` is in JavaScript. Booleans are not numeric.
- QueryRoute.EscapeValue: `String(Number(v))` is the canonical integer text `Text.IntToString`.
- QueryRoute.HandleQuery: covers requests whose group combinators, join fields and selected-column fields are strings. A group without a combinator makes `toUpperCase` throw (`app/api/query/route.ts:156`), an absent join or column field makes `q(undefined)` throw (`app/api/query/route.ts:84`), and a `query` object without a `rules` array makes `query.rules.length` throw (`app/api/query/route.ts:128`). `buildSQL` runs outside the inner `try` (`app/api/query/route.ts:36`), so the source then answers 500 `Internal server error` (`app/api/query/route.ts:74-79`); the model has no such request.
- CreateUserForm.PreSubmitError: lengths count characters, while JavaScript's `length` counts UTF-16 code units. The password `😀😀😀` has length 6 in JavaScript and 3 here, so the model agrees with the source only for text in the Basic Multilingual Plane.
- CreateUserForm.IsValid: the same character-versus-UTF-16 difference applies to its length checks.
- CustomValueEditor.Editor.SearchTermChanged: the odd-length fetch trigger counts characters, not UTF-16 code units, for the same reason.
- The SQL meaning of `unaccent`, `lower`, `LIKE` and `IN`: the model is about the emitted text, not about query results. `%` and `_` in values are not escaped, so nothing is claimed about wildcards.
- Text.Lower: case mapping and `trim` cover ASCII only; Unicode case mapping and Unicode white space are not modelled.
- StatementSafety.StatementSkeleton: holds only for quote-free combinators and join types, because the source interpolates both raw.
- QueryBuilder.MapPostgresType: the source's lookup object inherits from `Object.prototype`, so a type named like an inherited property (`constructor`, say) is not mapped to `text`. The model is a plain map.
- ColumnSelector.Selector.ChangeAlias: the source copies the selection shallowly and assigns the alias on the shared entry object, which also changes the previous state. The model updates a value and does not model that aliasing.
- ResultsTable.TotalPages: requires a positive page size; the source would divide by zero and get `Infinity` for a page size of 0, which the page never sets.
- Page.QueryPage.FinishQuery: mapping an HTTP error to its message (`result.error` or `Query failed`) and a missing `data` to `[]` is left to the caller.
- Field data: an absent `tableName`, `name` or `dataType` is the empty string, which the source treats the same way.
- CustomValueEditor.Editor.FilteredSuggestions: suggestions are strings; the `String(s)` conversion of other values is not modelled.
- Presentational components and type-only files (Header, inputs, buttons, modals, lists, status badges) render props only.
