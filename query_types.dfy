/** The request shapes shared by the query builder page and the query endpoint:
    rule values, rules and rule groups, join configurations and column projections. */
module QueryTypes {

  /** A rule value as JSON delivers it; `VUndef` is JavaScript's `undefined` (an absent
      `value` key). Numbers are integers in this model. */
  datatype Value =
    | VNull
    | VUndef
    | VStr(s: string)
    | VNum(n: int)
    | VBool(b: bool)
    | VArr(items: seq<Value>)

  /** A member of a rule group: a leaf rule, or a nested group (an object with a `rules`
      array). The `isGroup` flag the client attaches is the constructor here. */
  datatype Member =
    | Leaf(field: string, op: string, value: Value)
    | Sub(group: Group)

  /** `{combinator, rules}`. The combinator is a string here; a request without one is
      not covered. */
  datatype Group = Group(combinator: string, members: seq<Member>)

  /** `{type, targetTable, sourceColumn, targetColumn}`; `type` is "INNER", "LEFT" or "RIGHT"
      by the TypeScript declaration, but nothing checks it at run time. */
  datatype JoinConfig = JoinConfig(joinType: string, targetTable: string, sourceColumn: string, targetColumn: string)

  /** One entry of an explicit projection list. */
  datatype ColumnProjection = ColumnProjection(table: string, column: string, alias: string)
}
