/** The client-side preparation of a query: the clean-up of the rule tree before it is
    sent to the query endpoint, and the mapping from Postgres column types to the input
    types of the rule editor. The page and the query-builder hook carry identical copies
    of both; they are defined once here. */
module QueryBuilder {
  import opened Text
  import opened Wrappers
  import opened QueryTypes

  // ---------------------------------------------------------------- rule clean-up

  /** A rule survives when its field and operator are non-empty and its value is neither
      `undefined` nor the empty string; `null`, `0` and `false` survive. */
  predicate KeepsLeaf(field: string, op: string, v: Value) {
    field != "" && op != "" && v != VUndef && v != VStr("")
  }

  /** A nested group's combinator, with `'and'` for an absent one. */
  function DefaultCombinator(c: string): (r: string)
    ensures r != ""
    ensures c != "" ==> r == c
  {
    if c == "" then "and" else c
  }

  /** What the `map` callback returns for one member: a nested group is always kept,
      with its combinator defaulted and its rules cleaned; a rule is kept unchanged or
      dropped (`null`, which the `filter(Boolean)` removes). */
  function ProcessMember(m: Member): Option<Member>
    decreases m
  {
    match m
    case Leaf(f, o, v) => if KeepsLeaf(f, o, v) then Some(m) else None
    case Sub(g) => Some(Sub(Group(DefaultCombinator(g.combinator), ProcessMembers(g.members))))
  }

  function OptionToSeq(o: Option<Member>): (r: seq<Member>)
    ensures |r| <= 1
  {
    if o.Some? then [o.value] else []
  }

  /** `rules.map(…).filter(Boolean)`: the surviving members, in their original order. */
  function ProcessMembers(ms: seq<Member>): (r: seq<Member>)
    ensures |r| <= |ms|
    decreases ms
  {
    if ms == [] then [] else OptionToSeq(ProcessMember(ms[0])) + ProcessMembers(ms[1..])
  }

  /** `processQueryRules`: the top-level combinator is copied as it is, with no default. */
  function ProcessQueryRules(g: Group): (r: Group)
    ensures r.combinator == g.combinator
    ensures |r.members| <= |g.members|
  {
    Group(g.combinator, ProcessMembers(g.members))
  }

  /** Cleaning works member by member: it distributes over concatenation, so the
      survivors keep their relative order. */
  lemma {:induction false} ProcessMembersAppend(a: seq<Member>, b: seq<Member>)
    ensures ProcessMembers(a + b) == ProcessMembers(a) + ProcessMembers(b)
  {
    if a == [] {
      assert a + b == b;
    } else {
      assert (a + b)[0] == a[0];
      assert (a + b)[1..] == a[1..] + b;
      ProcessMembersAppend(a[1..], b);
    }
  }

  lemma ProcessMembersSingle(m: Member)
    ensures ProcessMembers([m]) == OptionToSeq(ProcessMember(m))
  {
    assert [m][1..] == [];
  }

  /** A rule occurs in the cleaned list exactly when it occurs in the input and is kept. */
  lemma {:induction false} LeafKeptIff(ms: seq<Member>, f: string, o: string, v: Value)
    ensures Leaf(f, o, v) in ProcessMembers(ms) <==> Leaf(f, o, v) in ms && KeepsLeaf(f, o, v)
  {
    if ms != [] {
      LeafKeptIff(ms[1..], f, o, v);
      assert ms == [ms[0]] + ms[1..];
    }
  }

  function GroupCount(ms: seq<Member>): (n: nat)
    ensures n <= |ms|
  {
    if ms == [] then 0 else (if ms[0].Sub? then 1 else 0) + GroupCount(ms[1..])
  }

  /** Every nested group survives, even an empty one. */
  lemma {:induction false} GroupsKept(ms: seq<Member>)
    ensures GroupCount(ProcessMembers(ms)) == GroupCount(ms)
  {
    if ms != [] {
      GroupsKept(ms[1..]);
      GroupCountAppend(OptionToSeq(ProcessMember(ms[0])), ProcessMembers(ms[1..]));
    }
  }

  lemma {:induction false} GroupCountAppend(a: seq<Member>, b: seq<Member>)
    ensures GroupCount(a + b) == GroupCount(a) + GroupCount(b)
  {
    if a == [] {
      assert a + b == b;
    } else {
      assert (a + b)[0] == a[0];
      assert (a + b)[1..] == a[1..] + b;
      GroupCountAppend(a[1..], b);
    }
  }

  /** A member as cleaning leaves it: a kept rule, or a group with a combinator whose
      members are clean. */
  predicate CleanMember(m: Member)
    decreases m
  {
    match m
    case Leaf(f, o, v) => KeepsLeaf(f, o, v)
    case Sub(g) => g.combinator != "" && CleanMembers(g.members)
  }

  predicate CleanMembers(ms: seq<Member>)
    decreases ms
  {
    forall i :: 0 <= i < |ms| ==> CleanMember(ms[i])
  }

  /** Cleaning produces clean members. */
  lemma {:induction false} ProcessedIsClean(ms: seq<Member>)
    ensures CleanMembers(ProcessMembers(ms))
    decreases ms
  {
    if ms != [] {
      ProcessedIsClean(ms[1..]);
      ProcessedMemberIsClean(ms[0]);
      var head := OptionToSeq(ProcessMember(ms[0]));
      var rest := ProcessMembers(ms[1..]);
      assert forall i :: 0 <= i < |head + rest| ==>
        (head + rest)[i] == (if i < |head| then head[i] else rest[i - |head|]);
    }
  }

  lemma {:induction false} ProcessedMemberIsClean(m: Member)
    ensures ProcessMember(m).Some? ==> CleanMember(ProcessMember(m).value)
    decreases m
  {
    if m.Sub? {
      ProcessedIsClean(m.group.members);
    }
  }

  /** Clean members pass through cleaning unchanged. */
  lemma {:induction false} CleanIsFixed(ms: seq<Member>)
    requires CleanMembers(ms)
    ensures ProcessMembers(ms) == ms
    decreases ms
  {
    if ms != [] {
      assert CleanMember(ms[0]);
      assert CleanMembers(ms[1..]) by {
        assert forall i :: 0 <= i < |ms[1..]| ==> ms[1..][i] == ms[i + 1];
      }
      CleanIsFixed(ms[1..]);
      CleanMemberIsFixed(ms[0]);
      assert ms == [ms[0]] + ms[1..];
    }
  }

  lemma {:induction false} CleanMemberIsFixed(m: Member)
    requires CleanMember(m)
    ensures ProcessMember(m) == Some(m)
    decreases m
  {
    if m.Sub? {
      CleanIsFixed(m.group.members);
    }
  }

  /** Cleaning an already cleaned query changes nothing. */
  lemma ProcessIdempotent(g: Group)
    ensures ProcessQueryRules(ProcessQueryRules(g)) == ProcessQueryRules(g)
  {
    ProcessedIsClean(g.members);
    CleanIsFixed(ProcessMembers(g.members));
  }

  // ---------------------------------------------------------------- column types

  /** The lookup table of `mapPostgresType`, keyed by lower-case Postgres type names. */
  const PgInputTypes: map<string, string> := map[
    "integer" := "number", "bigint" := "number", "int8" := "number", "int4" := "number",
    "numeric" := "number", "real" := "number", "double precision" := "number",
    "boolean" := "checkbox", "date" := "date", "timestamp" := "datetime-local",
    "timestamptz" := "datetime-local", "time" := "time"]

  /** `mapPostgresType`: the input type for a column type, looked up case-insensitively,
      `text` for any type the table does not name. */
  function MapPostgresType(pgType: string): (r: string)
    ensures r in {"number", "checkbox", "date", "datetime-local", "time", "text"}
    ensures r == "text" <==> Lower(pgType) !in PgInputTypes
    ensures Lower(pgType) in PgInputTypes ==> r == PgInputTypes[Lower(pgType)]
  {
    var key := Lower(pgType);
    if key in PgInputTypes then PgInputTypes[key] else "text"
  }

  lemma LowerUpper(s: string)
    ensures Lower(Upper(s)) == Lower(s)
  {
    assert forall i :: 0 <= i < |s| ==> LowerChar(UpperChar(s[i])) == LowerChar(s[i]);
  }

  /** Writing the type name in upper case does not change the input type. */
  lemma MapPostgresTypeIgnoresCase(pgType: string)
    ensures MapPostgresType(Upper(pgType)) == MapPostgresType(pgType)
  {
    LowerUpper(pgType);
  }
}
