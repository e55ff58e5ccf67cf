/** The column picker: the list of columns it offers (the primary table's, then each
    joined table's) and the record of selected columns, keyed by `table.column`, that it
    reports to the page as the projection list. */
module ColumnSelector {
  import opened Wrappers
  import opened QueryTypes

  datatype Column = Column(table: string, column: string)

  /** The record key of a column. */
  function Key(tbl: string, col: string): string {
    tbl + "." + col
  }

  /** The alias a freshly selected column gets. */
  function DefaultAlias(tbl: string, col: string): string {
    tbl + "_" + col
  }

  function DefaultEntry(tbl: string, col: string): ColumnProjection {
    ColumnProjection(tbl, col, DefaultAlias(tbl, col))
  }

  /** The selection record in its key order: JavaScript keeps string keys in insertion
      order, and none of these keys (they all hold a `.`) is an array index. */
  type Entries = seq<(string, ColumnProjection)>

  predicate DistinctKeys(e: Entries) {
    forall i, j :: 0 <= i < j < |e| ==> e[i].0 != e[j].0
  }

  /** The position of `key` in the record, or -1. */
  function Find(e: Entries, key: string): (r: int)
    ensures -1 <= r < |e|
    ensures r >= 0 ==> e[r].0 == key && forall k :: 0 <= k < r ==> e[k].0 != key
    ensures r == -1 <==> forall k :: 0 <= k < |e| ==> e[k].0 != key
  {
    if e == [] then -1
    else if e[0].0 == key then 0
    else
      var k := Find(e[1..], key);
      assert forall i :: 0 < i < |e| ==> e[i] == e[1..][i - 1];
      if k == -1 then -1 else k + 1
  }

  /** Reading a key of the record: its projection, or nothing when the key is absent. */
  function Lookup(e: Entries, key: string): Option<ColumnProjection> {
    var k := Find(e, key);
    if k >= 0 then Some(e[k].1) else None
  }

  /** The record with a key deleted; the other entries keep their order. */
  function Without(e: Entries, key: string): (r: Entries)
    ensures |r| <= |e|
  {
    if e == [] then []
    else (if e[0].0 == key then [] else [e[0]]) + Without(e[1..], key)
  }

  /** The record's projections in insertion order. */
  function Values(e: Entries): (vs: seq<ColumnProjection>)
    ensures |vs| == |e|
    ensures forall i :: 0 <= i < |e| ==> vs[i] == e[i].1
  {
    seq(|e|, i requires 0 <= i < |e| => e[i].1)
  }

  /** The record after `toggle(tbl, col)`: a selected column is dropped, an unselected one
      is added at the end with its default alias. */
  function Toggled(e: Entries, tbl: string, col: string): Entries {
    var key := Key(tbl, col);
    if Find(e, key) >= 0 then Without(e, key) else e + [(key, DefaultEntry(tbl, col))]
  }

  /** The record after `changeAlias(tbl, col, alias)`: the entry keeps its place and gets
      the new alias; an unselected column changes nothing. */
  function WithAlias(e: Entries, tbl: string, col: string, alias: string): (r: Entries)
    ensures |r| == |e|
  {
    var k := Find(e, Key(tbl, col));
    if k >= 0 then e[k := (e[k].0, e[k].1.(alias := alias))] else e
  }

  // ---------------------------------------------------------------- record lemmas

  lemma LookupCons(a: (string, ColumnProjection), r: Entries, x: string)
    ensures Lookup([a] + r, x) == if a.0 == x then Some(a.1) else Lookup(r, x)
  {
    assert ([a] + r)[0] == a;
    assert ([a] + r)[1..] == r;
  }

  lemma LookupHead(e: Entries, x: string)
    requires e != []
    ensures Lookup(e, x) == if e[0].0 == x then Some(e[0].1) else Lookup(e[1..], x)
  {
  }

  lemma {:induction false} WithoutLookup(e: Entries, key: string, other: string)
    ensures Lookup(Without(e, key), key) == None
    ensures other != key ==> Lookup(Without(e, key), other) == Lookup(e, other)
  {
    if e != [] {
      WithoutLookup(e[1..], key, other);
      var rest := Without(e[1..], key);
      LookupHead(e, other);
      if e[0].0 == key {
        assert Without(e, key) == rest;
      } else {
        assert Without(e, key) == [e[0]] + rest;
        LookupCons(e[0], rest, key);
        LookupCons(e[0], rest, other);
      }
    }
  }

  lemma {:induction false} FindAppend(e: Entries, a: (string, ColumnProjection), x: string)
    ensures Find(e + [a], x) == if Find(e, x) >= 0 then Find(e, x) else if a.0 == x then |e| else -1
  {
    if e != [] {
      assert (e + [a])[0] == e[0];
      assert (e + [a])[1..] == e[1..] + [a];
      FindAppend(e[1..], a, x);
    } else {
      assert [] + [a] == [a];
    }
  }

  lemma {:induction false} WithoutKeepsDistinct(e: Entries, key: string)
    requires DistinctKeys(e)
    ensures DistinctKeys(Without(e, key))
    ensures forall i :: 0 <= i < |Without(e, key)| ==> Without(e, key)[i] in e
  {
    if e != [] {
      assert DistinctKeys(e[1..]) by {
        assert forall i :: 0 <= i < |e[1..]| ==> e[1..][i] == e[i + 1];
      }
      WithoutKeepsDistinct(e[1..], key);
      var rest := Without(e[1..], key);
      assert forall i :: 0 <= i < |rest| ==> rest[i] in e[1..];
      assert forall x :: x in e[1..] ==> x.0 != e[0].0 by {
        forall x | x in e[1..] ensures x.0 != e[0].0 {
          var i :| 0 <= i < |e[1..]| && e[1..][i] == x;
          assert x == e[i + 1];
        }
      }
      if e[0].0 != key {
        var r := [e[0]] + rest;
        assert forall i :: 0 < i < |r| ==> r[i] == rest[i - 1];
      }
    }
  }

  lemma {:induction false} WithoutLast(e: Entries, key: string, v: ColumnProjection)
    requires Find(e, key) == -1
    ensures Without(e + [(key, v)], key) == e
  {
    if e == [] {
      assert [(key, v)][1..] == [];
    } else {
      assert Find(e[1..], key) == -1 by {
        assert forall k :: 0 <= k < |e[1..]| ==> e[1..][k] == e[k + 1];
      }
      assert (e + [(key, v)])[1..] == e[1..] + [(key, v)];
      WithoutLast(e[1..], key, v);
      assert e == [e[0]] + e[1..];
    }
  }

  lemma AppendLookup(e: Entries, key: string, v: ColumnProjection, other: string)
    requires Find(e, key) == -1
    ensures Lookup(e + [(key, v)], key) == Some(v)
    ensures other != key ==> Lookup(e + [(key, v)], other) == Lookup(e, other)
  {
    FindAppend(e, (key, v), key);
    FindAppend(e, (key, v), other);
  }

  // ---------------------------------------------------------------- toggle and alias

  /** Toggling adds an unselected column with its default alias and drops a selected one,
      and leaves every other key's entry as it was. */
  lemma ToggleLookup(e: Entries, tbl: string, col: string, other: string)
    ensures Find(e, Key(tbl, col)) == -1 ==>
      Lookup(Toggled(e, tbl, col), Key(tbl, col)) == Some(DefaultEntry(tbl, col))
    ensures Find(e, Key(tbl, col)) >= 0 ==> Lookup(Toggled(e, tbl, col), Key(tbl, col)) == None
    ensures other != Key(tbl, col) ==> Lookup(Toggled(e, tbl, col), other) == Lookup(e, other)
  {
    var key := Key(tbl, col);
    if Find(e, key) >= 0 {
      WithoutLookup(e, key, other);
    } else {
      AppendLookup(e, key, DefaultEntry(tbl, col), other);
    }
  }

  /** A newly selected column is reported last. */
  lemma ToggleAbsentValues(e: Entries, tbl: string, col: string)
    requires Find(e, Key(tbl, col)) == -1
    ensures Values(Toggled(e, tbl, col)) == Values(e) + [DefaultEntry(tbl, col)]
  {
  }

  /** Toggling an unselected column twice restores the record exactly. */
  lemma ToggleTwiceAbsent(e: Entries, tbl: string, col: string)
    requires Find(e, Key(tbl, col)) == -1
    ensures Toggled(Toggled(e, tbl, col), tbl, col) == e
  {
    var key := Key(tbl, col);
    FindAppend(e, (key, DefaultEntry(tbl, col)), key);
    WithoutLast(e, key, DefaultEntry(tbl, col));
  }

  /** Toggling a selected column twice brings it back with its default alias, at the end. */
  lemma ToggleTwicePresent(e: Entries, tbl: string, col: string)
    requires Find(e, Key(tbl, col)) >= 0
    ensures Lookup(Toggled(Toggled(e, tbl, col), tbl, col), Key(tbl, col)) == Some(DefaultEntry(tbl, col))
  {
    var key := Key(tbl, col);
    WithoutLookup(e, key, key);
    var e1 := Without(e, key);
    assert Find(e1, key) == -1;
    AppendLookup(e1, key, DefaultEntry(tbl, col), key);
  }

  lemma ToggleKeepsDistinct(e: Entries, tbl: string, col: string)
    requires DistinctKeys(e)
    ensures DistinctKeys(Toggled(e, tbl, col))
  {
    var key := Key(tbl, col);
    if Find(e, key) >= 0 {
      WithoutKeepsDistinct(e, key);
    }
  }

  /** Changing the alias of a selected column changes that entry's alias and nothing else;
      for an unselected column it changes nothing. */
  lemma AliasLookup(e: Entries, tbl: string, col: string, alias: string, other: string)
    requires DistinctKeys(e)
    ensures Find(e, Key(tbl, col)) == -1 ==> WithAlias(e, tbl, col, alias) == e
    ensures Lookup(e, Key(tbl, col)).Some? ==>
      Lookup(WithAlias(e, tbl, col, alias), Key(tbl, col)) == Some(Lookup(e, Key(tbl, col)).value.(alias := alias))
    ensures other != Key(tbl, col) ==> Lookup(WithAlias(e, tbl, col, alias), other) == Lookup(e, other)
  {
    var key := Key(tbl, col);
    var k := Find(e, key);
    if k >= 0 {
      var e2 := WithAlias(e, tbl, col, alias);
      assert forall i :: 0 <= i < |e| ==> e2[i].0 == e[i].0;
      assert Find(e2, key) == k;
      var j := Find(e, other);
      if other != key {
        if j >= 0 {
          assert Find(e2, other) == j;
        } else {
          assert Find(e2, other) == -1;
        }
      }
    }
  }

  lemma AliasKeepsDistinct(e: Entries, tbl: string, col: string, alias: string)
    requires DistinctKeys(e)
    ensures DistinctKeys(WithAlias(e, tbl, col, alias))
  {
    var e2 := WithAlias(e, tbl, col, alias);
    assert forall i :: 0 <= i < |e| ==> e2[i].0 == e[i].0;
  }

  // ---------------------------------------------------------------- loaded columns

  function Tag(tbl: string, names: seq<string>): (cs: seq<Column>)
    ensures |cs| == |names|
    ensures forall i :: 0 <= i < |names| ==> cs[i] == Column(tbl, names[i])
  {
    seq(|names|, i requires 0 <= i < |names| => Column(tbl, names[i]))
  }

  /** The columns of the joined tables, join by join. */
  function JoinColumns(joins: seq<JoinConfig>, fetched: string -> seq<string>): seq<Column> {
    if joins == [] then []
    else JoinColumns(joins[..|joins| - 1], fetched) + Tag(joins[|joins| - 1].targetTable, fetched(joins[|joins| - 1].targetTable))
  }

  /** Every offered column belongs to a joined table. */
  lemma {:induction false} JoinColumnsFromJoins(joins: seq<JoinConfig>, fetched: string -> seq<string>)
    ensures forall c :: c in JoinColumns(joins, fetched) ==>
      exists k :: 0 <= k < |joins| && joins[k].targetTable == c.table
  {
    if joins != [] {
      var init := joins[..|joins| - 1];
      JoinColumnsFromJoins(init, fetched);
      assert forall k :: 0 <= k < |init| ==> init[k] == joins[k];
      forall c | c in JoinColumns(joins, fetched)
        ensures exists k :: 0 <= k < |joins| && joins[k].targetTable == c.table
      {
        if c !in JoinColumns(init, fetched) {
          var j := joins[|joins| - 1];
          assert c in Tag(j.targetTable, fetched(j.targetTable));
          assert joins[|joins| - 1].targetTable == c.table;
        }
      }
    }
  }

  class Selector {
    var columns: seq<Column>
    var selected: Entries
    /** The argument of every `onColumnsChange` call so far, oldest first. */
    var reported: seq<seq<ColumnProjection>>

    /** The selection holds each key at most once, as an object does. */
    predicate Valid()
      reads this`selected
    {
      DistinctKeys(selected)
    }

    constructor ()
      ensures columns == [] && selected == [] && reported == []
      ensures Valid()
    {
      columns := [];
      selected := [];
      reported := [];
    }

    /** `loadColumns`, with `fetched` giving the column names the endpoint returns for a
        table (none when the request fails): the primary table's columns first, then each
        joined table's, in join order. */
    method LoadColumns(table: string, joins: seq<JoinConfig>, fetched: string -> seq<string>)
      modifies this`columns
      ensures columns == Tag(table, fetched(table)) + JoinColumns(joins, fetched)
      ensures columns[..|fetched(table)|] == Tag(table, fetched(table))
    {
      var all: seq<Column> := [];
      all := all + Tag(table, fetched(table));
      for i := 0 to |joins|
        invariant all == Tag(table, fetched(table)) + JoinColumns(joins[..i], fetched)
      {
        var j := joins[i];
        assert joins[..i + 1][..i] == joins[..i];
        all := all + Tag(j.targetTable, fetched(j.targetTable));
      }
      assert joins[..|joins|] == joins;
      columns := all;
    }

    /** `toggle(tbl, col)`. */
    method Toggle(tbl: string, col: string)
      requires Valid()
      modifies this`selected, this`reported
      ensures Valid()
      ensures selected == Toggled(old(selected), tbl, col)
      ensures reported == old(reported) + [Values(selected)]
    {
      ToggleKeepsDistinct(selected, tbl, col);
      var key := Key(tbl, col);
      var updated := selected;
      if Find(updated, key) >= 0 {
        updated := Without(updated, key);
      } else {
        updated := updated + [(key, DefaultEntry(tbl, col))];
      }
      selected := updated;
      reported := reported + [Values(updated)];
    }

    /** `changeAlias(tbl, col, value)`: nothing is reported for an unselected column. */
    method ChangeAlias(tbl: string, col: string, value: string)
      requires Valid()
      modifies this`selected, this`reported
      ensures Valid()
      ensures selected == WithAlias(old(selected), tbl, col, value)
      ensures Find(old(selected), Key(tbl, col)) >= 0 ==> reported == old(reported) + [Values(selected)]
      ensures Find(old(selected), Key(tbl, col)) == -1 ==> reported == old(reported)
    {
      AliasKeepsDistinct(selected, tbl, col, value);
      var key := Key(tbl, col);
      var k := Find(selected, key);
      if k >= 0 {
        var updated := selected[k := (selected[k].0, selected[k].1.(alias := value))];
        selected := updated;
        reported := reported + [Values(updated)];
      }
    }
  }
}
