/**
 * The identifier normaliser of new_compare.py: every metadata row
 * `(table_schema, table_name, column_name)` becomes one flat identifier
 * `"schema.table.column"`, joined with a bare '.'.
 */
module Normalize {

  /** One row of `select table_schema, table_name, column_name from columns`. */
  datatype MetaRow = MetaRow(tableSchema: string, tableName: string, columnName: string)

  /**
   * The list comprehension over a host's result set: one identifier per
   * row, in row order.
   */
  function FlattenRows(rows: seq<MetaRow>): (ids: seq<string>)
    ensures |ids| == |rows|
    ensures forall i :: 0 <= i < |rows| ==> ids[i] == Flatten(rows[i])
    ensures forall x :: x in ids <==> exists r :: r in rows && Flatten(r) == x
  {
    var ids := seq(|rows|, i requires 0 <= i < |rows| => Flatten(rows[i]));
    assert forall r :: r in rows ==> Flatten(r) in ids by {
      forall r | r in rows ensures Flatten(r) in ids {
        var k :| 0 <= k < |rows| && rows[k] == r;
        assert ids[k] == Flatten(r);
      }
    }
    ids
  }

  predicate DotFree(s: string)
  {
    '.' !in s
  }

  /** Python's `s.split('.')`: the pieces between the dots, in order. */
  function SplitDots(s: string): (parts: seq<string>)
    ensures |parts| >= 1
    decreases |s|
  {
    if |s| == 0 then [""]
    else
      var rest := SplitDots(s[1..]);
      if s[0] == '.' then [""] + rest
      else [[s[0]] + rest[0]] + rest[1..]
  }

  lemma {:induction false} SplitDotFree(c: string)
    requires DotFree(c)
    ensures SplitDots(c) == [c]
    decreases |c|
  {
    if |c| > 0 {
      assert DotFree(c[1..]) by {
        assert forall k :: 0 <= k < |c[1..]| ==> c[1..][k] == c[k + 1];
      }
      SplitDotFree(c[1..]);
      assert c == [c[0]] + c[1..];
    }
  }

  lemma {:induction false} SplitAfterDotFree(a: string, rest: string)
    requires DotFree(a)
    ensures SplitDots(a + "." + rest) == [a] + SplitDots(rest)
    decreases |a|
  {
    var s := a + "." + rest;
    if |a| == 0 {
      assert s[0] == '.' && s[1..] == rest;
    } else {
      assert s[0] == a[0] && a[0] != '.';
      assert s[1..] == a[1..] + "." + rest;
      assert DotFree(a[1..]) by {
        assert forall k :: 0 <= k < |a[1..]| ==> a[1..][k] == a[k + 1];
      }
      SplitAfterDotFree(a[1..], rest);
      assert a == [a[0]] + a[1..];
    }
  }

  /**
   * `'.'.join([row['table_schema'], row['table_name'], row['column_name']])`.
   * When no component contains the separator, splitting the identifier at
   * its dots gives back the three components in order.
   */
  function Flatten(row: MetaRow): (id: string)
    ensures DotFree(row.tableSchema) && DotFree(row.tableName) && DotFree(row.columnName) ==>
      SplitDots(id) == [row.tableSchema, row.tableName, row.columnName]
  {
    var s, t, c := row.tableSchema, row.tableName, row.columnName;
    if DotFree(s) && DotFree(t) && DotFree(c) then
      SplitAfterDotFree(s, t + "." + c);
      SplitAfterDotFree(t, c);
      SplitDotFree(c);
      assert s + "." + t + "." + c == s + "." + (t + "." + c);
      s + "." + t + "." + c
    else
      s + "." + t + "." + c
  }

  /** Hence flattening is injective on rows whose components are dot-free. */
  lemma FlattenInjectiveOnDotFree(r1: MetaRow, r2: MetaRow)
    requires DotFree(r1.tableSchema) && DotFree(r1.tableName) && DotFree(r1.columnName)
    requires DotFree(r2.tableSchema) && DotFree(r2.tableName) && DotFree(r2.columnName)
    requires Flatten(r1) == Flatten(r2)
    ensures r1 == r2
  {
    assert SplitDots(Flatten(r1)) == SplitDots(Flatten(r2));
  }

  /**
   * The bare '.' join is not injective once a component contains a dot:
   * two different rows share one identifier. The source accepts this risk.
   */
  lemma FlattenCollision()
    ensures MetaRow("a.b", "c", "d") != MetaRow("a", "b.c", "d")
    ensures Flatten(MetaRow("a.b", "c", "d")) == Flatten(MetaRow("a", "b.c", "d")) == "a.b.c.d"
  {
  }

  /**
   * Empty components are kept, not dropped: for dot-free components, the
   * identifier still splits into three parts, and a part is empty exactly
   * when its component is.
   */
  lemma FlattenKeepsEmptyComponents(row: MetaRow)
    requires DotFree(row.tableSchema) && DotFree(row.tableName) && DotFree(row.columnName)
    ensures |SplitDots(Flatten(row))| == 3
    ensures SplitDots(Flatten(row))[0] == "" <==> row.tableSchema == ""
    ensures SplitDots(Flatten(row))[1] == "" <==> row.tableName == ""
    ensures SplitDots(Flatten(row))[2] == "" <==> row.columnName == ""
  {
    var parts := SplitDots(Flatten(row));
    assert parts == [row.tableSchema, row.tableName, row.columnName];
  }
}
