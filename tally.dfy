/**
 * The presence tally of original_compare.py: for every server, each name in
 * its DISTINCT schema list (and, separately, its DISTINCT `schema.table`
 * list) bumps a counter in a `defaultdict(int)`; afterwards every name whose
 * counter differs from the number of servers is reported, since such a name
 * is missing from at least one server.
 */
module Tally {
  import opened Normalize

  /** What one server's two queries return. */
  datatype ServerMetadata = ServerMetadata(schemas: seq<string>, tables: seq<(string, string)>)

  /**
   * A `defaultdict(int)` from name to count; `order` holds the keys in
   * insertion order, the order in which Python iterates them.
   */
  datatype CountDict = CountDict(order: seq<string>, count: map<string, nat>)

  predicate NoDuplicates(s: seq<string>)
  {
    forall i, j :: 0 <= i < j < |s| ==> s[i] != s[j]
  }

  /** Keys listed once each, exactly the keys of the map, every count at least 1. */
  ghost predicate Valid(d: CountDict)
  {
    && NoDuplicates(d.order)
    && (forall k :: k in d.count <==> k in d.order)
    && (forall k :: k in d.count ==> d.count[k] >= 1)
  }

  /**
   * Reading a `defaultdict(int)`: a missing key reads as 0, so in a valid
   * dictionary a count is positive exactly for a key already inserted.
   */
  function Get(d: CountDict, k: string): (c: nat)
    ensures Valid(d) ==> (c > 0 <==> k in d.order)
  {
    if k in d.count then d.count[k] else 0
  }

  /**
   * The branch at original_compare.py:24-27 (and 32-35): the first sighting
   * stores 1 and later sightings add 1, which is a `+1` on a map read with
   * default 0; a new key goes to the end of the insertion order.
   */
  function Bump(d: CountDict, k: string): (d': CountDict)
    requires Valid(d)
    ensures Valid(d')
    ensures d'.count == d.count[k := Get(d, k) + 1]
    ensures d'.order == if k in d.order then d.order else d.order + [k]
  {
    if k !in d.count then CountDict(d.order + [k], d.count[k := 1])
    else CountDict(d.order, d.count[k := d.count[k] + 1])
  }

  /** The insertion order after seeing `records`: unseen names appended at first sighting. */
  function AppendNew(order: seq<string>, records: seq<string>): seq<string>
    decreases |records|
  {
    if |records| == 0 then order
    else AppendNew(if records[0] in order then order else order + [records[0]], records[1..])
  }

  /** The key order after all servers' lists, first sighting first. */
  function KeyOrder(order: seq<string>, lists: seq<seq<string>>): seq<string>
    decreases |lists|
  {
    if |lists| == 0 then order else KeyOrder(AppendNew(order, lists[0]), lists[1..])
  }

  /** How often `k` occurs over all the lists. */
  function TotalCount(lists: seq<seq<string>>, k: string): nat
    decreases |lists|
  {
    if |lists| == 0 then 0
    else TotalCount(lists[..|lists| - 1], k) + multiset(lists[|lists| - 1])[k]
  }

  /** How many of the lists contain `k`. */
  function ServersWith(lists: seq<seq<string>>, k: string): nat
    decreases |lists|
  {
    if |lists| == 0 then 0
    else ServersWith(lists[..|lists| - 1], k) + (if k in lists[|lists| - 1] then 1 else 0)
  }

  /** The dictionary the loops are meant to leave behind. */
  function Tallied(lists: seq<seq<string>>): CountDict
  {
    var order := KeyOrder([], lists);
    CountDict(order, map k | k in order :: TotalCount(lists, k))
  }

  /**
   * One `for record in result_set` loop (original_compare.py:23-27 for
   * schemas, 31-35 for tables): every count goes up by the number of times
   * its name occurs in `records`, every other entry is left as it was, and
   * new names join the key order at their first sighting.
   */
  method TallyRecords(d: CountDict, records: seq<string>) returns (d': CountDict)
    requires Valid(d)
    ensures Valid(d')
    ensures d'.order == AppendNew(d.order, records)
    ensures forall k :: Get(d', k) == Get(d, k) + multiset(records)[k]
  {
    d' := d;
    for i := 0 to |records|
      invariant Valid(d')
      invariant AppendNew(d'.order, records[i..]) == AppendNew(d.order, records)
      invariant forall k :: Get(d', k) == Get(d, k) + multiset(records[..i])[k]
    {
      assert records[i..][0] == records[i] && records[i..][1..] == records[i + 1..];
      assert records[..i + 1] == records[..i] + [records[i]];
      d' := Bump(d', records[i]);
    }
    assert records[..|records|] == records;
  }

  /** `CONCAT(TABLE_SCHEMA, '.', TABLE_NAME)`, the key of a table. */
  function TableKey(schema: string, table: string): string
  {
    schema + "." + table
  }

  /** A key ends in a dot-free table name after the schema and one dot: dot-free pairs split back. */
  lemma TableKeySplit(schema: string, table: string)
    requires DotFree(schema) && DotFree(table)
    ensures SplitDots(TableKey(schema, table)) == [schema, table]
  {
    SplitAfterDotFree(schema, table);
    SplitDotFree(table);
  }

  /**
   * Two different pairs can share a key once a name contains a dot, so the
   * DISTINCT of the tables query makes the keys distinct, not the pairs.
   */
  lemma TableKeyCollision()
    ensures ("a.b", "c") != ("a", "b.c")
    ensures TableKey("a.b", "c") == TableKey("a", "b.c") == "a.b.c"
  {
  }

  /** The keys of a server's table rows: one per row, and exactly the keys of its rows. */
  function TableKeys(tables: seq<(string, string)>): (keys: seq<string>)
    ensures |keys| == |tables|
    ensures forall k :: k in keys <==> exists p :: p in tables && TableKey(p.0, p.1) == k
  {
    var keys := seq(|tables|, i requires 0 <= i < |tables| => TableKey(tables[i].0, tables[i].1));
    assert forall p :: p in tables ==> TableKey(p.0, p.1) in keys by {
      forall p | p in tables ensures TableKey(p.0, p.1) in keys {
        var i :| 0 <= i < |tables| && tables[i] == p;
        assert keys[i] == TableKey(p.0, p.1);
      }
    }
    keys
  }

  function SchemaLists(servers: seq<ServerMetadata>): seq<seq<string>>
  {
    seq(|servers|, i requires 0 <= i < |servers| => servers[i].schemas)
  }

  function TableLists(servers: seq<ServerMetadata>): seq<seq<string>>
  {
    seq(|servers|, i requires 0 <= i < |servers| => TableKeys(servers[i].tables))
  }

  lemma TalliedFrom(d: CountDict, lists: seq<seq<string>>)
    requires Valid(d)
    requires d.order == KeyOrder([], lists)
    requires forall k :: Get(d, k) == TotalCount(lists, k)
    ensures d == Tallied(lists)
  {
    var t := Tallied(lists);
    forall k | k in d.count
      ensures k in t.count && d.count[k] == t.count[k]
    {
      assert Get(d, k) == d.count[k];
    }
    assert d.count == t.count;
  }

  /**
   * The server loop (original_compare.py:6-8, 11-35): both dictionaries end
   * up as the tally of all servers' lists, with keys in first-sighting
   * order.
   */
  method Survey(servers: seq<ServerMetadata>) returns (schemaDict: CountDict, tableDict: CountDict)
    ensures Valid(schemaDict) && Valid(tableDict)
    ensures schemaDict == Tallied(SchemaLists(servers))
    ensures tableDict == Tallied(TableLists(servers))
  {
    ghost var schemaLists, tableLists := SchemaLists(servers), TableLists(servers);
    schemaDict, tableDict := CountDict([], map[]), CountDict([], map[]);
    for i := 0 to |servers|
      invariant Valid(schemaDict) && Valid(tableDict)
      invariant KeyOrder(schemaDict.order, schemaLists[i..]) == KeyOrder([], schemaLists)
      invariant KeyOrder(tableDict.order, tableLists[i..]) == KeyOrder([], tableLists)
      invariant forall k :: Get(schemaDict, k) == TotalCount(schemaLists[..i], k)
      invariant forall k :: Get(tableDict, k) == TotalCount(tableLists[..i], k)
    {
      assert schemaLists[i..][0] == schemaLists[i] && schemaLists[i..][1..] == schemaLists[i + 1..];
      assert tableLists[i..][0] == tableLists[i] && tableLists[i..][1..] == tableLists[i + 1..];
      assert schemaLists[..i + 1][..i] == schemaLists[..i];
      assert tableLists[..i + 1][..i] == tableLists[..i];
      schemaDict := TallyRecords(schemaDict, servers[i].schemas);
      tableDict := TallyRecords(tableDict, TableKeys(servers[i].tables));
    }
    assert schemaLists[..|servers|] == schemaLists;
    assert tableLists[..|servers|] == tableLists;
    TalliedFrom(schemaDict, schemaLists);
    TalliedFrom(tableDict, tableLists);
  }

  /** A count is positive exactly when some list holds the name. */
  lemma {:induction false} TotalCountPositive(lists: seq<seq<string>>, k: string)
    ensures TotalCount(lists, k) > 0 <==> exists i :: 0 <= i < |lists| && k in lists[i]
    decreases |lists|
  {
    if |lists| > 0 {
      var init := lists[..|lists| - 1];
      TotalCountPositive(init, k);
      assert forall i :: 0 <= i < |init| ==> init[i] == lists[i];
      assert k in lists[|lists| - 1] <==> multiset(lists[|lists| - 1])[k] > 0;
    }
  }

  lemma {:induction false} AppendNewElements(order: seq<string>, records: seq<string>, x: string)
    ensures x in AppendNew(order, records) <==> x in order || x in records
    decreases |records|
  {
    if |records| > 0 {
      var order' := if records[0] in order then order else order + [records[0]];
      AppendNewElements(order', records[1..], x);
      assert records == [records[0]] + records[1..];
    }
  }

  lemma {:induction false} KeyOrderElements(order: seq<string>, lists: seq<seq<string>>, x: string)
    ensures x in KeyOrder(order, lists) <==> x in order || exists i :: 0 <= i < |lists| && x in lists[i]
    decreases |lists|
  {
    if |lists| > 0 {
      AppendNewElements(order, lists[0], x);
      KeyOrderElements(AppendNew(order, lists[0]), lists[1..], x);
      assert forall i :: 0 < i < |lists| ==> lists[1..][i - 1] == lists[i];
      if exists i :: 0 <= i < |lists| && x in lists[i] {
        var i :| 0 <= i < |lists| && x in lists[i];
        if i > 0 {
          assert x in lists[1..][i - 1];
        }
      }
    }
  }

  /** The keys of the tally are exactly the names seen on some server. */
  lemma TalliedKeys(lists: seq<seq<string>>, k: string)
    ensures k in Tallied(lists).count <==> exists i :: 0 <= i < |lists| && k in lists[i]
  {
    KeyOrderElements([], lists, k);
  }

  lemma {:induction false} DistinctOccursOnce(s: seq<string>, k: string)
    requires NoDuplicates(s)
    ensures multiset(s)[k] == if k in s then 1 else 0
    decreases |s|
  {
    if |s| > 0 {
      var init := s[..|s| - 1];
      assert s == init + [s[|s| - 1]];
      assert NoDuplicates(init);
      DistinctOccursOnce(init, k);
      assert k in s <==> k in init || k == s[|s| - 1];
      assert s[|s| - 1] !in init;
    }
  }

  /**
   * With DISTINCT per-server lists, a name's count is the number of servers
   * that have it, between 1 and the number of servers for a seen name.
   */
  lemma {:induction false} DistinctCountIsServers(lists: seq<seq<string>>, k: string)
    requires forall i :: 0 <= i < |lists| ==> NoDuplicates(lists[i])
    ensures TotalCount(lists, k) == ServersWith(lists, k)
    ensures ServersWith(lists, k) <= |lists|
    ensures ServersWith(lists, k) == |lists| <==> forall i :: 0 <= i < |lists| ==> k in lists[i]
    decreases |lists|
  {
    if |lists| > 0 {
      var init := lists[..|lists| - 1];
      assert forall i :: 0 <= i < |init| ==> init[i] == lists[i];
      DistinctCountIsServers(init, k);
      DistinctOccursOnce(lists[|lists| - 1], k);
      if ServersWith(lists, k) == |lists| {
        assert ServersWith(init, k) == |init|;
      }
    }
  }

  /** With DISTINCT per-server lists, every tallied count lies in 1..number of servers. */
  lemma TalliedCountBounds(lists: seq<seq<string>>, k: string)
    requires forall i :: 0 <= i < |lists| ==> NoDuplicates(lists[i])
    requires k in Tallied(lists).count
    ensures 1 <= Tallied(lists).count[k] <= |lists|
  {
    TalliedKeys(lists, k);
    TotalCountPositive(lists, k);
    DistinctCountIsServers(lists, k);
  }

  /** The report lines the filter yields, in key order, each with its own count. */
  function Missing(order: seq<string>, count: map<string, nat>, n: nat): seq<(string, nat)>
    requires forall k :: k in order ==> k in count
    decreases |order|
  {
    if |order| == 0 then []
    else
      var k := order[|order| - 1];
      Missing(order[..|order| - 1], count, n) + if count[k] != n then [(k, count[k])] else []
  }

  /** A line is reported exactly for a key whose count differs from `n`, paired with that count. */
  lemma {:induction false} MissingMembership(order: seq<string>, count: map<string, nat>, n: nat, k: string, c: nat)
    requires forall k :: k in order ==> k in count
    ensures (k, c) in Missing(order, count, n) <==> k in order && count[k] != n && c == count[k]
    decreases |order|
  {
    if |order| > 0 {
      var init := order[..|order| - 1];
      MissingMembership(init, count, n, k, c);
      assert order == init + [order[|order| - 1]];
    }
  }

  /**
   * The report loop (original_compare.py:36-42): every key, in dictionary
   * order, whose count differs from `serverCount`, with that key's own
   * count. For tables the source prints `table_dict[schema]` (line 42,
   * MissingAsWritten); the model pairs each table with `table_dict[table]`.
   */
  method ReportMissing(d: CountDict, serverCount: nat) returns (lines: seq<(string, nat)>)
    requires Valid(d)
    ensures lines == Missing(d.order, d.count, serverCount)
  {
    lines := [];
    for i := 0 to |d.order|
      invariant lines == Missing(d.order[..i], d.count, serverCount)
    {
      var name := d.order[i];
      assert d.order[..i + 1][..i] == d.order[..i];
      if d.count[name] != serverCount {
        lines := lines + [(name, d.count[name])];
      }
    }
    assert d.order[..|d.order|] == d.order;
  }

  /** A name seen on some server but absent from another. */
  ghost predicate NotOnAllServers(lists: seq<seq<string>>, k: string)
  {
    && (exists i :: 0 <= i < |lists| && k in lists[i])
    && (exists j :: 0 <= j < |lists| && k !in lists[j])
  }

  lemma ReportedIffNotOnAll(lists: seq<seq<string>>, d: CountDict, k: string, c: nat)
    requires forall i :: 0 <= i < |lists| ==> NoDuplicates(lists[i])
    requires d == Tallied(lists)
    ensures (k, c) in Missing(d.order, d.count, |lists|) <==> NotOnAllServers(lists, k) && c == ServersWith(lists, k)
  {
    MissingMembership(d.order, d.count, |lists|, k, c);
    TalliedKeys(lists, k);
    DistinctCountIsServers(lists, k);
    var everywhere := forall i :: 0 <= i < |lists| ==> k in lists[i];
    assert (exists j :: 0 <= j < |lists| && k !in lists[j]) <==> !everywhere;
  }

  /**
   * The whole script on the servers' query results: the schema lines and
   * the table lines it reports, in dictionary order, are exactly the names
   * missing from some server, each with the number of servers that have it.
   */
  method CompareServers(servers: seq<ServerMetadata>) returns (schemaLines: seq<(string, nat)>, tableLines: seq<(string, nat)>)
    requires forall i :: 0 <= i < |servers| ==> NoDuplicates(servers[i].schemas)
    requires forall i :: 0 <= i < |servers| ==> NoDuplicates(TableKeys(servers[i].tables))
    ensures schemaLines == Missing(Tallied(SchemaLists(servers)).order, Tallied(SchemaLists(servers)).count, |servers|)
    ensures tableLines == Missing(Tallied(TableLists(servers)).order, Tallied(TableLists(servers)).count, |servers|)
    ensures forall k, c :: (k, c) in schemaLines <==>
      NotOnAllServers(SchemaLists(servers), k) && c == ServersWith(SchemaLists(servers), k)
    ensures forall k, c :: (k, c) in tableLines <==>
      NotOnAllServers(TableLists(servers), k) && c == ServersWith(TableLists(servers), k)
  {
    var serverCount := |servers|;
    var schemaDict, tableDict := Survey(servers);
    schemaLines := ReportMissing(schemaDict, serverCount);
    tableLines := ReportMissing(tableDict, serverCount);
    forall k, c ensures (k, c) in schemaLines <==>
      NotOnAllServers(SchemaLists(servers), k) && c == ServersWith(SchemaLists(servers), k)
    {
      ReportedIffNotOnAll(SchemaLists(servers), schemaDict, k, c);
    }
    forall k, c ensures (k, c) in tableLines <==>
      NotOnAllServers(TableLists(servers), k) && c == ServersWith(TableLists(servers), k)
    {
      ReportedIffNotOnAll(TableLists(servers), tableDict, k, c);
    }
  }

  /** original_compare.py:40-42 as written: each table is printed with `table_dict[schema]`. */
  function MissingAsWritten(order: seq<string>, count: map<string, nat>, n: nat, schema: string): (lines: seq<(string, nat)>)
    requires forall k :: k in order ==> k in count
    ensures forall i :: 0 <= i < |lines| ==> lines[i].1 == if schema in count then count[schema] else 0
    decreases |order|
  {
    if |order| == 0 then []
    else
      var k := order[|order| - 1];
      var printed := if schema in count then count[schema] else 0;
      MissingAsWritten(order[..|order| - 1], count, n, schema) + if count[k] != n then [(k, printed)] else []
  }

  /**
   * The table report of the whole script as written: line 42 reads
   * `schema`, which the loop at line 37 left at the last schema key.
   */
  function TableLinesAsWritten(servers: seq<ServerMetadata>): (lines: seq<(string, nat)>)
    requires |Tallied(SchemaLists(servers)).order| > 0
    ensures var schemas := Tallied(SchemaLists(servers)).order;
      forall i :: 0 <= i < |lines| ==> lines[i].1 == Get(Tallied(TableLists(servers)), schemas[|schemas| - 1])
  {
    var schemas := Tallied(SchemaLists(servers));
    var tables := Tallied(TableLists(servers));
    MissingAsWritten(tables.order, tables.count, |servers|, schemas.order[|schemas.order| - 1])
  }

  lemma ExampleLists(servers: seq<ServerMetadata>)
    requires servers == [ServerMetadata(["a"], [("a", "t")]), ServerMetadata(["a"], [])]
    ensures SchemaLists(servers) == [["a"], ["a"]]
    ensures TableLists(servers) == [["a.t"], []]
  {
    assert TableKeys([("a", "t")]) == ["a.t"] by {
      var keys := TableKeys([("a", "t")]);
      assert keys[0] in keys;
      assert TableKey("a", "t") == "a.t";
    }
    assert TableKeys([]) == [];
  }

  lemma ExampleSchemaOrder()
    ensures KeyOrder([], [["a"], ["a"]]) == ["a"]
  {
    var lists: seq<seq<string>> := [["a"], ["a"]];
    assert AppendNew([], ["a"]) == ["a"] by {
      assert ["a"][1..] == [];
    }
    assert AppendNew(["a"], ["a"]) == ["a"] by {
      assert ["a"][1..] == [];
    }
    assert lists[1..] == [["a"]] && lists[1..][1..] == [];
  }

  lemma ExampleTableTally()
    ensures Tallied([["a.t"], []]) == CountDict(["a.t"], map["a.t" := 1])
  {
    var lists: seq<seq<string>> := [["a.t"], []];
    assert AppendNew([], ["a.t"]) == ["a.t"] by {
      assert ["a.t"][1..] == [];
    }
    assert lists[1..] == [[]] && lists[1..][1..] == [];
    assert KeyOrder([], lists) == ["a.t"];
    assert lists[..1] == [["a.t"]] && lists[..1][..0] == [];
    assert TotalCount(lists, "a.t") == 1;
  }

  /**
   * Two servers both have schema "a"; only the first has table "a.t". The
   * script as written prints `a.t:0`; the table's own count is 1.
   */
  lemma ScriptLine42Counterexample(servers: seq<ServerMetadata>)
    requires servers == [ServerMetadata(["a"], [("a", "t")]), ServerMetadata(["a"], [])]
    ensures Tallied(SchemaLists(servers)).order == ["a"]
    ensures TableLinesAsWritten(servers) == [("a.t", 0)]
    ensures Missing(Tallied(TableLists(servers)).order, Tallied(TableLists(servers)).count, |servers|) == [("a.t", 1)]
  {
    ExampleLists(servers);
    ExampleSchemaOrder();
    ExampleTableTally();
    Line42PrintsOtherCount();
  }

  /**
   * With two servers, a table "a.t" seen once and `schema` left at "a" by
   * the loop before, line 42 prints 0 where the table's count is 1.
   */
  lemma Line42PrintsOtherCount()
    ensures MissingAsWritten(["a.t"], map["a.t" := 1], 2, "a") == [("a.t", 0)]
    ensures Missing(["a.t"], map["a.t" := 1], 2) == [("a.t", 1)]
  {
  }
}
