/**
 * The schema-drift engine of new_compare.py `main`: every host's metadata
 * rows are flattened to identifiers, the identifiers of all hosts are
 * merged into one sorted master list, and each identifier gets a report row
 * with one presence flag per host. The first host is the baseline.
 *
 * The function as written cannot run; this model follows what its comments
 * describe, and each place where the code says otherwise is noted below.
 */
module SchemaDiff {
  import opened Wrappers
  import opened Lex
  import opened Normalize

  /** A host's `host` entry, used as its key and as its report column. */
  type HostLabel = string

  /** One row of the report: `object_name` and a flag per host. */
  datatype ReportRow = ReportRow(objectName: string, flags: map<HostLabel, bool>)

  /** The source raises IndexError at `hosts[0]` when no host is configured. */
  datatype ConfigError = NoHosts

  /**
   * `db_cursor.fetchall() or []`: a missing result set counts as no rows,
   * and a present one is kept as it is.
   */
  function RowsOrEmpty(fetched: Option<seq<MetaRow>>): (rows: seq<MetaRow>)
    ensures rows == [] <==> fetched == None || fetched == Some([])
    ensures fetched.Some? ==> rows == fetched.value
  {
    match fetched
    case None => []
    case Some(rows) => rows
  }

  /** The identifiers of host `h`, as the query rows for it flatten. */
  function HostIds(fetched: map<HostLabel, Option<seq<MetaRow>>>, h: HostLabel): seq<string>
    requires h in fetched
  {
    FlattenRows(RowsOrEmpty(fetched[h]))
  }

  /** The `results` dictionary the host loop is meant to build. */
  function Results(hosts: seq<HostLabel>, fetched: map<HostLabel, Option<seq<MetaRow>>>): map<HostLabel, seq<string>>
    requires forall h :: h in hosts ==> h in fetched
  {
    map h | h in hosts :: HostIds(fetched, h)
  }

  /** A host whose result set is None or empty has no identifiers. */
  lemma NoRowsNoIds(fetched: map<HostLabel, Option<seq<MetaRow>>>, h: HostLabel)
    requires h in fetched && (fetched[h] == None || fetched[h] == Some([]))
    ensures HostIds(fetched, h) == []
  {
  }

  /** An identifier belongs to a host exactly when one of its rows flattens to it. */
  lemma HostIdsMembership(fetched: map<HostLabel, Option<seq<MetaRow>>>, h: HostLabel, x: string)
    requires h in fetched && fetched[h].Some?
    ensures x in HostIds(fetched, h) <==> exists r :: r in fetched[h].value && Flatten(r) == x
  {
  }

  /**
   * The host loop (new_compare.py:9-61): one identifier list per host.
   * The source keys `results` by `host.host`, an attribute lookup on a dict
   * (line 59), and its misplaced bracket indexes `row[('table_name', ...)]`
   * (line 60); this models the evident `host['host']` and the three-way join.
   */
  method CollectResults(hosts: seq<HostLabel>, fetched: map<HostLabel, Option<seq<MetaRow>>>)
    returns (results: map<HostLabel, seq<string>>)
    requires forall h :: h in hosts ==> h in fetched
    ensures forall h :: h in results <==> h in hosts
    ensures results == Results(hosts, fetched)
  {
    results := map[];
    for i := 0 to |hosts|
      invariant forall h :: h in results <==> h in hosts[..i]
      invariant forall h :: h in results ==> results[h] == HostIds(fetched, h)
    {
      var host := hosts[i];
      var resultSet := RowsOrEmpty(fetched[host]);
      results := results[host := FlattenRows(resultSet)];
      assert hosts[..i + 1] == hosts[..i] + [host];
    }
    assert hosts[..|hosts|] == hosts;
  }

  /** `x` is listed by at least one of `hosts`. */
  predicate SeenOnSomeHost(hosts: seq<HostLabel>, results: map<HostLabel, seq<string>>, x: string)
    requires forall h :: h in hosts ==> h in results
  {
    exists h :: h in hosts && x in results[h]
  }

  /**
   * The master list (new_compare.py:67-71): every identifier of every host,
   * once each, in ascending order. The source builds `[row for row in [host
   * for host in hosts]]`, a copy of the host list (line 70); a flat
   * concatenation of the per-host lists would repeat the objects hosts share
   * (ConcatRepeatsShared), so the model merges them as a sorted union.
   */
  method MasterList(hosts: seq<HostLabel>, results: map<HostLabel, seq<string>>) returns (master: seq<string>)
    requires forall h :: h in hosts ==> h in results
    ensures StrictlySorted(master)
    ensures forall x :: x in master <==> SeenOnSomeHost(hosts, results, x)
  {
    master := [];
    for i := 0 to |hosts|
      invariant StrictlySorted(master)
      invariant forall x :: x in master <==> SeenOnSomeHost(hosts[..i], results, x)
    {
      var ids := results[hosts[i]];
      for j := 0 to |ids|
        invariant StrictlySorted(master)
        invariant forall x :: x in master <==> SeenOnSomeHost(hosts[..i], results, x) || x in ids[..j]
      {
        master := Insert(master, ids[j]);
        assert ids[..j + 1] == ids[..j] + [ids[j]];
      }
      assert ids[..|ids|] == ids;
      assert hosts[..i + 1] == hosts[..i] + [hosts[i]];
    }
    assert hosts[..|hosts|] == hosts;
  }

  /** The report row `obj` should get: its name, and one true-iff-present flag per host. */
  ghost predicate RowFor(hosts: seq<HostLabel>, results: map<HostLabel, seq<string>>, obj: string, row: ReportRow)
    requires forall h :: h in hosts ==> h in results
  {
    && row.objectName == obj
    && (forall h :: h in row.flags <==> h in hosts)
    && (forall h :: h in hosts ==> row.flags[h] == (obj in results[h]))
  }

  /**
   * One pass of the report loop (new_compare.py:79-87). The source compares
   * each key with `base_host`, a list, so no key is skipped (line 86), and
   * sets `row[host] = schema_object in host`, a substring test on the host
   * name (line 87, FlagAsWritten); the model skips the baseline's own label
   * and looks the object up in that host's identifier list.
   */
  method BuildRow(hosts: seq<HostLabel>, results: map<HostLabel, seq<string>>,
                  baseHostName: HostLabel, baseHost: seq<string>, obj: string) returns (row: ReportRow)
    requires forall h :: h in hosts ==> h in results
    requires baseHostName in hosts && baseHost == results[baseHostName]
    ensures RowFor(hosts, results, obj, row)
  {
    var flags := map[baseHostName := obj in baseHost];
    for j := 0 to |hosts|
      invariant forall h :: h in flags <==> h == baseHostName || h in hosts[..j]
      invariant forall h :: h in flags ==> h in results && flags[h] == (obj in results[h])
    {
      var host := hosts[j];
      if host != baseHostName {
        flags := flags[host := obj in results[host]];
      }
      assert hosts[..j + 1] == hosts[..j] + [host];
    }
    assert hosts[..|hosts|] == hosts;
    row := ReportRow(obj, flags);
  }

  /**
   * The report loop (new_compare.py:63-65, 74-90): one row per master-list
   * entry, in master-list order. The baseline is `hosts[0]`; the source
   * indexes `results` by that host's dict (line 64), evidently meaning its
   * label. The source never appends `row` to `report` and so returns an
   * empty list; the model appends each row.
   */
  method BuildReport(hosts: seq<HostLabel>, results: map<HostLabel, seq<string>>, master: seq<string>)
    returns (report: seq<ReportRow>)
    requires |hosts| > 0
    requires forall h :: h in hosts ==> h in results
    ensures |report| == |master|
    ensures forall i :: 0 <= i < |report| ==> RowFor(hosts, results, master[i], report[i])
  {
    var baseHostName := hosts[0];
    var baseHost := results[baseHostName];
    report := [];
    for i := 0 to |master|
      invariant |report| == i
      invariant forall k :: 0 <= k < i ==> RowFor(hosts, results, master[k], report[k])
    {
      var row := BuildRow(hosts, results, baseHostName, baseHost, master[i]);
      report := report + [row];
    }
  }

  /** The `object_name` column of a report. */
  function Names(report: seq<ReportRow>): seq<string>
  {
    seq(|report|, i requires 0 <= i < |report| => report[i].objectName)
  }

  /**
   * What the report of `main` is meant to be: rows sorted by object name
   * with no name twice, a row for exactly the identifiers some host lists,
   * and in each row a flag for every host that is true iff that host lists
   * the identifier.
   */
  ghost predicate IsReportFor(hosts: seq<HostLabel>, results: map<HostLabel, seq<string>>, report: seq<ReportRow>)
    requires forall h :: h in hosts ==> h in results
  {
    && StrictlySorted(Names(report))
    && (forall x :: x in Names(report) <==> SeenOnSomeHost(hosts, results, x))
    && (forall i :: 0 <= i < |report| ==> RowFor(hosts, results, report[i].objectName, report[i]))
  }

  /**
   * `main` (new_compare.py:6-90) on the rows each host's query returned:
   * fails with NoHosts when no host is configured, and otherwise returns the
   * report described by IsReportFor.
   */
  method Compare(hosts: seq<HostLabel>, fetched: map<HostLabel, Option<seq<MetaRow>>>)
    returns (outcome: Result<seq<ReportRow>, ConfigError>)
    requires forall h :: h in hosts ==> h in fetched
    ensures outcome.Failure? <==> |hosts| == 0
    ensures outcome.Failure? ==> outcome.error == NoHosts
    ensures outcome.Success? ==> IsReportFor(hosts, Results(hosts, fetched), outcome.value)
  {
    if |hosts| == 0 {
      return Failure(NoHosts);
    }
    var results := CollectResults(hosts, fetched);
    var master := MasterList(hosts, results);
    var report := BuildReport(hosts, results, master);
    assert Names(report) == master;
    outcome := Success(report);
  }

  /** Union completeness: an object listed by any host, baseline or not, has a row. */
  lemma EveryObjectHasRow(hosts: seq<HostLabel>, results: map<HostLabel, seq<string>>,
                          report: seq<ReportRow>, h: HostLabel, x: string)
    requires forall h :: h in hosts ==> h in results
    requires IsReportFor(hosts, results, report)
    requires h in hosts && x in results[h]
    ensures exists i :: 0 <= i < |report| && report[i].objectName == x && report[i].flags[h]
  {
    assert SeenOnSomeHost(hosts, results, x);
    var i :| 0 <= i < |Names(report)| && Names(report)[i] == x;
    assert RowFor(hosts, results, x, report[i]);
  }

  /** The baseline column: true iff the first host lists the object. */
  lemma BaselineColumn(hosts: seq<HostLabel>, results: map<HostLabel, seq<string>>,
                       report: seq<ReportRow>, i: int)
    requires |hosts| > 0
    requires forall h :: h in hosts ==> h in results
    requires IsReportFor(hosts, results, report)
    requires 0 <= i < |report|
    ensures hosts[0] in report[i].flags
    ensures report[i].flags[hosts[0]] <==> report[i].objectName in results[hosts[0]]
  {
    assert RowFor(hosts, results, report[i].objectName, report[i]);
  }

  /** A drift-free row: some host lists the object and, with one host, that host does. */
  lemma SingleHostAllTrue(h: HostLabel, results: map<HostLabel, seq<string>>, report: seq<ReportRow>)
    requires h in results
    requires IsReportFor([h], results, report)
    ensures forall i :: 0 <= i < |report| ==> report[i].flags == map[h := true]
  {
    forall i | 0 <= i < |report|
      ensures report[i].flags == map[h := true]
    {
      var x := report[i].objectName;
      assert Names(report)[i] == x;
      assert SeenOnSomeHost([h], results, x);
      assert RowFor([h], results, x, report[i]);
    }
  }

  /**
   * Determinism: the report is fully fixed by the hosts and their lists,
   * whatever order the identifiers were gathered in.
   */
  lemma ReportDeterministic(hosts: seq<HostLabel>, results: map<HostLabel, seq<string>>,
                            r1: seq<ReportRow>, r2: seq<ReportRow>)
    requires forall h :: h in hosts ==> h in results
    requires IsReportFor(hosts, results, r1) && IsReportFor(hosts, results, r2)
    ensures r1 == r2
  {
    SortedUnique(Names(r1), Names(r2));
    assert |r1| == |r2|;
    forall i | 0 <= i < |r1|
      ensures r1[i] == r2[i]
    {
      assert Names(r1)[i] == Names(r2)[i];
      var x := r1[i].objectName;
      assert RowFor(hosts, results, x, r1[i]) && RowFor(hosts, results, x, r2[i]);
      assert r1[i].flags == r2[i].flags;
    }
  }

  /**
   * An object present only on a non-baseline host still surfaces, with a
   * false baseline flag.
   */
  lemma SymmetricDrift(report: seq<ReportRow>)
    requires IsReportFor(["A", "B"], map["A" := [], "B" := ["s.t.c1"]], report)
    ensures report == [ReportRow("s.t.c1", map["A" := false, "B" := true])]
  {
    var hosts: seq<HostLabel> := ["A", "B"];
    var results: map<HostLabel, seq<string>> := map["A" := [], "B" := ["s.t.c1"]];
    assert SeenOnSomeHost(hosts, results, "s.t.c1") by {
      assert "B" in hosts && "s.t.c1" in results["B"];
    }
    forall x ensures x in Names(report) <==> x in ["s.t.c1"] {
      if x in Names(report) {
        var h :| h in hosts && x in results[h];
      }
    }
    SortedUnique(Names(report), ["s.t.c1"]);
    assert report[0].objectName == "s.t.c1";
    assert RowFor(hosts, results, "s.t.c1", report[0]);
    assert report[0].flags == map["A" := false, "B" := true];
  }

  /** Concatenating the per-host lists repeats every object shared by two hosts. */
  function Concat(hosts: seq<HostLabel>, results: map<HostLabel, seq<string>>): seq<string>
    requires forall h :: h in hosts ==> h in results
  {
    if |hosts| == 0 then [] else results[hosts[0]] + Concat(hosts[1..], results)
  }

  lemma ConcatRepeatsShared(a: HostLabel, b: HostLabel, results: map<HostLabel, seq<string>>, x: string)
    requires a in results && b in results
    requires x in results[a] && x in results[b]
    ensures multiset(Concat([a, b], results))[x] >= 2
  {
    assert [a, b][1..] == [b];
    assert [b][1..] == [];
    assert Concat([b], results) == results[b] + Concat([], results);
    assert Concat([a, b], results) == results[a] + results[b];
    assert multiset(results[a])[x] >= 1 && multiset(results[b])[x] >= 1;
  }

  /** Python's `needle in hay` on two strings: a substring test. */
  predicate Contains(hay: string, needle: string)
    ensures Contains(hay, needle) ==> |needle| <= |hay|
    decreases |hay|
  {
    needle <= hay || (|hay| > 0 && Contains(hay[1..], needle))
  }

  /** new_compare.py:87 as written: `schema_object in host` on the host's name. */
  predicate FlagAsWritten(obj: string, host: HostLabel)
    ensures FlagAsWritten(obj, host) ==> |obj| <= |host|
  {
    Contains(host, obj)
  }

  /**
   * As written, a host that lists the object still gets a false flag: the
   * object is looked for inside the host's name, not in its list.
   */
  lemma FlagAsWrittenMissesPresentObject(results: map<HostLabel, seq<string>>)
    requires results == map["db1" := ["s.t.c1"]]
    ensures "s.t.c1" in results["db1"]
    ensures !FlagAsWritten("s.t.c1", "db1")
  {
  }
}
