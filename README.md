# mysql_schema_compare — a verified model of the comparison core

The repository compares database schema structure across MySQL hosts and
reports what is missing where. It has two scripts, and this project models
the part of each that does the comparison:

- `new_compare.py` `main` (module `SchemaDiff`, with `Normalize` and `Lex`):
  each host's `(table_schema, table_name, column_name)` rows are flattened into
  `"schema.table.column"` identifiers. The identifiers of all hosts are merged
  into one master list, sorted and duplicate-free. Each identifier then gets a
  report row holding `object_name` and one presence flag per host. The first
  host is the baseline.
- `original_compare.py` (module `Tally`): for every server, each name in its
  DISTINCT schema list, and separately in its DISTINCT `schema.table` list,
  bumps a counter in a `defaultdict(int)`. Every name whose count differs from
  the number of servers is then reported with its count.

The query results are plain inputs. For `main`, this is a map from host label
to the rows its query returned, where `None` stands for an empty result
(`fetchall() or []`). For the script, it is one `ServerMetadata` per server.
Python's `str` ordering is defined in `Lex.Less`, since Dafny's `<` on
sequences means "proper prefix". A Python dict's key order is kept in
`Tally.CountDict.order`, because that is the order the script prints in.

`main` as written cannot run. The model follows what its comments describe,
and a comment in `schema_diff.dfy` marks each place where the code differs:

- line 59 keys `results` by `host.host`, an attribute lookup on a dict;
- line 60 has a misplaced bracket, so it indexes `row[('table_name', ...)]`;
- line 64 indexes `results` by a host's dict rather than its label;
- line 70 copies the host list instead of merging the identifier lists;
- line 86 compares each key with a list, so no host is ever skipped;
- line 87 tests whether the object name is a substring of the host name;
- lines 74–90 never append a row to `report`, so an empty list is returned.

An escaping join, per-host sets and an explicit baseline parameter would be safer. The model follows the code instead:
- Identifiers are joined with a bare `.`, not escaped. `Normalize.FlattenCollision` shows the collision this allows.
- Per-host identifiers are lists, not sets. Presence is list membership, which gives the same flags.
- The baseline is always `hosts[0]`. With no hosts, the source fails at `hosts[0]`; the model returns `Failure(NoHosts)`.

## Model

| member | source | states |
|---|---|---|
| `Normalize.FlattenRows` | new_compare.py:59-61 | one identifier per row, in row order, each `schema.table.column` of its row; an identifier is listed iff some row flattens to it |
| `Normalize.Flatten` | new_compare.py:59-61 | the `'.'`-join of schema, table and column; when no component contains a dot, splitting the identifier at its dots gives back schema, table and column in that order (the layout of the example at new_compare.py:39-53) |
| `Normalize.FlattenInjectiveOnDotFree` | new_compare.py:55-56 | two rows with dot-free components and the same identifier are the same row |
| `Normalize.FlattenCollision` | new_compare.py:55-56 | the bare `.` join maps the different rows `("a.b","c","d")` and `("a","b.c","d")` to the same `"a.b.c.d"` |
| `Normalize.FlattenKeepsEmptyComponents` | new_compare.py:59-61 | for dot-free components, any of which may be empty, the identifier still splits into exactly three parts, and a part is empty iff its component is: an empty string is kept, not dropped |
| `Lex.Less` | new_compare.py:71 | Python's `<` on `str`, the order `list.sort()` uses: code point by code point, a proper prefix first; it never relates a string to itself |
| `Lex.LessTransitive` | new_compare.py:71 | the string order is transitive |
| `Lex.LessTotal` | new_compare.py:71 | any two different strings are ordered one way or the other, so the sort has a single answer |
| `Lex.Insert` | new_compare.py:71 | inserting into a strictly ascending list keeps it strictly ascending and adds exactly the new identifier |
| `Lex.SortedUnique` | new_compare.py:71 | two strictly ascending lists with the same elements are equal, so the sorted master list does not depend on the order the identifiers were gathered in |
| `SchemaDiff.RowsOrEmpty` | new_compare.py:20-22 | `fetchall() or []` gives no rows exactly when the fetch returned None or an empty list, and otherwise the fetched rows unchanged |
| `SchemaDiff.NoRowsNoIds` | new_compare.py:20-22 | a host whose result set is None or empty contributes no identifiers and causes no error |
| `SchemaDiff.HostIdsMembership` | new_compare.py:59-61 | an identifier belongs to a host iff one of that host's rows flattens to it |
| `SchemaDiff.CollectResults` | new_compare.py:9-61 | the results map has exactly the configured hosts as keys, each mapped to the flattened identifiers of its own rows |
| `SchemaDiff.MasterList` | new_compare.py:67-71 | the master list is strictly ascending and holds exactly the identifiers listed by at least one host |
| `SchemaDiff.BuildRow` | new_compare.py:79-87 | the row's `object_name` is the object; it has a flag for exactly the configured hosts, baseline included, and each flag is true iff that host lists the object |
| `SchemaDiff.BuildReport` | new_compare.py:63-90 | one row per master-list entry, in master-list order, each row as `BuildRow` states, with `hosts[0]` as the baseline |
| `SchemaDiff.Compare` | new_compare.py:6-90 | fails with NoHosts iff no host is configured; otherwise the report is sorted by object name with no name twice, has a row for exactly the identifiers seen on some host, and flags presence per host |
| `SchemaDiff.EveryObjectHasRow` | new_compare.py:67-70 | an object listed by any host, baseline or not, has a row whose flag for that host is true |
| `SchemaDiff.BaselineColumn` | new_compare.py:63-80 | every row has a baseline column, true iff the first host lists the object |
| `SchemaDiff.SingleHostAllTrue` | new_compare.py:82-87 | with a single host, every row has exactly that host's column, and it is true |
| `SchemaDiff.ReportDeterministic` | new_compare.py:71-75 | any two reports for the same hosts and lists are equal |
| `SchemaDiff.SymmetricDrift` | new_compare.py:67-70 | with baseline A empty and B listing `s.t.c1`, the report is the single row `s.t.c1` with A false and B true |
| `SchemaDiff.ConcatRepeatsShared` | new_compare.py:70 | concatenating the per-host lists puts an object that two hosts share in the list at least twice |
| `SchemaDiff.Contains` | new_compare.py:87 | Python's `in` on strings (a substring test) can hold only when the needle is no longer than the string searched |
| `SchemaDiff.FlagAsWritten` | new_compare.py:87 | the flag as written can be true only for an object name no longer than the host name |
| `SchemaDiff.FlagAsWrittenMissesPresentObject` | new_compare.py:87 | as written, host `db1` lists `s.t.c1` but its flag is false |
| `Tally.Get` | original_compare.py:7-8 | reading a `defaultdict(int)`: in a valid dictionary, a count is positive exactly for a key already inserted |
| `Tally.Bump` | original_compare.py:24-27 | the first-sighting and later-sighting branches together are a `+1` on a map read with default 0; a new key goes last in key order |
| `Tally.TallyRecords` | original_compare.py:23-27 | after one server's records, each count has grown by its name's occurrences there, every other entry is unchanged, and new names follow in first-sighting order |
| `Tally.TableKeys` | original_compare.py:29 | one key per table row, and a name is a key iff some row's `schema + "." + table` is that name |
| `Tally.TableKeySplit` | original_compare.py:29 | for dot-free schema and table names, splitting the key at its dots gives back schema and table |
| `Tally.TableKeyCollision` | original_compare.py:29 | the pairs `("a.b","c")` and `("a","b.c")` share the key `a.b.c`, so DISTINCT on the key makes keys distinct, not pairs |
| `Tally.Survey` | original_compare.py:6-35 | after all servers, both dictionaries equal the tally of all servers' lists: keys in first-sighting order, each counted over every server |
| `Tally.TotalCountPositive` | original_compare.py:21-27 | a name's count is positive iff some server lists it |
| `Tally.TalliedKeys` | original_compare.py:21-35 | the dictionary's keys are exactly the names seen on some server |
| `Tally.DistinctCountIsServers` | original_compare.py:21-27 | with DISTINCT per-server lists, a count is the number of servers listing the name; it is at most the server count, and equals it iff every server lists the name |
| `Tally.TalliedCountBounds` | original_compare.py:6-27 | with DISTINCT per-server lists, every count lies between 1 and `server_count` |
| `Tally.MissingMembership` | original_compare.py:37-42 | a report line `(name, c)` is present iff name is a key, its count differs from `server_count`, and c is that name's own count |
| `Tally.ReportMissing` | original_compare.py:36-42 | the report loop yields, in dictionary order, exactly the lines the report filter yields |
| `Tally.ReportedIffNotOnAll` | original_compare.py:37-42 | a name is reported iff it is seen on some server and missing from another, paired with the number of servers that have it |
| `Tally.CompareServers` | original_compare.py:6-42 | the schema lines and table lines are the filtered tallies in dictionary order, and each is exactly the names missing from some server, with their counts |
| `Tally.MissingAsWritten` | original_compare.py:40-42 | as written, every table line carries the same number, the count stored under the last schema name |
| `Tally.TableLinesAsWritten` | original_compare.py:37-42 | the script's table report as written: every line carries the table dictionary's value under the last schema key, which the loop at line 37 leaves in `schema` |
| `Tally.ScriptLine42Counterexample` | original_compare.py:37-42 | as written, two servers with schema `a`, only the first with table `a.t`, print `a.t:0`; the table's own count is 1 |
| `Tally.Line42PrintsOtherCount` | original_compare.py:42 | as written, table `a.t`, seen once on two servers, prints 0 when the last schema name is `a`; the intended line is `("a.t", 1)` |

## Left out

- Database access is not modelled: connections, cursors, queries and fetches (new_compare.py:14-19; original_compare.py:12-22, 29-30). Each query's result is an input. Connection and query failures are not modelled, since the source has no handling for them.
- `SchemaDiff.Compare`: requires a result entry for every configured host, because the source queries every host.
- `SchemaDiff.CollectResults`: requires the same, for the same reason.
- A host is identified by its `host` entry alone. The connection parameters that `pymysql.connect(**host)` uses (new_compare.py:14) are not modelled, and two configurations with the same `host` entry share one result.
- The unused `host_result` dict (new_compare.py:10) is not modelled.
- CLI parsing, the file-existence check, exit codes and YAML loading (new_compare.py:93-118) are I/O glue and are not modelled.
- Rendering with `tabulate` and the `print` formatting (new_compare.py:121-122; original_compare.py:39, 42) are not modelled. Reports are modelled as data: rows and `(name, count)` lines.
- The hard-coded server list, the credentials and the unused `skip_schemas` (original_compare.py:3-5, 9) are not modelled. The script's servers are the input sequence, and `server_count` is its length.
- `SchemaDiff.MasterList`: stands for `list.sort()` on a duplicate-free union. It inserts each identifier into a sorted list, and Python's sorting algorithm is not modelled. Only the resulting order is stated, and `Lex.SortedUnique` shows that order is unique.
- `Tally.TableLinesAsWritten`: requires at least one schema key, and does not model two things about the as-written line 42. Reading `table_dict[schema]` on a missing key inserts that key into the dict being iterated, which makes CPython raise `RuntimeError` at the next step. With no schemas at all, `schema` is unbound, which raises `NameError`.
- `Tally.CompareServers`: requires duplicate-free per-server lists, which is what the DISTINCT queries return. `Tally.Survey` has no such requirement and counts occurrences.
- The tables query builds its key with SQL `CONCAT` (original_compare.py:29). The model forms the same key from the `(schema, table)` pair.

## Findings

| source | as written | input that shows it | evidently intended | confidence | as-written member | corrected member |
|---|---|---|---|---|---|---|
| original_compare.py:42 | each table line prints `table_dict[schema]`, the count under whatever name the schema loop ended on (0 if that is not a table key) | two servers, both with schema `a`, only the first with table `a.t`: the table dict is `{"a.t": 1}`, the last schema is `a`, and the script prints `a.t:0` instead of `a.t:1` (`Tally.ScriptLine42Counterexample`) | print `table_dict[table]` | not executed | `Tally.TableLinesAsWritten` | `Tally.ReportMissing` |
| new_compare.py:87 | `row[host] = schema_object in host` tests whether the object name is a substring of the host name | host `db1` listing `s.t.c1` gets flag false (`SchemaDiff.FlagAsWrittenMissesPresentObject`) | `schema_object in results[host]` | not executed | `SchemaDiff.FlagAsWritten` | `SchemaDiff.BuildRow` |
