# HBaseUtil: a model of the labrador wrapper over the HBase client

`HBaseUtil` (src/main/java/com/wt/labrador/util/HBaseUtil.java) wraps the HBase
client: it qualifies table names with an optional namespace, checks that a table
exists, builds a `Put`, `Get`, `Delete`, `Scan` or table descriptor, hands it to the
client, and turns the cells that come back into string maps. This project models
that deterministic layer and proves what it issues and returns.

The cluster is abstract. A `Client` value holds the set of qualified names of
existing tables and says where the client library throws, if it does: on the
existence check (`getAdmin`, `tableExists`) or on the request (building it,
`getTable`, the call itself). The cells a get returns and the rows a scanner
yields are parameters of the read operations. Each operation is a method that
returns a `Response`: its outcome (a value, or the error it throws) and the
client calls it issued, in order. Guard ordering is therefore a statement about
that call list: when the check does not pass, the existence check is the only call.

Errors follow the source's two kinds. `AlreadyExists` and `TableMissing` are the
class's own `LabradorException`s, which the `catch (LabradorException e) { throw e; }`
clauses pass on unchanged. `NoFamilies` is the `RuntimeException` that
`createTable` throws before its `try`. Every other exception is `Wrapped`,
naming the failed operation and the table. One quirk is kept as written:
`createTable` formats its failure message with the namespace, not the table
name (HBaseUtil.java line 85), so its `Wrapped` error carries the namespace.

Nullable Java values are `Option` where the code tests them for null: the
namespace, scan bounds, the family and the column array of `scanColumnFamily`,
the family arrays of `createTable` and `scan`, and the cell lists. Where the code does not test
for null and would throw inside its `try`, the model throws a wrapped error after
the existence check. This covers the arrays of `deleteColumnFamily` and
`deleteColumn` and the map of the map overload of `put`. The overloads without
a namespace argument call the full ones with `null`. That is `None` here, and
`Qualify` leaves the name unchanged for it.

`TableNames.Split` stands for the way the client's `TableName.valueOf` reads a
qualified name back: the part before the first ':' is the namespace, the rest
the table's own name, and a name without ':' lies in the default namespace.
`TableNames.QualifyThenSplit` ties qualification to that reading.

Modules: `TableNames` (blank strings, qualification), `Cells` (resultToMap and
the cell loop of getColumnFamily), `OrderedMaps` (the LinkedHashMap of scan),
`ScanRows` (the result loop of the scans), `Requests` (the builder loops) and
`HBaseUtil` (the operations). `Wrappers` holds `Option`.

## Model

| member | source | states |
|---|---|---|
| `TableNames.Qualify` | src/main/java/com/wt/labrador/util/HBaseUtil.java:577-581 | a blank namespace (null, empty or whitespace only) leaves the table name unchanged; otherwise the name is exactly namespace + ":" + table name |
| `TableNames.Split` | src/main/java/com/wt/labrador/util/HBaseUtil.java:577-581 | reading a name back as the client does: with a ':' the name is namespace + ":" + rest with no ':' in the namespace; without one it is the whole name in the default namespace |
| `TableNames.QualifyThenSplit` | src/main/java/com/wt/labrador/util/HBaseUtil.java:577-581 | qualification can be undone: splitting at the first ':' gives back the non-blank namespace and the table name, or the default namespace for a blank one |
| `Cells.ResultToMap` | src/main/java/com/wt/labrador/util/HBaseUtil.java:562-575 | the loop yields the grouped family -> qualifier -> value map; a null or empty cell list gives the empty map; a family is a key exactly when some cell has it; each (family, qualifier) holds the last such cell's value |
| `Cells.GroupedFamilies` | src/main/java/com/wt/labrador/util/HBaseUtil.java:567-573 | after the putIfAbsent/put fold, the family keys are exactly the families of the cells |
| `Cells.GroupedLastWins` | src/main/java/com/wt/labrador/util/HBaseUtil.java:567-573 | after the fold, the entry at (family, qualifier) is present exactly when a cell is there, and it holds the last such cell's value |
| `Cells.LastValueIsLastCell` | src/main/java/com/wt/labrador/util/HBaseUtil.java:571-572 | the last-wins reference names the value of a matching cell after which no cell matches, and is absent only when no cell matches |
| `Cells.QualifierMap` | src/main/java/com/wt/labrador/util/HBaseUtil.java:253-262 | getColumnFamily's loop gives qualifier -> value, empty for no cells; a qualifier is a key exactly when some cell has it, and holds the last such cell's value |
| `Cells.FlattenLastWins` | src/main/java/com/wt/labrador/util/HBaseUtil.java:257-261 | the flattening put loop keeps, per qualifier, the value of the last cell with it |
| `Cells.LastQualifierValueIsLastCell` | src/main/java/com/wt/labrador/util/HBaseUtil.java:257-261 | the per-qualifier reference names a cell with that qualifier after which none has it, and is absent only when no cell has it |
| `Cells.FlattenIsOneFamily` | src/main/java/com/wt/labrador/util/HBaseUtil.java:250-261 | for a non-empty reply whose cells are all in the requested family, getColumnFamily's map is exactly that family's map in resultToMap's result |
| `OrderedMaps.Put` | src/main/java/com/wt/labrador/util/HBaseUtil.java:478 | LinkedHashMap.put keeps keys unique and listed once: the value is replaced, a new key goes last, a present key keeps its place |
| `ScanRows.Collected` | src/main/java/com/wt/labrador/util/HBaseUtil.java:475-479 | the rows map built from the scanner's results is always a well-formed ordered map |
| `ScanRows.CollectedKeys` | src/main/java/com/wt/labrador/util/HBaseUtil.java:475-479 | the result's rows are exactly the row keys the scanner yielded |
| `ScanRows.CollectedOrder` | src/main/java/com/wt/labrador/util/HBaseUtil.java:475-479 | rows are ordered by the first time the scanner yielded their key |
| `ScanRows.CollectedLastWins` | src/main/java/com/wt/labrador/util/HBaseUtil.java:476-479 | each row holds the grouped cells of the last result with that key: a repeated key overwrites the earlier entry |
| `ScanRows.CollectRows` | src/main/java/com/wt/labrador/util/HBaseUtil.java:474-480 | the scan result loop: keys exactly the yielded row keys, no key twice, in order of first appearance, each holding its last result's grouped cells |
| `Requests.Descriptor` | src/main/java/com/wt/labrador/util/HBaseUtil.java:76-79 | the descriptor is for the qualified name and holds exactly the given families, in order |
| `Requests.EntriesPut` | src/main/java/com/wt/labrador/util/HBaseUtil.java:163-167 | the one Put is for the row key and holds one cell per map entry, each under the given family with the entry's qualifier and value, in whatever order the map yields |
| `Requests.FamiliesDelete` | src/main/java/com/wt/labrador/util/HBaseUtil.java:376-379 | the Delete is for the row key and names exactly the given families, in order, and no columns |
| `Requests.ColumnsDelete` | src/main/java/com/wt/labrador/util/HBaseUtil.java:419-423 | the Delete is for the row key and names each given column, in order, under the one family |
| `Requests.FamiliesScan` | src/main/java/com/wt/labrador/util/HBaseUtil.java:464-473 | start and stop rows are set exactly when not blank, and then to the given strings; the families are those of a non-null array (none for null or empty); no columns |
| `Requests.ColumnsScan` | src/main/java/com/wt/labrador/util/HBaseUtil.java:521-531 | bounds as for scan; columns are added exactly when the family is not blank and the array is non-null and non-empty, and then are the given columns under that family; no families |
| `HBaseUtil.CreateTable` | src/main/java/com/wt/labrador/util/HBaseUtil.java:67-89 | a null or empty family array throws before any client call; otherwise the existence check comes first; an existing table throws "already exists" unchanged and no create is issued; else one create with exactly the given families, in order; client failures are wrapped with the namespace |
| `HBaseUtil.Put` | src/main/java/com/wt/labrador/util/HBaseUtil.java:113-130 | check first; a missing table throws "不存在" unchanged and nothing else is issued; otherwise one Put of the single cell; success exactly when the client does not fail, failures wrapped |
| `HBaseUtil.PutEntries` | src/main/java/com/wt/labrador/util/HBaseUtil.java:156-176 | check first, missing table unchanged; a null map throws after the check and is wrapped; otherwise one Put for the row holding one column per entry under the one family |
| `HBaseUtil.GetColumn` | src/main/java/com/wt/labrador/util/HBaseUtil.java:201-219 | check first, missing table unchanged; one Get restricted to the column; returns the first cell's value, or null when the reply is empty |
| `HBaseUtil.GetColumnFamily` | src/main/java/com/wt/labrador/util/HBaseUtil.java:243-270 | check first, missing table unchanged; one Get restricted to the family; returns qualifier -> value with the last cell winning, empty for no cells |
| `HBaseUtil.GetRow` | src/main/java/com/wt/labrador/util/HBaseUtil.java:292-309 | check first, missing table unchanged; one unrestricted Get; returns the reply grouped by resultToMap, last write winning |
| `HBaseUtil.DeleteRow` | src/main/java/com/wt/labrador/util/HBaseUtil.java:330-346 | check first, missing table unchanged; one Delete of the whole row |
| `HBaseUtil.DeleteColumnFamily` | src/main/java/com/wt/labrador/util/HBaseUtil.java:369-388 | check first, missing table unchanged; a null array is wrapped after the check; otherwise one Delete naming exactly the given families |
| `HBaseUtil.DeleteColumn` | src/main/java/com/wt/labrador/util/HBaseUtil.java:412-432 | check first, missing table unchanged; a null array is wrapped after the check; otherwise one Delete naming each given column under the one family |
| `HBaseUtil.Scan` | src/main/java/com/wt/labrador/util/HBaseUtil.java:457-488 | check first, missing table unchanged; one Scan with bounds only when not blank and families only from a non-empty array; returns the scanner's rows keyed by row key in scanner order |
| `HBaseUtil.ScanColumnFamily` | src/main/java/com/wt/labrador/util/HBaseUtil.java:514-546 | check first, missing table unchanged; one Scan with bounds only when not blank and columns only when the family is not blank and the array is non-empty; rows as for scan |

## Left out

- `createNamespace` (HBaseUtil.java lines 46-57) is not modelled: it is one client call inside the same wrap-everything `catch`, with no check and no request of its own to shape.
- Connection setup (`init`, `ZookeeperProperty`) is not modelled: it is I/O against an external cluster.
- The client's own behaviour is not modelled. That covers what `tableExists`, `createTable`, `put`, `get`, `delete` and `getScanner` do to the cluster, and which cells they return. Replies are free parameters, so nothing relates a reply to its request (for instance, that scanned rows lie between the bounds).
- Validation inside the client library is not modelled. Examples are `TableName.valueOf` rejecting a malformed name, the descriptor builder rejecting a duplicate or illegal family, and a Put with no columns being refused. The builder and Put rejections fall under the request fault and are wrapped.
- A malformed table name is not modelled. In the data operations `TableName.valueOf` runs at the top of the `try`, before the existence check, so its throw is wrapped and no client call is made; the nearest model case, `FailsOnCheck`, gives the same wrapped error but lists an existence call the source never makes. `createTable` calls `TableName.valueOf` outside its `try`, so there an invalid name escapes unwrapped; the model has no such path.
- Null row keys, families, qualifiers and values, and null elements inside arrays, are not modelled: the code does not test for them, and the encoding call throws on them.
- A null table name is not modelled. It is never encoded: with a non-blank namespace, `namespace + ":" + tableName` turns it into the legal name "namespace:null" and the operation goes on against table `null`; with a blank namespace it reaches `TableName.valueOf` as null.
- Byte and UTF-8 encoding (`Bytes.toBytes`, `Bytes.toString`, `new String(..., "UTF-8")`) is taken as the identity on strings, because the codec is library code.
- Logging and the exact wording of messages are left out. A wrapped error keeps only the operation and the name its message starts with. The `LabradorException` `code` field is never set by this class.
- Where exactly the client throws is reduced to two points: the existence check, or the request. When the client throws on the request, the call list still records the request as issued, even if the throw came while the request was being built.
- `HashMap` iteration order is not modelled: maps are Dafny maps. For the map overload of `put`, the order of the Put's cells is left open, as `HashMap.forEach` leaves it.
- The source never closes the `Admin`, `Table` or `ResultScanner` objects it opens. Resource lifetime is not modelled.
- Concurrency (the shared `Connection`, the per-call `Admin` and `Table`) is not modelled.
- `IsWhitespace` follows Java 8's Unicode 6.2 tables, which count U+180E as whitespace. Later Java versions do not.
