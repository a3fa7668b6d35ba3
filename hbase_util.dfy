/**
 * The operations of HBaseUtil over an abstract client: which client calls
 * each issues, in what order, with what request, and what it returns or throws.
 */
module HBaseUtil {
  import opened Wrappers
  import opened TableNames
  import opened Cells
  import opened Requests
  import opened OrderedMaps
  import opened ScanRows

  /**
   * Where the client library throws, if it does: on the existence check
   * (getAdmin or tableExists), or on the request (building, getTable, or the call itself).
   */
  datatype Fault = NoFault | FailsOnCheck | FailsOnRequest

  /** The cluster as the wrapper sees it: the qualified names of existing tables, and where the client fails. */
  datatype Client = Client(tables: set<string>, fault: Fault)

  /** The operation a wrapped failure message names ("创建表", "保存数据", "获取数据", "删除数据", "扫描数据"). */
  datatype Op = CreateTableOp | PutOp | GetOp | DeleteOp | ScanOp

  datatype Error =
    /** the RuntimeException createTable throws, outside its try, for no families */
    | NoFamilies
    /** LabradorException "表 %s 已经存在", rethrown unchanged */
    | AlreadyExists(table: string)
    /** LabradorException "表 %s 不存在", rethrown unchanged */
    | TableMissing(table: string)
    /** any other exception, wrapped in a LabradorException whose message names `subject` */
    | Wrapped(op: Op, subject: Option<string>)

  /** The client calls the wrapper issues. */
  datatype Call =
    | ExistsCall(table: string)
    | CreateCall(descriptor: TableDescriptor)
    | PutCall(table: string, put: PutRequest)
    | GetCall(table: string, get: GetRequest)
    | DeleteCall(table: string, delete: DeleteRequest)
    | ScanCall(table: string, scan: ScanRequest)

  datatype Outcome<T> = Ok(value: T) | Err(error: Error)

  /** What an operation returns or throws, and the client calls it issued, in order. */
  datatype Response<T> = Response(outcome: Outcome<T>, calls: seq<Call>)

  /** The existence check of a data operation lets it go on. */
  predicate Passes(client: Client, table: string) {
    client.fault != FailsOnCheck && table in client.tables
  }

  /**
   * The guard every data operation starts with: the existence check is the
   * first call; when the check throws, the failure is wrapped; when the table
   * is missing, "不存在" is thrown unchanged; either way nothing else is issued.
   */
  predicate CheckedFirst<T>(client: Client, op: Op, table: string, r: Response<T>) {
    && |r.calls| > 0 && r.calls[0] == ExistsCall(table)
    && (client.fault == FailsOnCheck ==> r == Response(Err(Wrapped(op, Some(table))), [ExistsCall(table)]))
    && (client.fault != FailsOnCheck && table !in client.tables ==>
          r == Response(Err(TableMissing(table)), [ExistsCall(table)]))
  }

  /**
   * After a passed check the request is issued as `call`, and the operation
   * succeeds exactly when the client does not fail; a failure is wrapped.
   */
  predicate Issued<T>(client: Client, op: Op, table: string, call: Call, r: Response<T>) {
    Passes(client, table) ==>
      && r.calls == [ExistsCall(table), call]
      && (r.outcome.Ok? <==> client.fault == NoFault)
      && (r.outcome.Err? ==> r.outcome.error == Wrapped(op, Some(table)))
  }

  /** The check of a data operation, when it stops the operation. */
  function Refusal<T>(client: Client, op: Op, table: string): Option<Response<T>> {
    if client.fault == FailsOnCheck then Some(Response(Err(Wrapped(op, Some(table))), [ExistsCall(table)]))
    else if table !in client.tables then Some(Response(Err(TableMissing(table)), [ExistsCall(table)]))
    else None
  }

  /** Issuing `call` after a passed check: `v` is returned unless the client fails. */
  function Issue<T>(client: Client, op: Op, table: string, call: Call, v: T): Response<T> {
    var outcome := if client.fault == FailsOnRequest then Err(Wrapped(op, Some(table))) else Ok(v);
    Response(outcome, [ExistsCall(table), call])
  }

  /** createTable(tableName, columnFamilies, namespace); the two-argument overload passes None. */
  method CreateTable(client: Client, tableName: string, families: Option<seq<string>>, namespace: Option<string>)
    returns (r: Response<()>)
    ensures families.None? || families.value == [] ==> r == Response(Err(NoFamilies), [])
    ensures families.Some? && families.value != [] ==>
      var table := Qualify(tableName, namespace);
      && |r.calls| > 0 && r.calls[0] == ExistsCall(table)
      && (client.fault == FailsOnCheck ==> r == Response(Err(Wrapped(CreateTableOp, namespace)), [ExistsCall(table)]))
      && (client.fault != FailsOnCheck && table in client.tables ==>
            r == Response(Err(AlreadyExists(table)), [ExistsCall(table)]))
      && (client.fault != FailsOnCheck && table !in client.tables ==>
            && r.calls == [ExistsCall(table), CreateCall(TableDescriptor(table, families.value))]
            && (r.outcome.Ok? <==> client.fault == NoFault)
            && (r.outcome.Err? ==> r.outcome.error == Wrapped(CreateTableOp, namespace)))
  {
    if families.None? || |families.value| == 0 {
      return Response(Err(NoFamilies), []);
    }
    var table := Qualify(tableName, namespace);
    if client.fault == FailsOnCheck {
      return Response(Err(Wrapped(CreateTableOp, namespace)), [ExistsCall(table)]);
    }
    if table in client.tables {
      return Response(Err(AlreadyExists(table)), [ExistsCall(table)]);
    }
    var descriptor := Descriptor(table, families.value);
    var outcome := if client.fault == FailsOnRequest then Err(Wrapped(CreateTableOp, namespace)) else Ok(());
    r := Response(outcome, [ExistsCall(table), CreateCall(descriptor)]);
  }

  /** put(tableName, rowKey, columnFamily, column, data, namespace): one cell. */
  method Put(client: Client, tableName: string, rowKey: string, family: string, column: string, data: string,
             namespace: Option<string>)
    returns (r: Response<()>)
    ensures CheckedFirst(client, PutOp, Qualify(tableName, namespace), r)
    ensures var table := Qualify(tableName, namespace);
      Issued(client, PutOp, table, PutCall(table, PutRequest(rowKey, [Cell(family, column, data)])), r)
  {
    var table := Qualify(tableName, namespace);
    var refusal := Refusal(client, PutOp, table);
    if refusal.Some? {
      return refusal.value;
    }
    var put := PutRequest(rowKey, [Cell(family, column, data)]);
    r := Issue(client, PutOp, table, PutCall(table, put), ());
  }

  /**
   * put(tableName, rowKey, columnFamily, keyValues, namespace): one Put holding
   * a column per map entry, all under the one family. A null map throws inside
   * the try, after the check, and is wrapped.
   */
  method PutEntries(client: Client, tableName: string, rowKey: string, family: string,
                    keyValues: Option<map<string, string>>, namespace: Option<string>)
    returns (r: Response<()>)
    ensures CheckedFirst(client, PutOp, Qualify(tableName, namespace), r)
    ensures var table := Qualify(tableName, namespace);
      Passes(client, table) && keyValues.None? ==> r == Response(Err(Wrapped(PutOp, Some(table))), [ExistsCall(table)])
    ensures var table := Qualify(tableName, namespace);
      Passes(client, table) && keyValues.Some? ==>
        && |r.calls| == 2 && r.calls[1].PutCall? && r.calls[1].table == table
        && HoldsEntries(r.calls[1].put, rowKey, family, keyValues.value)
        && Issued(client, PutOp, table, r.calls[1], r)
  {
    var table := Qualify(tableName, namespace);
    var refusal := Refusal(client, PutOp, table);
    if refusal.Some? {
      return refusal.value;
    }
    if keyValues.None? {
      return Response(Err(Wrapped(PutOp, Some(table))), [ExistsCall(table)]);
    }
    var put := EntriesPut(rowKey, family, keyValues.value);
    r := Issue(client, PutOp, table, PutCall(table, put), ());
  }

  /**
   * getColumn: a Get restricted to one column; the value of the first cell of
   * the reply (Result.value()), None (null) when the reply has no cells.
   */
  method GetColumn(client: Client, tableName: string, rowKey: string, family: string, column: string,
                   namespace: Option<string>, reply: Option<seq<Cell>>)
    returns (r: Response<Option<string>>)
    ensures CheckedFirst(client, GetOp, Qualify(tableName, namespace), r)
    ensures var table := Qualify(tableName, namespace);
      Issued(client, GetOp, table, GetCall(table, GetRequest(rowKey, [], [Column(family, column)])), r)
    ensures r.outcome.Ok? ==>
      r.outcome.value == if CellList(reply) == [] then None else Some(CellList(reply)[0].value)
  {
    var table := Qualify(tableName, namespace);
    var refusal := Refusal(client, GetOp, table);
    if refusal.Some? {
      return refusal.value;
    }
    var get := GetRequest(rowKey, [], [Column(family, column)]);
    var cells := CellList(reply);
    var value := if cells == [] then None else Some(cells[0].value);
    r := Issue(client, GetOp, table, GetCall(table, get), value);
  }

  /** getColumnFamily: a Get restricted to one family; qualifier -> value, the last cell winning. */
  method GetColumnFamily(client: Client, tableName: string, rowKey: string, family: string,
                         namespace: Option<string>, reply: Option<seq<Cell>>)
    returns (r: Response<map<string, string>>)
    ensures CheckedFirst(client, GetOp, Qualify(tableName, namespace), r)
    ensures var table := Qualify(tableName, namespace);
      Issued(client, GetOp, table, GetCall(table, GetRequest(rowKey, [family], [])), r)
    ensures r.outcome.Ok? ==> r.outcome.value == Flatten(CellList(reply))
    ensures r.outcome.Ok? ==> forall q :: Find(r.outcome.value, q) == LastQualifierValue(CellList(reply), q)
  {
    var table := Qualify(tableName, namespace);
    var refusal := Refusal(client, GetOp, table);
    if refusal.Some? {
      return refusal.value;
    }
    var get := GetRequest(rowKey, [family], []);
    var kv := QualifierMap(reply);
    r := Issue(client, GetOp, table, GetCall(table, get), kv);
  }

  /** getRow: an unrestricted Get; the cells grouped by resultToMap. */
  method GetRow(client: Client, tableName: string, rowKey: string, namespace: Option<string>,
                reply: Option<seq<Cell>>)
    returns (r: Response<map<string, map<string, string>>>)
    ensures CheckedFirst(client, GetOp, Qualify(tableName, namespace), r)
    ensures var table := Qualify(tableName, namespace);
      Issued(client, GetOp, table, GetCall(table, GetRequest(rowKey, [], [])), r)
    ensures r.outcome.Ok? ==> r.outcome.value == Grouped(CellList(reply))
    ensures r.outcome.Ok? ==> forall f, q :: Lookup(r.outcome.value, f, q) == LastValue(CellList(reply), f, q)
  {
    var table := Qualify(tableName, namespace);
    var refusal := Refusal(client, GetOp, table);
    if refusal.Some? {
      return refusal.value;
    }
    var get := GetRequest(rowKey, [], []);
    var kv := ResultToMap(reply);
    r := Issue(client, GetOp, table, GetCall(table, get), kv);
  }

  /** deleteRow: a Delete of the whole row. */
  method DeleteRow(client: Client, tableName: string, rowKey: string, namespace: Option<string>)
    returns (r: Response<()>)
    ensures CheckedFirst(client, DeleteOp, Qualify(tableName, namespace), r)
    ensures var table := Qualify(tableName, namespace);
      Issued(client, DeleteOp, table, DeleteCall(table, DeleteRequest(rowKey, [], [])), r)
  {
    var table := Qualify(tableName, namespace);
    var refusal := Refusal(client, DeleteOp, table);
    if refusal.Some? {
      return refusal.value;
    }
    r := Issue(client, DeleteOp, table, DeleteCall(table, DeleteRequest(rowKey, [], [])), ());
  }

  /** deleteColumnFamily: a Delete naming each family; a null array throws after the check and is wrapped. */
  method DeleteColumnFamily(client: Client, tableName: string, rowKey: string, families: Option<seq<string>>,
                            namespace: Option<string>)
    returns (r: Response<()>)
    ensures CheckedFirst(client, DeleteOp, Qualify(tableName, namespace), r)
    ensures var table := Qualify(tableName, namespace);
      Passes(client, table) && families.None? ==>
        r == Response(Err(Wrapped(DeleteOp, Some(table))), [ExistsCall(table)])
    ensures var table := Qualify(tableName, namespace);
      families.Some? ==>
        Issued(client, DeleteOp, table, DeleteCall(table, DeleteRequest(rowKey, families.value, [])), r)
  {
    var table := Qualify(tableName, namespace);
    var refusal := Refusal(client, DeleteOp, table);
    if refusal.Some? {
      return refusal.value;
    }
    if families.None? {
      return Response(Err(Wrapped(DeleteOp, Some(table))), [ExistsCall(table)]);
    }
    var delete := FamiliesDelete(rowKey, families.value);
    r := Issue(client, DeleteOp, table, DeleteCall(table, delete), ());
  }

  /** deleteColumn: a Delete naming each column under the one family; a null array is wrapped. */
  method DeleteColumn(client: Client, tableName: string, rowKey: string, family: string,
                      columns: Option<seq<string>>, namespace: Option<string>)
    returns (r: Response<()>)
    ensures CheckedFirst(client, DeleteOp, Qualify(tableName, namespace), r)
    ensures var table := Qualify(tableName, namespace);
      Passes(client, table) && columns.None? ==>
        r == Response(Err(Wrapped(DeleteOp, Some(table))), [ExistsCall(table)])
    ensures var table := Qualify(tableName, namespace);
      Passes(client, table) && columns.Some? ==>
        && |r.calls| == 2 && r.calls[1].DeleteCall? && r.calls[1].table == table
        && r.calls[1].delete.row == rowKey && r.calls[1].delete.families == []
        && AllUnder(r.calls[1].delete.columns, family, columns.value)
        && Issued(client, DeleteOp, table, r.calls[1], r)
  {
    var table := Qualify(tableName, namespace);
    var refusal := Refusal(client, DeleteOp, table);
    if refusal.Some? {
      return refusal.value;
    }
    if columns.None? {
      return Response(Err(Wrapped(DeleteOp, Some(table))), [ExistsCall(table)]);
    }
    var delete := ColumnsDelete(rowKey, family, columns.value);
    r := Issue(client, DeleteOp, table, DeleteCall(table, delete), ());
  }

  /** scan: a Scan over the given bounds and families; the rows in scanner order. */
  method Scan(client: Client, tableName: string, startRow: Option<string>, stopRow: Option<string>,
              families: Option<seq<string>>, namespace: Option<string>, reply: seq<RowResult>)
    returns (r: Response<Rows>)
    ensures CheckedFirst(client, ScanOp, Qualify(tableName, namespace), r)
    ensures var table := Qualify(tableName, namespace);
      Passes(client, table) ==>
        && |r.calls| == 2 && r.calls[1].ScanCall? && r.calls[1].table == table
        && BoundFrom(r.calls[1].scan.startRow, startRow) && BoundFrom(r.calls[1].scan.stopRow, stopRow)
        && r.calls[1].scan.families == (if families.Some? then families.value else [])
        && r.calls[1].scan.columns == []
        && Issued(client, ScanOp, table, r.calls[1], r)
    ensures r.outcome.Ok? ==> r.outcome.value == Collected(reply)
  {
    var table := Qualify(tableName, namespace);
    var refusal := Refusal(client, ScanOp, table);
    if refusal.Some? {
      return refusal.value;
    }
    var scan := FamiliesScan(startRow, stopRow, families);
    var rows := CollectRows(reply);
    r := Issue(client, ScanOp, table, ScanCall(table, scan), rows);
  }

  /** scanColumnFamily: a Scan over the given bounds and, when set, columns of one family. */
  method ScanColumnFamily(client: Client, tableName: string, startRow: Option<string>, stopRow: Option<string>,
                          family: Option<string>, columns: Option<seq<string>>, namespace: Option<string>,
                          reply: seq<RowResult>)
    returns (r: Response<Rows>)
    ensures CheckedFirst(client, ScanOp, Qualify(tableName, namespace), r)
    ensures var table := Qualify(tableName, namespace);
      Passes(client, table) ==>
        && |r.calls| == 2 && r.calls[1].ScanCall? && r.calls[1].table == table
        && BoundFrom(r.calls[1].scan.startRow, startRow) && BoundFrom(r.calls[1].scan.stopRow, stopRow)
        && r.calls[1].scan.families == []
        && (r.calls[1].scan.columns != [] <==> !IsBlank(family) && columns.Some? && columns.value != [])
        && (r.calls[1].scan.columns != [] ==> AllUnder(r.calls[1].scan.columns, family.value, columns.value))
        && Issued(client, ScanOp, table, r.calls[1], r)
    ensures r.outcome.Ok? ==> r.outcome.value == Collected(reply)
  {
    var table := Qualify(tableName, namespace);
    var refusal := Refusal(client, ScanOp, table);
    if refusal.Some? {
      return refusal.value;
    }
    var scan := ColumnsScan(startRow, stopRow, family, columns);
    var rows := CollectRows(reply);
    r := Issue(client, ScanOp, table, ScanCall(table, scan), rows);
  }
}
