/** Collecting the rows a scanner yields into scan's insertion-ordered result. */
module ScanRows {
  import opened Wrappers
  import opened Cells
  import opened OrderedMaps

  /** One result of a scanner: its row key and its cells (None for a null list). */
  datatype RowResult = RowResult(row: string, cells: Option<seq<Cell>>)

  /** row -> family -> qualifier -> value, in scanner order. */
  type Rows = OrderedMap<string, map<string, map<string, string>>>

  function RowKeys(results: seq<RowResult>): (keys: seq<string>)
    ensures |keys| == |results|
    ensures forall i :: 0 <= i < |results| ==> keys[i] == results[i].row
  {
    if results == [] then [] else RowKeys(results[..|results| - 1]) + [results[|results| - 1].row]
  }

  /** The position of the first occurrence of `k`. */
  function FirstIndex(keys: seq<string>, k: string): (r: nat)
    requires k in keys
    ensures r < |keys| && keys[r] == k && k !in keys[..r]
  {
    if k in keys[..|keys| - 1] then FirstIndex(keys[..|keys| - 1], k) else |keys| - 1
  }

  /** The last result with this row key. */
  function LastResult(results: seq<RowResult>, row: string): Option<RowResult> {
    if results == [] then None
    else if results[|results| - 1].row == row then Some(results[|results| - 1])
    else LastResult(results[..|results| - 1], row)
  }

  /** The map scan returns after putting every result, in scanner order. */
  function Collected(results: seq<RowResult>): (rows: Rows)
    ensures Valid(rows)
  {
    if results == [] then Empty()
    else
      var last := results[|results| - 1];
      Put(Collected(results[..|results| - 1]), last.row, Grouped(CellList(last.cells)))
  }

  /** The rows of the result are exactly the row keys the scanner yielded. */
  lemma {:induction false} CollectedKeys(results: seq<RowResult>)
    ensures forall k :: k in Collected(results).entries <==> k in RowKeys(results)
  {
    if results != [] {
      var init := results[..|results| - 1];
      CollectedKeys(init);
      assert RowKeys(results) == RowKeys(init) + [results[|results| - 1].row];
    }
  }

  lemma FirstIndexAppend(keys: seq<string>, x: string, k: string)
    requires k in keys + [x]
    ensures FirstIndex(keys + [x], k) == if k in keys then FirstIndex(keys, k) else |keys|
  {
  }

  /** Rows are ordered by the first time the scanner yielded their key. */
  lemma {:induction false} CollectedOrder(results: seq<RowResult>)
    ensures forall k :: k in Collected(results).keys ==> k in RowKeys(results)
    ensures forall i, j :: 0 <= i < j < |Collected(results).keys| ==>
              FirstIndex(RowKeys(results), Collected(results).keys[i])
              < FirstIndex(RowKeys(results), Collected(results).keys[j])
  {
    CollectedKeys(results);
    if results != [] {
      var init := results[..|results| - 1];
      var row := results[|results| - 1].row;
      var keys0 := RowKeys(init);
      CollectedOrder(init);
      CollectedKeys(init);
      assert RowKeys(results) == keys0 + [row];
      var ks, ks0 := Collected(results).keys, Collected(init).keys;
      forall i, j | 0 <= i < j < |ks|
        ensures FirstIndex(keys0 + [row], ks[i]) < FirstIndex(keys0 + [row], ks[j])
      {
        FirstIndexAppend(keys0, row, ks[i]);
        FirstIndexAppend(keys0, row, ks[j]);
        if row !in keys0 {
          assert ks == ks0 + [row];
          assert ks[i] in ks0;
        }
      }
    }
  }

  /** Each row holds the grouped cells of the last result with that key: a repeated key overwrites. */
  lemma {:induction false} CollectedLastWins(results: seq<RowResult>)
    ensures forall k :: k in Collected(results).entries <==> LastResult(results, k).Some?
    ensures forall k :: k in Collected(results).entries ==>
              Collected(results).entries[k] == Grouped(CellList(LastResult(results, k).value.cells))
  {
    if results != [] {
      CollectedLastWins(results[..|results| - 1]);
    }
  }

  /** The result loop of scan and scanColumnFamily. */
  method CollectRows(results: seq<RowResult>) returns (rows: Rows)
    ensures rows == Collected(results)
    ensures Valid(rows)
    ensures forall k :: k in rows.entries <==> k in RowKeys(results)
    ensures forall i, j :: 0 <= i < j < |rows.keys| ==>
              FirstIndex(RowKeys(results), rows.keys[i]) < FirstIndex(RowKeys(results), rows.keys[j])
    ensures forall k :: k in rows.entries ==>
              LastResult(results, k).Some?
              && rows.entries[k] == Grouped(CellList(LastResult(results, k).value.cells))
  {
    rows := Empty();
    var i := 0;
    while i < |results|
      invariant 0 <= i <= |results|
      invariant rows == Collected(results[..i])
    {
      var kv := ResultToMap(results[i].cells);
      rows := Put(rows, results[i].row, kv);
      assert results[..i + 1][..i] == results[..i];
      i := i + 1;
    }
    assert results[..i] == results;
    CollectedKeys(results);
    CollectedOrder(results);
    CollectedLastWins(results);
  }
}
