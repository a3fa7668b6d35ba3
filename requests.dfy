/**
 * What the wrapper puts into the client's request objects (table descriptor,
 * Put, Get, Delete, Scan), built step by step as the source builds them.
 */
module Requests {
  import opened Wrappers
  import opened TableNames
  import opened Cells

  /** A (family, qualifier) column. */
  datatype Column = Column(family: string, qualifier: string)

  datatype TableDescriptor = TableDescriptor(name: string, families: seq<string>)

  /** A Put: its row key and the cells added, in the order added. */
  datatype PutRequest = PutRequest(row: string, cells: seq<Cell>)

  /** A Get: its row key and the families and columns it is restricted to (none: the whole row). */
  datatype GetRequest = GetRequest(row: string, families: seq<string>, columns: seq<Column>)

  /** A Delete: its row key and the families and columns it names (none: the whole row). */
  datatype DeleteRequest = DeleteRequest(row: string, families: seq<string>, columns: seq<Column>)

  /** A Scan: optional start and stop rows (None: unbounded) and the families and columns added. */
  datatype ScanRequest = ScanRequest(startRow: Option<string>, stopRow: Option<string>,
                                     families: seq<string>, columns: seq<Column>)

  /** `columns` are the given qualifiers, in order, each under `family`. */
  predicate AllUnder(columns: seq<Column>, family: string, qualifiers: seq<string>) {
    |columns| == |qualifiers| && forall i :: 0 <= i < |columns| ==> columns[i] == Column(family, qualifiers[i])
  }

  /** A Put holding one cell per entry of `keyValues`, all under `family`. */
  ghost predicate HoldsEntries(p: PutRequest, row: string, family: string, keyValues: map<string, string>) {
    && p.row == row
    && |p.cells| == |keyValues|
    && forall c :: c in p.cells <==> c.family == family && c.qualifier in keyValues && keyValues[c.qualifier] == c.value
  }

  /** A row bound is set exactly when the string is not blank, and then to that string. */
  predicate BoundFrom(bound: Option<string>, s: Option<string>) {
    (bound.Some? <==> !IsBlank(s)) && (bound.Some? ==> bound == s)
  }

  /** createTable's builder loop: one family descriptor per given family. */
  method Descriptor(name: string, families: seq<string>) returns (d: TableDescriptor)
    ensures d.name == name
    ensures d.families == families
  {
    d := TableDescriptor(name, []);
    for i := 0 to |families|
      invariant d == TableDescriptor(name, families[..i])
    {
      d := d.(families := d.families + [families[i]]);
      assert families[..i + 1] == families[..i] + [families[i]];
    }
    assert families[..|families|] == families;
  }

  /** The map overload of put: keyValues.forEach adds each entry, in the map's (unspecified) order. */
  method EntriesPut(row: string, family: string, keyValues: map<string, string>) returns (p: PutRequest)
    ensures HoldsEntries(p, row, family, keyValues)
  {
    p := PutRequest(row, []);
    var rest := keyValues.Keys;
    while rest != {}
      invariant rest <= keyValues.Keys
      invariant |p.cells| + |rest| == |keyValues|
      invariant p.row == row
      invariant forall c :: c in p.cells <==>
                  c.family == family && c.qualifier in keyValues.Keys - rest && keyValues[c.qualifier] == c.value
      decreases rest
    {
      var k :| k in rest;
      p := p.(cells := p.cells + [Cell(family, k, keyValues[k])]);
      rest := rest - {k};
    }
  }

  /** deleteColumnFamily's loop: addFamily for each family. */
  method FamiliesDelete(row: string, families: seq<string>) returns (d: DeleteRequest)
    ensures d == DeleteRequest(row, families, [])
  {
    d := DeleteRequest(row, [], []);
    for i := 0 to |families|
      invariant d == DeleteRequest(row, families[..i], [])
    {
      d := d.(families := d.families + [families[i]]);
      assert families[..i + 1] == families[..i] + [families[i]];
    }
    assert families[..|families|] == families;
  }

  /** deleteColumn's loop: addColumn under the one family for each column. */
  method ColumnsDelete(row: string, family: string, qualifiers: seq<string>) returns (d: DeleteRequest)
    ensures d.row == row && d.families == []
    ensures AllUnder(d.columns, family, qualifiers)
  {
    d := DeleteRequest(row, [], []);
    for i := 0 to |qualifiers|
      invariant d.row == row && d.families == []
      invariant AllUnder(d.columns, family, qualifiers[..i])
    {
      d := d.(columns := d.columns + [Column(family, qualifiers[i])]);
    }
  }

  /** The Scan of scan: row bounds when not blank, families only from a non-null, non-empty array. */
  method FamiliesScan(startRow: Option<string>, stopRow: Option<string>, families: Option<seq<string>>)
    returns (s: ScanRequest)
    ensures BoundFrom(s.startRow, startRow) && BoundFrom(s.stopRow, stopRow)
    ensures s.families == (if families.Some? then families.value else [])
    ensures s.columns == []
  {
    s := ScanRequest(None, None, [], []);
    if !IsBlank(startRow) {
      s := s.(startRow := startRow);
    }
    if !IsBlank(stopRow) {
      s := s.(stopRow := stopRow);
    }
    if families.Some? && |families.value| > 0 {
      var fs := families.value;
      for i := 0 to |fs|
        invariant s.families == fs[..i] && s.columns == []
        invariant BoundFrom(s.startRow, startRow) && BoundFrom(s.stopRow, stopRow)
      {
        s := s.(families := s.families + [fs[i]]);
        assert fs[..i + 1] == fs[..i] + [fs[i]];
      }
      assert fs[..|fs|] == fs;
    }
  }

  /**
   * The Scan of scanColumnFamily: row bounds when not blank; columns only when
   * the family is not blank and the column array is non-null and non-empty.
   */
  method ColumnsScan(startRow: Option<string>, stopRow: Option<string>,
                     family: Option<string>, qualifiers: Option<seq<string>>)
    returns (s: ScanRequest)
    ensures BoundFrom(s.startRow, startRow) && BoundFrom(s.stopRow, stopRow)
    ensures s.families == []
    ensures s.columns != [] <==> !IsBlank(family) && qualifiers.Some? && qualifiers.value != []
    ensures s.columns != [] ==> AllUnder(s.columns, family.value, qualifiers.value)
  {
    s := ScanRequest(None, None, [], []);
    if !IsBlank(startRow) {
      s := s.(startRow := startRow);
    }
    if !IsBlank(stopRow) {
      s := s.(stopRow := stopRow);
    }
    if !IsBlank(family) && qualifiers.Some? && |qualifiers.value| > 0 {
      var qs := qualifiers.value;
      for i := 0 to |qs|
        invariant s.families == []
        invariant AllUnder(s.columns, family.value, qs[..i])
        invariant BoundFrom(s.startRow, startRow) && BoundFrom(s.stopRow, stopRow)
      {
        s := s.(columns := s.columns + [Column(family.value, qs[i])]);
      }
      assert qs[..|qs|] == qs;
    }
  }
}
