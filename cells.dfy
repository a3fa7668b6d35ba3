/**
 * Reshaping the cells of one result (resultToMap and the cell loop of
 * getColumnFamily in HBaseUtil). Bytes are taken as already decoded strings.
 */
module Cells {
  import opened Wrappers

  /** One cell of a result: column family, qualifier and value. */
  datatype Cell = Cell(family: string, qualifier: string, value: string)

  /** The cells of a result; a null list (None) reads as empty, as CollectionUtils.isEmpty does. */
  function CellList(cells: Option<seq<Cell>>): seq<Cell> {
    if cells.Some? then cells.value else []
  }

  predicate IsAt(c: Cell, family: string, qualifier: string) {
    c.family == family && c.qualifier == qualifier
  }

  predicate HasFamily(cells: seq<Cell>, family: string) {
    exists i :: 0 <= i < |cells| && cells[i].family == family
  }

  predicate HasQualifier(cells: seq<Cell>, qualifier: string) {
    exists i :: 0 <= i < |cells| && cells[i].qualifier == qualifier
  }

  /** The value of the last cell at (family, qualifier), None when there is none. */
  function LastValue(cells: seq<Cell>, family: string, qualifier: string): Option<string> {
    if cells == [] then None
    else if IsAt(cells[|cells| - 1], family, qualifier) then Some(cells[|cells| - 1].value)
    else LastValue(cells[..|cells| - 1], family, qualifier)
  }

  /** The value of the last cell with this qualifier in any family, None when there is none. */
  function LastQualifierValue(cells: seq<Cell>, qualifier: string): Option<string> {
    if cells == [] then None
    else if cells[|cells| - 1].qualifier == qualifier then Some(cells[|cells| - 1].value)
    else LastQualifierValue(cells[..|cells| - 1], qualifier)
  }

  function Lookup(kv: map<string, map<string, string>>, family: string, qualifier: string): Option<string> {
    if family in kv && qualifier in kv[family] then Some(kv[family][qualifier]) else None
  }

  function Find(kv: map<string, string>, qualifier: string): Option<string> {
    if qualifier in kv then Some(kv[qualifier]) else None
  }

  /** One step of resultToMap: putIfAbsent of the family's map, then put of the qualifier. */
  function AddCell(kv: map<string, map<string, string>>, c: Cell): map<string, map<string, string>> {
    var inner := if c.family in kv then kv[c.family] else map[];
    kv[c.family := inner[c.qualifier := c.value]]
  }

  /** The family -> qualifier -> value map after adding every cell in order. */
  function Grouped(cells: seq<Cell>): map<string, map<string, string>> {
    if cells == [] then map[]
    else AddCell(Grouped(cells[..|cells| - 1]), cells[|cells| - 1])
  }

  /** The qualifier -> value map after putting every cell in order. */
  function Flatten(cells: seq<Cell>): map<string, string> {
    if cells == [] then map[]
    else Flatten(cells[..|cells| - 1])[cells[|cells| - 1].qualifier := cells[|cells| - 1].value]
  }

  /** LastValue names the value of the last matching cell, and is None only when no cell matches. */
  lemma {:induction false} LastValueIsLastCell(cells: seq<Cell>, family: string, qualifier: string)
    ensures LastValue(cells, family, qualifier).None?
            <==> forall i :: 0 <= i < |cells| ==> !IsAt(cells[i], family, qualifier)
    ensures LastValue(cells, family, qualifier).Some? ==>
              exists i :: 0 <= i < |cells| && IsAt(cells[i], family, qualifier)
                          && cells[i].value == LastValue(cells, family, qualifier).value
                          && forall j :: i < j < |cells| ==> !IsAt(cells[j], family, qualifier)
  {
    if cells != [] {
      var init := cells[..|cells| - 1];
      LastValueIsLastCell(init, family, qualifier);
      if !IsAt(cells[|cells| - 1], family, qualifier) {
        if LastValue(init, family, qualifier).Some? {
          var i :| 0 <= i < |init| && IsAt(init[i], family, qualifier)
                   && init[i].value == LastValue(init, family, qualifier).value
                   && forall j :: i < j < |init| ==> !IsAt(init[j], family, qualifier);
          assert cells[i] == init[i];
        } else {
          forall i | 0 <= i < |cells| ensures !IsAt(cells[i], family, qualifier) {
            if i < |init| { assert cells[i] == init[i]; }
          }
        }
      }
    }
  }

  /** LastQualifierValue names the value of the last cell with the qualifier. */
  lemma {:induction false} LastQualifierValueIsLastCell(cells: seq<Cell>, qualifier: string)
    ensures LastQualifierValue(cells, qualifier).None? <==> !HasQualifier(cells, qualifier)
    ensures LastQualifierValue(cells, qualifier).Some? ==>
              exists i :: 0 <= i < |cells| && cells[i].qualifier == qualifier
                          && cells[i].value == LastQualifierValue(cells, qualifier).value
                          && forall j :: i < j < |cells| ==> cells[j].qualifier != qualifier
  {
    if cells != [] {
      var init := cells[..|cells| - 1];
      LastQualifierValueIsLastCell(init, qualifier);
      if cells[|cells| - 1].qualifier != qualifier {
        if LastQualifierValue(init, qualifier).Some? {
          var i :| 0 <= i < |init| && init[i].qualifier == qualifier
                   && init[i].value == LastQualifierValue(init, qualifier).value
                   && forall j :: i < j < |init| ==> init[j].qualifier != qualifier;
          assert cells[i] == init[i];
        }
      }
    }
  }

  /** A family is a key of the grouped map exactly when some cell has that family. */
  lemma {:induction false} GroupedFamilies(cells: seq<Cell>)
    ensures forall f :: f in Grouped(cells) <==> HasFamily(cells, f)
  {
    if cells != [] {
      var init, c := cells[..|cells| - 1], cells[|cells| - 1];
      GroupedFamilies(init);
      forall f ensures HasFamily(cells, f) <==> HasFamily(init, f) || c.family == f {
        if HasFamily(init, f) {
          var i :| 0 <= i < |init| && init[i].family == f;
          assert cells[i] == init[i];
        }
        if HasFamily(cells, f) {
          var i :| 0 <= i < |cells| && cells[i].family == f;
          if i < |init| { assert init[i] == cells[i]; }
        }
      }
    }
  }

  /** Last write wins: every (family, qualifier) of the grouped map holds the last such cell's value. */
  lemma {:induction false} GroupedLastWins(cells: seq<Cell>)
    ensures forall f, q :: Lookup(Grouped(cells), f, q) == LastValue(cells, f, q)
  {
    if cells != [] {
      GroupedLastWins(cells[..|cells| - 1]);
    }
  }

  /** Last write wins for the flattened map too. */
  lemma {:induction false} FlattenLastWins(cells: seq<Cell>)
    ensures forall q :: Find(Flatten(cells), q) == LastQualifierValue(cells, q)
  {
    if cells != [] {
      FlattenLastWins(cells[..|cells| - 1]);
    }
  }

  /**
   * When every cell belongs to one family, as in the reply to a get of that
   * family, the flattened map is exactly that family's map in the grouped one.
   */
  lemma {:induction false} FlattenIsOneFamily(cells: seq<Cell>, family: string)
    requires cells != []
    requires forall i :: 0 <= i < |cells| ==> cells[i].family == family
    ensures Grouped(cells).Keys == {family}
    ensures Grouped(cells)[family] == Flatten(cells)
  {
    var init := cells[..|cells| - 1];
    if init != [] {
      FlattenIsOneFamily(init, family);
    }
  }

  /** resultToMap, as the loop the source runs over the cells. */
  method ResultToMap(cells: Option<seq<Cell>>) returns (kv: map<string, map<string, string>>)
    ensures kv == Grouped(CellList(cells))
    ensures CellList(cells) == [] ==> kv == map[]
    ensures forall f :: f in kv <==> HasFamily(CellList(cells), f)
    ensures forall f, q :: Lookup(kv, f, q) == LastValue(CellList(cells), f, q)
  {
    kv := map[];
    if cells.Some? && |cells.value| != 0 {
      var cs := cells.value;
      var i := 0;
      while i < |cs|
        invariant 0 <= i <= |cs|
        invariant kv == Grouped(cs[..i])
      {
        var c := cs[i];
        if c.family !in kv {
          kv := kv[c.family := map[]];
        }
        kv := kv[c.family := kv[c.family][c.qualifier := c.value]];
        assert cs[..i + 1][..i] == cs[..i];
        i := i + 1;
      }
      assert cs[..i] == cs;
    }
    GroupedFamilies(CellList(cells));
    GroupedLastWins(CellList(cells));
  }

  /** The cell loop of getColumnFamily: qualifier -> value, whatever the family. */
  method QualifierMap(cells: Option<seq<Cell>>) returns (kv: map<string, string>)
    ensures kv == Flatten(CellList(cells))
    ensures CellList(cells) == [] ==> kv == map[]
    ensures forall q :: q in kv <==> HasQualifier(CellList(cells), q)
    ensures forall q :: Find(kv, q) == LastQualifierValue(CellList(cells), q)
  {
    kv := map[];
    if cells.Some? && |cells.value| != 0 {
      var cs := cells.value;
      for i := 0 to |cs|
        invariant kv == Flatten(cs[..i])
      {
        kv := kv[cs[i].qualifier := cs[i].value];
        assert cs[..i + 1][..i] == cs[..i];
      }
      assert cs[..|cs|] == cs;
    }
    FlattenLastWins(CellList(cells));
    forall q ensures q in kv <==> HasQualifier(CellList(cells), q) {
      LastQualifierValueIsLastCell(CellList(cells), q);
    }
  }
}
