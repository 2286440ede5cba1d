/** Rows to rectangular columns (src/DbDataFrame.cpp). The periodic interrupt check of `advance` is not modelled. */
module DataFrame {
  import opened DataTypes
  import opened ColumnChain
  import opened Column

  /** Column `j` of a list of rows. */
  function ColumnOf(rows: seq<seq<Cell>>, j: nat): (cells: seq<Cell>)
    requires forall k :: 0 <= k < |rows| ==> j < |rows[k]|
    ensures |cells| == |rows|
  {
    seq(|rows|, k requires 0 <= k < |rows| => rows[k][j])
  }

  lemma ColumnOfAppend(rows: seq<seq<Cell>>, row: seq<Cell>, j: nat)
    requires j < |row| && forall k :: 0 <= k < |rows| ==> |rows[k]| == |row|
    ensures ColumnOf(rows + [row], j) == ColumnOf(rows, j) + [row[j]]
  {
  }

  /** The finished frame: each column of the first `n` rows, typed by every row seen. */
  function FrameColumn(declared: DataType, cells: seq<Cell>, n: nat): (vs: seq<Value>)
    requires AllKnown(cells) && n <= |cells|
    ensures |vs| == if FinalType(StartType(declared), declared, cells) == Unknown then 0 else n
  {
    var final := FinalType(StartType(declared), declared, cells);
    if final == Unknown then [] else ColumnValues(StartType(declared), cells, final)[..n]
  }

  class DbDataFrame {
    const nMax: int
    var i: nat
    const data: seq<DbColumn>
    ghost const types: seq<DataType>
    ghost var rows: seq<seq<Cell>>  // every row whose values were set
    ghost var Repr: set<object>

    /** The columns are well-formed and share no memory. */
    ghost predicate Separate()
      reads this, Repr
      ensures Separate() ==> this in Repr
    {
      && this in Repr
      && |data| == |types|
      && (forall j :: 0 <= j < |data| ==> data[j] in Repr && data[j].Repr <= Repr && this !in data[j].Repr)
      && (forall j :: 0 <= j < |data| ==> data[j].Valid() && data[j].declared == types[j] && data[j].nMax == nMax)
      && (forall j, k :: 0 <= j < k < |data| ==> data[j].Repr !! data[k].Repr)
    }

    ghost predicate Valid()
      reads this, Repr
      ensures Valid() ==> this in Repr
    {
      && Separate()
      && (forall k :: 0 <= k < |rows| ==> |rows[k]| == |data|)
      && (forall j :: 0 <= j < |data| ==> data[j].cells == ColumnOf(rows, j))
    }

    constructor (types: seq<DataType>, nMax: int)
      ensures Valid() && fresh(Repr)
      ensures rows == [] && i == 0 && this.types == types && this.nMax == nMax
    {
      var cols: seq<DbColumn> := [];
      ghost var repr: set<object> := {};
      for j := 0 to |types|
        invariant |cols| == j && fresh(repr)
        invariant forall k :: 0 <= k < j ==> cols[k] in repr && cols[k].Repr <= repr
        invariant forall k :: 0 <= k < j ==> cols[k].Valid() && cols[k].declared == types[k] && cols[k].nMax == nMax
        invariant forall k :: 0 <= k < j ==> cols[k].cells == []
        invariant forall k, l :: 0 <= k < l < j ==> cols[k].Repr !! cols[l].Repr
      {
        var x := new DbColumn(types[j], nMax);
        cols := cols + [x];
        repr := repr + x.Repr;
      }
      this.data := cols;
      this.types := types;
      this.nMax := nMax;
      this.i := 0;
      this.rows := [];
      this.Repr := repr + {this};
    }

    method SetColValues(row: seq<Cell>)
      requires Valid() && |row| == |types| && AllKnown(row)
      modifies Repr
      ensures Valid() && fresh(Repr - old(Repr))
      ensures rows == old(rows) + [row] && i == old(i)
    {
      hide DbColumn.Valid;
      for j := 0 to |data|
        invariant Separate() && fresh(Repr - old(Repr)) && i == old(i) && rows == old(rows)
        invariant forall k :: 0 <= k < j ==> data[k].cells == old(data[k].cells) + [row[k]]
        invariant forall k :: j <= k < |data| ==> data[k].cells == old(data[k].cells)
      {
        SetColValue(j, row[j]);
      }
      forall j | 0 <= j < |data|
        ensures data[j].cells == ColumnOf(rows + [row], j)
      {
        ColumnOfAppend(rows, row, j);
      }
      rows := rows + [row];
    }

    method SetColValue(j: nat, cell: Cell)
      requires Separate() && j < |data| && Known(cell)
      modifies Repr
      ensures Separate() && fresh(Repr - old(Repr)) && i == old(i) && rows == old(rows)
      ensures forall k :: 0 <= k < |data| ==>
        data[k].cells == old(data[k].cells) + if k == j then [cell] else []
    {
      hide DbColumn.Valid;
      var x := data[j];
      assert forall k :: 0 <= k < |data| && k != j ==> data[k].Repr !! x.Repr;
      x.SetColValue(cell);
      Repr := Repr + x.Repr;
      assert forall k :: 0 <= k < |data| && k != j ==> data[k].Valid() && data[k].Repr == old(data[k].Repr);
    }

    /** True while the row limit is not reached. */
    method Advance() returns (more: bool)
      requires Valid()
      modifies this
      ensures Valid() && i == old(i) + 1 && rows == old(rows) && Repr == old(Repr)
      ensures more <==> nMax < 0 || i < nMax
    {
      i := i + 1;
      more := nMax < 0 || i < nMax;
    }

    method GetData() returns (out: seq<seq<Value>>)
      requires Valid() && i <= |rows|
      modifies Repr
      ensures Valid() && Repr == old(Repr) && rows == old(rows) && i == old(i)
      ensures |out| == |types|
      ensures forall j :: 0 <= j < |types| ==>
        AllKnown(ColumnOf(rows, j)) && out[j] == FrameColumn(types[j], ColumnOf(rows, j), i)
    {
      hide DbColumn.Valid;
      FinalizeCols();
      out := [];
      for j := 0 to |data|
        invariant |out| == j
        invariant forall k :: 0 <= k < j ==> out[k] == FrameColumn(types[k], ColumnOf(rows, k), i)
        modifies {}
      {
        var x := data[j].ToVector();
        out := out + [x[..]];
      }
    }

    method FinalizeCols()
      requires Valid() && i <= |rows|
      modifies Repr
      ensures Valid() && Repr == old(Repr) && rows == old(rows) && i == old(i)
      ensures forall j :: 0 <= j < |data| ==> data[j].n == i
    {
      hide DbColumn.Valid;
      for j := 0 to |data|
        invariant Valid() && Repr == old(Repr) && rows == old(rows) && i == old(i)
        invariant forall k :: 0 <= k < j ==> data[k].n == i
      {
        assert forall k :: 0 <= k < |data| && k != j ==> data[k].Repr !! data[j].Repr;
        data[j].Finalize(i);
      }
    }
  }
}
