/** What a chain of column storages does, seen as a value: where each appended cell goes, which
    capacities are allocated, and what the flattened column is. The classes of ColumnStorage and
    Column are proved to follow this model; here it is proved equal to a plain list of cells. */
module ColumnChain {
  import opened Base
  import opened DataTypes

  /** One storage: its element type, the number of elements allocated, the cells appended to it. */
  datatype Store = Store(dt: DataType, cap: nat, cells: seq<Cell>)

  const MIN_DATA_CAPACITY := 100

  function NewCapacity(nMax: int, desired: int): nat {
    if nMax < 0 then Max(desired, MIN_DATA_CAPACITY) else Max(desired, 1)
  }

  /** The capacity of the storage that takes over from one of capacity `cap` holding `used` cells. */
  function NextCapacity(nMax: int, cap: nat, used: nat): nat {
    NewCapacity(nMax, if nMax < 0 then cap * 2 else nMax - used)
  }

  /** A full INT storage meeting a wider value spills twice: once to INT, at once again to the wide type. */
  function SpillCapacity(s: Store, nMax: int, cell: Cell): nat
    requires cell.Data?
  {
    var c := NextCapacity(nMax, s.cap, |s.cells|);
    if s.dt == Int && s.cap <= |s.cells| && Promote(Int, cell) != Int then NextCapacity(nMax, c, 0) else c
  }

  predicate Fits(s: Store, cell: Cell) {
    s.dt != Unknown && |s.cells| < s.cap && Promote(s.dt, cell) == s.dt
  }

  function FirstStore(start: DataType, nMax: int): Store {
    Store(start, if start == Unknown then 0 else NewCapacity(nMax, 0), [])
  }

  function ChainAppend(chain: seq<Store>, nMax: int, cell: Cell): seq<Store>
    requires chain != []
  {
    var s := chain[|chain| - 1];
    if cell.Null? || Fits(s, cell) then
      chain[|chain| - 1 := s.(cells := s.cells + [cell])]
    else
      chain + [Store(Promote(s.dt, cell), SpillCapacity(s, nMax, cell), [cell])]
  }

  function ChainOf(start: DataType, nMax: int, cells: seq<Cell>): (chain: seq<Store>)
    ensures chain != []
  {
    if cells == [] then [FirstStore(start, nMax)]
    else ChainAppend(ChainOf(start, nMax, cells[..|cells| - 1]), nMax, cells[|cells| - 1])
  }

  lemma ChainOfAppend(start: DataType, nMax: int, cells: seq<Cell>, cell: Cell)
    ensures ChainOf(start, nMax, cells + [cell]) == ChainAppend(ChainOf(start, nMax, cells), nMax, cell)
  {
    assert (cells + [cell])[..|cells|] == cells;
  }

  // ----- The plain column: a list of cells and the type they end up in -----

  /** Logical columns start without a type, src/DbColumn.cpp:14-16. */
  function StartType(declared: DataType): DataType {
    if declared == Bool then Unknown else declared
  }

  function TypeAfter(start: DataType, cells: seq<Cell>): DataType {
    if cells == [] then start
    else Promote(TypeAfter(start, cells[..|cells| - 1]), cells[|cells| - 1])
  }

  /** The type of the finished column: the declared one if no value ever decided. */
  function FinalType(start: DataType, declared: DataType, cells: seq<Cell>): DataType {
    var t := TypeAfter(start, cells);
    if t == Unknown then declared else t
  }

  predicate AllKnown(cells: seq<Cell>) {
    forall k :: 0 <= k < |cells| ==> Known(cells[k])
  }

  function CellValue(cell: Cell, dt: DataType, final: DataType): Value
    requires final != Unknown && Widens(dt, final)
    requires cell.Data? ==> dt != Unknown
  {
    if cell.Null? then NaOf(final) else Widen(FetchAs(cell.readings, dt), dt, final)
  }

  /** Each cell read at the type the column had when it arrived, widened to the final type. */
  function ColumnValues(start: DataType, cells: seq<Cell>, final: DataType): (vs: seq<Value>)
    requires AllKnown(cells)
    requires final != Unknown && Widens(TypeAfter(start, cells), final)
    ensures |vs| == |cells|
  {
    if cells == [] then []
    else
      var last := |cells| - 1;
      ColumnValues(start, cells[..last], final) + [CellValue(cells[last], TypeAfter(start, cells), final)]
  }

  // ----- Flattening a chain -----

  /** Nulls may run past the capacity; values never do, and an untyped storage holds none. */
  predicate StoreOk(s: Store) {
    && (s.dt == Unknown <==> s.cap == 0)
    && forall k :: 0 <= k < |s.cells| && s.cap <= k ==> s.cells[k].Null?
  }

  ghost predicate ChainOk(chain: seq<Store>, final: DataType) {
    && chain != []
    && (forall k :: 0 <= k < |chain| ==> StoreOk(chain[k]) && Widens(chain[k].dt, final))
    && (forall k :: 1 <= k < |chain| ==> chain[k].dt != Unknown)
  }

  function StoreValues(s: Store, final: DataType): (vs: seq<Value>)
    requires StoreOk(s) && final != Unknown && Widens(s.dt, final)
    ensures |vs| == |s.cells|
  {
    seq(|s.cells|, k requires 0 <= k < |s.cells| => CellValue(s.cells[k], s.dt, final))
  }

  function FlatValues(chain: seq<Store>, final: DataType): seq<Value>
    requires final != Unknown
    requires forall k :: 0 <= k < |chain| ==> StoreOk(chain[k]) && Widens(chain[k].dt, final)
  {
    if chain == [] then []
    else FlatValues(chain[..|chain| - 1], final) + StoreValues(chain[|chain| - 1], final)
  }

  // ----- The chain is the plain column -----

  lemma AppendOk(chain: seq<Store>, nMax: int, cell: Cell, final: DataType)
    requires ChainOk(chain, final) && Known(cell)
    requires Widens(Promote(chain[|chain| - 1].dt, cell), final)
    ensures ChainOk(ChainAppend(chain, nMax, cell), final)
  {
    var s, chain' := chain[|chain| - 1], ChainAppend(chain, nMax, cell);
    forall k | 0 <= k < |chain'| ensures StoreOk(chain'[k]) && Widens(chain'[k].dt, final) {
      if k < |chain| - 1 {
        assert chain'[k] == chain[k];
      }
    }
  }

  lemma FirstOk(start: DataType, nMax: int, final: DataType)
    ensures StoreOk(FirstStore(start, nMax))
  {
  }

  lemma {:induction false} ChainOfOk(start: DataType, nMax: int, cells: seq<Cell>, final: DataType)
    requires AllKnown(cells) && Widens(TypeAfter(start, cells), final)
    ensures ChainOk(ChainOf(start, nMax, cells), final)
    ensures var chain := ChainOf(start, nMax, cells); chain[|chain| - 1].dt == TypeAfter(start, cells)
  {
    hide StoreOk, SpillCapacity;
    FirstOk(start, nMax, final);
    if cells != [] {
      var front, cell := cells[..|cells| - 1], cells[|cells| - 1];
      ChainOfOk(start, nMax, front, final);
      AppendOk(ChainOf(start, nMax, front), nMax, cell, final);
    }
  }

  /** Flattening the chain gives the plain column, whatever spills, overflowing nulls or promotions happened. */
  lemma {:induction false} ChainIsPlainColumn(start: DataType, nMax: int, cells: seq<Cell>, final: DataType)
    requires AllKnown(cells) && final != Unknown && Widens(TypeAfter(start, cells), final)
    ensures ChainOk(ChainOf(start, nMax, cells), final)
    ensures FlatValues(ChainOf(start, nMax, cells), final) == ColumnValues(start, cells, final)
  {
    hide CellValue, StoreOk, StoreValues, Promote, Widens, ChainAppend, FirstStore, FlatValues;
    ChainOfOk(start, nMax, cells, final);
    if cells == [] {
      FirstIsEmpty(start, nMax, final);
    } else {
      var front, cell := cells[..|cells| - 1], cells[|cells| - 1];
      PromoteWidens(TypeAfter(start, front), cell, final);
      ChainIsPlainColumn(start, nMax, front, final);
      ChainOfOk(start, nMax, front, final);
      AppendValue(ChainOf(start, nMax, front), nMax, cell, final);
    }
  }

  lemma FirstIsEmpty(start: DataType, nMax: int, final: DataType)
    requires final != Unknown && Widens(start, final)
    ensures StoreOk(FirstStore(start, nMax)) && FlatValues([FirstStore(start, nMax)], final) == []
  {
  }

  lemma PromoteWidens(dt: DataType, cell: Cell, final: DataType)
    requires Widens(Promote(dt, cell), final)
    ensures Widens(dt, final)
  {
  }

  /** One append adds exactly one value at the end of the flattened chain. */
  lemma AppendValue(chain: seq<Store>, nMax: int, cell: Cell, final: DataType)
    requires final != Unknown && ChainOk(chain, final) && Known(cell)
    requires var dt := Promote(chain[|chain| - 1].dt, cell); Widens(dt, final)
    ensures ChainOk(ChainAppend(chain, nMax, cell), final)
    ensures FlatValues(ChainAppend(chain, nMax, cell), final)
         == FlatValues(chain, final) + [CellValue(cell, Promote(chain[|chain| - 1].dt, cell), final)]
  {
    hide FlatValues, StoreValues, StoreOk, CellValue, Promote, Widens, SpillCapacity;
    AppendOk(chain, nMax, cell, final);
    var last := |chain| - 1;
    var s, chain' := chain[last], ChainAppend(chain, nMax, cell);
    if cell.Null? || Fits(s, cell) {
      var s' := s.(cells := s.cells + [cell]);
      StoreValuesAppend(s, cell, final);
      PromoteNothing(s, cell);
      FlatValuesAppend(chain[..last], s, final);
      FlatValuesAppend(chain[..last], s', final);
      assert chain == chain[..last] + [s] && chain' == chain[..last] + [s'];
    } else {
      FlatValuesAppend(chain, chain'[last + 1], final);
      NewStoreValue(chain'[last + 1], cell, final);
    }
  }

  lemma PromoteNothing(s: Store, cell: Cell)
    requires cell.Null? || Fits(s, cell)
    ensures Promote(s.dt, cell) == s.dt
  {
  }

  lemma NewStoreValue(s: Store, cell: Cell, final: DataType)
    requires final != Unknown && StoreOk(s) && Widens(s.dt, final) && s.cells == [cell] && cell.Data? && s.dt != Unknown
    ensures StoreValues(s, final) == [CellValue(cell, s.dt, final)]
  {
  }

  lemma FlatValuesAppend(chain: seq<Store>, s: Store, final: DataType)
    requires final != Unknown && StoreOk(s) && Widens(s.dt, final)
    requires forall k :: 0 <= k < |chain| ==> StoreOk(chain[k]) && Widens(chain[k].dt, final)
    ensures FlatValues(chain + [s], final) == FlatValues(chain, final) + StoreValues(s, final)
  {
    assert (chain + [s])[..|chain|] == chain;
  }

  lemma StoreValuesAppend(s: Store, cell: Cell, final: DataType)
    requires final != Unknown && StoreOk(s) && Widens(s.dt, final)
    requires cell.Null? || Fits(s, cell)
    ensures StoreOk(s.(cells := s.cells + [cell]))
    ensures StoreValues(s.(cells := s.cells + [cell]), final) == StoreValues(s, final) + [CellValue(cell, s.dt, final)]
  {
  }

  // ----- What the plain column says, position by position -----

  lemma {:induction false} TypesWiden(start: DataType, cells: seq<Cell>, k: nat)
    requires k <= |cells|
    ensures Widens(TypeAfter(start, cells[..k]), TypeAfter(start, cells))
  {
    if k < |cells| {
      var front := cells[..|cells| - 1];
      TypesWiden(start, front, k);
      assert front[..k] == cells[..k];
    } else {
      assert cells[..k] == cells;
    }
  }

  lemma WidensOn(a: DataType, b: DataType, c: DataType)
    requires Widens(a, b) && Widens(b, c)
    ensures Widens(a, c)
  {
  }

  lemma FrontKnown(cells: seq<Cell>)
    requires AllKnown(cells) && cells != []
    ensures AllKnown(cells[..|cells| - 1])
  {
  }

  lemma {:induction false} ColumnValueAt(start: DataType, cells: seq<Cell>, final: DataType, k: nat)
    requires AllKnown(cells) && k < |cells|
    requires final != Unknown && Widens(TypeAfter(start, cells), final)
    ensures Widens(TypeAfter(start, cells[..k + 1]), final)
    ensures ColumnValues(start, cells, final)[k] == CellValue(cells[k], TypeAfter(start, cells[..k + 1]), final)
  {
    hide CellValue, Promote, Widens, TypeAfter, AllKnown;
    TypesWiden(start, cells, k + 1);
    WidensOn(TypeAfter(start, cells[..k + 1]), TypeAfter(start, cells), final);
    var last := |cells| - 1;
    if k < last {
      TypesWiden(start, cells, last);
      WidensOn(TypeAfter(start, cells[..last]), TypeAfter(start, cells), final);
      FrontKnown(cells);
      ColumnValueAt(start, cells[..last], final, k);
      assert cells[..last][..k + 1] == cells[..k + 1];
    } else {
      assert cells[..k + 1] == cells;
    }
  }

  /** The number a value stands for, where it stands for one exactly. */
  function IntegerOf(v: Value): Option<int> {
    match v
    case I32(i) => if i == NA_INTEGER then None else Some(i)
    case I64(j) => if j == NA_INTEGER64 then None else Some(j)
    case Dbl(Num(x)) => if x.Floor as real == x then Some(x.Floor) else None
    case _ => None
  }

  /** An int read while the column was INT survives every later promotion, unless it is R's missing value. */
  lemma PromotionIsLossless(start: DataType, cells: seq<Cell>, final: DataType, k: nat)
    requires AllKnown(cells) && k < |cells|
    requires final != Unknown && Widens(TypeAfter(start, cells), final)
    requires cells[k].Data? && TypeAfter(start, cells[..k + 1]) == Int
    requires -0x8000_0000 <= cells[k].readings.asInt < 0x8000_0000
    ensures final in {Int, Int64, Real}
    ensures var v := ColumnValues(start, cells, final)[k];
      && (v == NaOf(final) <==> cells[k].readings.asInt == NA_INTEGER)
      && (cells[k].readings.asInt != NA_INTEGER ==> IntegerOf(v) == Some(cells[k].readings.asInt))
  {
    ColumnValueAt(start, cells, final, k);
  }

  /** A source that reports one type only: no promotion, and every value is read at that type. */
  ghost predicate FixedType(dt: DataType, cells: seq<Cell>) {
    dt != Unknown && forall k :: 0 <= k < |cells| ==> cells[k].Data? ==> cells[k].reported == dt
  }

  lemma {:induction false} FixedTypeColumn(dt: DataType, cells: seq<Cell>)
    requires FixedType(dt, cells)
    ensures TypeAfter(StartType(dt), cells) in {dt, StartType(dt)}
    ensures FinalType(StartType(dt), dt, cells) == dt
    ensures AllKnown(cells)
    ensures ColumnValues(StartType(dt), cells, dt) == seq(|cells|, k requires 0 <= k < |cells| => Stored(cells[k], dt))
  {
    if cells != [] {
      FixedTypeColumn(dt, cells[..|cells| - 1]);
    }
  }

  // ----- Allocation bounds -----

  function Allocated(chain: seq<Store>): nat {
    if chain == [] then 0 else Allocated(chain[..|chain| - 1]) + chain[|chain| - 1].cap
  }

  function CellCount(chain: seq<Store>): nat {
    if chain == [] then 0 else CellCount(chain[..|chain| - 1]) + |chain[|chain| - 1].cells|
  }

  lemma AppendCounts(chain: seq<Store>, nMax: int, cell: Cell)
    requires chain != []
    ensures CellCount(ChainAppend(chain, nMax, cell)) == CellCount(chain) + 1
    ensures var chain' := ChainAppend(chain, nMax, cell);
      Allocated(chain') == Allocated(chain) + if |chain'| == |chain| then 0 else chain'[|chain|].cap
  {
    var last, chain' := |chain| - 1, ChainAppend(chain, nMax, cell);
    if |chain'| == |chain| {
      assert chain'[..last] == chain[..last];
    } else {
      assert chain'[..last + 1] == chain;
    }
  }

  /** One more cell of a fixed type either goes into the last storage or follows a full one. */
  lemma FixedTypeStep(dt: DataType, nMax: int, chain: seq<Store>, cell: Cell)
    requires chain != [] && dt != Unknown && (cell.Data? ==> cell.reported == dt)
    requires var s := chain[|chain| - 1]; s.dt in {dt, StartType(dt)} && StoreOk(s)
    ensures var chain' := ChainAppend(chain, nMax, cell); var s, t := chain[|chain| - 1], chain'[|chain'| - 1];
      && CellCount(chain') == CellCount(chain) + 1
      && |chain'| in {|chain|, |chain| + 1} && chain'[0].cap == chain[0].cap
      && if |chain'| == |chain| then
          t.cap == s.cap && |t.cells| == |s.cells| + 1 && Allocated(chain') == Allocated(chain)
        else
          && s.cap <= |s.cells| && |t.cells| == 1 && chain'[0] == chain[0]
          && t.cap == NextCapacity(nMax, s.cap, |s.cells|) && Allocated(chain') == Allocated(chain) + t.cap
  {
    AppendCounts(chain, nMax, cell);
  }

  lemma FixedTypeLast(dt: DataType, nMax: int, cells: seq<Cell>)
    requires FixedType(dt, cells)
    ensures var chain := ChainOf(StartType(dt), nMax, cells);
      chain[|chain| - 1].dt in {dt, StartType(dt)} && StoreOk(chain[|chain| - 1])
  {
    FixedTypeColumn(dt, cells);
    ChainOfOk(StartType(dt), nMax, cells, dt);
  }

  /** With a row limit, a fixed-type column uses at most two storages and never allocates more than the limit. */
  lemma {:induction false} BoundedAllocation(dt: DataType, nMax: int, cells: seq<Cell>)
    requires FixedType(dt, cells) && 1 <= nMax && |cells| <= nMax
    ensures var chain := ChainOf(StartType(dt), nMax, cells);
      && |chain| <= 2
      && Allocated(chain) <= nMax
      && CellCount(chain) == |cells|
      && chain[0].cap == (if dt == Bool then 0 else 1)
      && (|chain| == 1 ==> Allocated(chain) == chain[0].cap && |chain[0].cells| == |cells|)
      && (|chain| == 2 ==> chain[1].cap + |chain[0].cells| == nMax && |chain[0].cells| + |chain[1].cells| == |cells|)
  {
    var chain := ChainOf(StartType(dt), nMax, cells);
    if cells == [] {
      assert chain[..0] == [];
    } else {
      var front := cells[..|cells| - 1];
      BoundedAllocation(dt, nMax, front);
      FixedTypeLast(dt, nMax, front);
      FixedTypeStep(dt, nMax, ChainOf(StartType(dt), nMax, front), cells[|cells| - 1]);
    }
  }

  /** Without a limit, at most twice the rows plus the first hundred elements are allocated. */
  lemma {:induction false} UnboundedAllocation(dt: DataType, nMax: int, cells: seq<Cell>)
    requires FixedType(dt, cells) && nMax < 0
    ensures var chain := ChainOf(StartType(dt), nMax, cells); var last := chain[|chain| - 1];
      && Allocated(chain) <= 2 * |cells| + 100
      && CellCount(chain) == |cells|
      && Allocated(chain) + MIN_DATA_CAPACITY == (if |chain| == 1 && dt == Bool then MIN_DATA_CAPACITY else 2 * last.cap)
      && (last.cap == 0 <==> |chain| == 1 && dt == Bool)
      && (last.cap > 0 ==> last.cap >= 100)
      && Allocated(chain) - last.cap <= |cells| - |last.cells|
  {
    var chain := ChainOf(StartType(dt), nMax, cells);
    if cells == [] {
      assert chain[..0] == [];
    } else {
      var front := cells[..|cells| - 1];
      UnboundedAllocation(dt, nMax, front);
      FixedTypeLast(dt, nMax, front);
      FixedTypeStep(dt, nMax, ChainOf(StartType(dt), nMax, front), cells[|cells| - 1]);
    }
  }

  /** The types along a chain: possibly untyped first, then INT for a while, then one type for good. */
  lemma {:induction false} ChainTypesAscend(start: DataType, nMax: int, cells: seq<Cell>)
    requires AllKnown(cells)
    ensures var chain := ChainOf(start, nMax, cells);
      && (forall k :: 1 <= k < |chain| ==> chain[k].dt != Unknown)
      && (forall j, k :: 0 <= j < k < |chain| ==> Widens(chain[j].dt, chain[k].dt))
      && chain[0].dt == start && chain[|chain| - 1].dt == TypeAfter(start, cells)
  {
    if cells != [] {
      var front, cell := cells[..|cells| - 1], cells[|cells| - 1];
      ChainTypesAscend(start, nMax, front);
      var chain, chain' := ChainOf(start, nMax, front), ChainOf(start, nMax, cells);
      assert forall k :: 0 <= k < |chain| ==> chain'[k].dt == chain[k].dt;
    }
  }
}
