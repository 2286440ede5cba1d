/** One growable storage of a column (src/DbColumnStorage.cpp), over the model of ColumnChain.
    What the column's data source answers for the current row is handed in as a `Cell`. */
module ColumnStorage {
  import opened Base
  import opened DataTypes
  import opened ColumnChain

  /** A fresh R vector. R's NULL has length zero whatever is asked for. */
  method Allocate(length: nat, dt: DataType) returns (x: array<Value>)
    ensures fresh(x)
    ensures x.Length == if dt == Unknown then 0 else length
  {
    x := new Value[if dt == Unknown then 0 else length];
  }

  lemma WidenStored(cell: Cell, dt: DataType, final: DataType)
    requires dt != Unknown && final != Unknown && Widens(dt, final)
    ensures dt == Int ==> Stored(cell, dt).I32?
    ensures Widen(Stored(cell, dt), dt, final) == CellValue(cell, dt, final)
  {
  }

  class DbColumnStorage {
    const data: array<Value>
    var i: nat
    const dt: DataType
    const nMax: int

    /** This object represents the storage `s`. */
    ghost predicate Represents(s: Store)
      reads this, data
    {
      && StoreOk(s)
      && dt == s.dt && data.Length == s.cap && i == |s.cells|
      && forall k :: 0 <= k < i && k < data.Length ==> data[k] == Stored(s.cells[k], dt)
    }

    constructor (dt: DataType, desired: int, nMax: int)
      ensures this.dt == dt && this.nMax == nMax && fresh(data)
      ensures Represents(Store(dt, if dt == Unknown then 0 else NewCapacity(nMax, desired), []))
    {
      var x := Allocate(NewCapacity(nMax, desired), dt);
      this.data := x;
      this.i := 0;
      this.dt := dt;
      this.nMax := nMax;
    }

    method AppendCol(cell: Cell, ghost s: Store) returns (next: DbColumnStorage)
      requires Represents(s) && Known(cell)
      modifies this, data
      ensures cell.Null? || Fits(s, cell) ==> next == this && Represents(s.(cells := s.cells + [cell]))
      ensures !(cell.Null? || Fits(s, cell)) ==>
        && Represents(s)
        && fresh(next) && fresh(next.data) && next.nMax == nMax
        && next.Represents(Store(Promote(dt, cell), SpillCapacity(s, nMax, cell), [cell]))
    {
      if cell.Null? {
        next := AppendNull(s);
      } else {
        next := AppendData(cell, s);
      }
    }

    method AppendNull(ghost s: Store) returns (next: DbColumnStorage)
      requires Represents(s)
      modifies this, data
      ensures next == this && Represents(s.(cells := s.cells + [Null]))
    {
      if i < data.Length {
        data[i] := NaOf(dt);
      }
      i := i + 1;
      next := this;
    }

    /** How many more storages the next value can still call for. */
    function Spills(cell: Cell): nat
      reads this
    {
      if dt == Unknown then 3
      else if data.Length <= i then 2
      else if cell.Data? && Promote(dt, cell) != dt then 1
      else 0
    }

    method AppendData(cell: Cell, ghost s: Store) returns (next: DbColumnStorage)
      requires Represents(s) && Known(cell) && cell.Data?
      modifies this, data
      ensures Fits(s, cell) ==> next == this && Represents(s.(cells := s.cells + [cell]))
      ensures !Fits(s, cell) ==>
        && Represents(s)
        && fresh(next) && fresh(next.data) && next.nMax == nMax
        && next.Represents(Store(Promote(dt, cell), SpillCapacity(s, nMax, cell), [cell]))
      decreases Spills(cell), 0
    {
      if dt == Unknown {
        next := AppendDataToNew(cell, dt, s);
      } else if data.Length <= i {
        next := AppendDataToNew(cell, dt, s);
      } else if dt == Int && cell.reported == Int64 {
        next := AppendDataToNew(cell, Int64, s);
      } else if dt == Int && cell.reported == Real {
        next := AppendDataToNew(cell, Real, s);
      } else {
        data[i] := FetchAs(cell.readings, dt);
        i := i + 1;
        next := this;
      }
    }

    method AppendDataToNew(cell: Cell, newDt: DataType, ghost s: Store) returns (next: DbColumnStorage)
      requires Represents(s) && Known(cell) && cell.Data?
      requires !Fits(s, cell)
      requires newDt == dt || (dt == Int && newDt == Promote(dt, cell))
      requires newDt == dt ==> dt == Unknown || data.Length <= i
      requires newDt != dt ==> i < data.Length
      ensures fresh(next) && fresh(next.data) && next.nMax == nMax
      ensures next.Represents(Store(Promote(dt, cell), SpillCapacity(s, nMax, cell), [cell]))
      decreases (if newDt != Unknown && Promote(newDt, cell) != newDt then 1 else 0), 1
    {
      var itsDt := if newDt == Unknown then cell.reported else newDt;
      var desired := if nMax < 0 then data.Length * 2 else nMax - i;
      var spillover := new DbColumnStorage(itsDt, desired, nMax);
      next := spillover.AppendData(cell, Store(itsDt, NextCapacity(nMax, s.cap, |s.cells|), []));
    }

    /** Copy this storage into `x` from position `pos` on, as elements of type `final`. */
    method CopyTo(x: array<Value>, final: DataType, pos: nat, ghost s: Store) returns (copied: nat)
      requires Represents(s) && Widens(s.dt, final) && x != data
      requires final == Unknown ==> x.Length == 0
      requires pos <= x.Length
      modifies x
      ensures copied == Min(|s.cells|, x.Length - pos)
      ensures x[..pos] == old(x[..pos])
      ensures final != Unknown ==> x[pos..pos + copied] == StoreValues(s, final)[..copied]
    {
      hide Widen;
      hide Stored;
      var src, tgt := 0, pos;
      while src < data.Length && src < i && tgt < x.Length
        invariant tgt == pos + src && src <= i && tgt <= x.Length && src <= data.Length
        invariant x[..pos] == old(x[..pos])
        invariant final != Unknown ==> forall k :: 0 <= k < src ==> x[pos + k] == CellValue(s.cells[k], s.dt, final)
      {
        WidenStored(s.cells[src], dt, final);
        CopyValue(x, final, tgt, src);
        src, tgt := src + 1, tgt + 1;
      }
      while src < i && tgt < x.Length
        invariant tgt == pos + src && src <= i && tgt <= x.Length && (src < i && tgt < x.Length ==> data.Length <= src)
        invariant x[..pos] == old(x[..pos])
        invariant final != Unknown ==> forall k :: 0 <= k < src ==> x[pos + k] == CellValue(s.cells[k], s.dt, final)
      {
        x[tgt] := NaOf(final);
        src, tgt := src + 1, tgt + 1;
      }
      copied := src;
    }

    /** src/DbColumnStorage.cpp:282-355, for the pairs of types a chain can hold.
        An untyped storage has no elements to copy. */
    method CopyValue(x: array<Value>, final: DataType, tgt: nat, src: nat)
      requires tgt < x.Length && src < data.Length && x != data
      requires dt != Unknown && final != Unknown && Widens(dt, final)
      requires dt == Int ==> data[src].I32?
      modifies x
      ensures x[tgt] == Widen(data[src], dt, final)
      ensures forall k :: 0 <= k < x.Length && k != tgt ==> x[k] == old(x[k])
    {
      if final == Int64 && dt == Int {
        x[tgt] := if data[src].int32 == NA_INTEGER then I64(NA_INTEGER64) else I64(data[src].int32);
      } else if final == Real && dt == Int {
        x[tgt] := if data[src].int32 == NA_INTEGER then Dbl(NaReal) else Dbl(Num(data[src].int32 as real));
      } else {
        x[tgt] := data[src];
      }
    }
  }
}
