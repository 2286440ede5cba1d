/** A result column (src/DbColumn.cpp): a chain of storages, flattened when the frame is finished.
    The warning about mixed types is not part of this model. */
module Column {
  import opened Base
  import opened DataTypes
  import opened ColumnChain
  import opened ColumnStorage

  lemma FlattenOneMore(chain: seq<Store>, k: nat, dt: DataType, pos: nat, copied: nat, n: nat)
    requires dt != Unknown && ChainOk(chain, dt) && k < |chain|
    requires pos == Min(|FlatValues(chain[..k], dt)|, n)
    requires copied == Min(|StoreValues(chain[k], dt)|, n - pos)
    ensures pos + copied == Min(|FlatValues(chain[..k + 1], dt)|, n)
    ensures FlatValues(chain[..k + 1], dt)[..pos + copied]
         == FlatValues(chain[..k], dt)[..pos] + StoreValues(chain[k], dt)[..copied]
  {
    assert chain[..k + 1][..k] == chain[..k];
    assert FlatValues(chain[..k + 1], dt) == FlatValues(chain[..k], dt) + StoreValues(chain[k], dt);
  }

  lemma FlattenNothing(dt: DataType)
    ensures dt != Unknown ==> FlatValues([], dt) == []
  {
  }

  class DbColumn {
    var storage: seq<DbColumnStorage>
    var n: nat
    const declared: DataType  // what the source declares, used when no value ever decided the type
    const nMax: int
    ghost var cells: seq<Cell>  // every cell appended so far
    ghost var chain: seq<Store>
    ghost var Repr: set<object>

    ghost predicate Linked()
      reads this, Repr
    {
      && this in Repr
      && |storage| == |chain| > 0
      && (forall k :: 0 <= k < |storage| ==> storage[k] in Repr && storage[k].data in Repr && storage[k].nMax == nMax)
      && (forall k :: 0 <= k < |storage| ==> storage[k].Represents(chain[k]))
      && (forall j, k :: 0 <= j < k < |storage| ==> storage[j] != storage[k] && storage[j].data != storage[k].data)
    }

    ghost predicate Valid()
      reads this, Repr
      ensures Valid() ==> this in Repr && AllKnown(cells)
    {
      Linked() && AllKnown(cells) && chain == ChainOf(StartType(declared), nMax, cells)
    }

    constructor (dt: DataType, nMax: int)
      ensures Valid() && fresh(Repr)
      ensures cells == [] && declared == dt && this.nMax == nMax
    {
      var start := if dt == Bool then Unknown else dt;
      var first := new DbColumnStorage(start, 0, nMax);
      this.declared := dt;
      this.nMax := nMax;
      storage, n := [first], 0;
      cells, chain := [], [FirstStore(start, nMax)];
      Repr := {this, first, first.data};
    }

    method SetColValue(cell: Cell)
      requires Valid() && Known(cell)
      modifies Repr
      ensures Valid() && fresh(Repr - old(Repr))
      ensures cells == old(cells) + [cell] && n == old(n)
    {
      hide Linked;
      hide ChainAppend;
      ChainOfAppend(StartType(declared), nMax, cells, cell);
      Push(cell);
    }

    method Push(cell: Cell)
      requires Linked() && Known(cell)
      modifies Repr
      ensures Linked() && fresh(Repr - old(Repr)) && n == old(n)
      ensures cells == old(cells) + [cell] && chain == ChainAppend(old(chain), nMax, cell)
    {
      hide StoreOk, Known, Promote, SpillCapacity, NextCapacity, NewCapacity;
      var m := |storage| - 1;
      var next := storage[m].AppendCol(cell, chain[m]);
      if next != storage[m] {
        storage := storage + [next];
        Repr := Repr + {next, next.data};
      }
      cells := cells + [cell];
      chain := ChainAppend(chain, nMax, cell);
    }

    method Finalize(n: nat)
      requires Valid()
      modifies this
      ensures Valid() && cells == old(cells) && Repr == old(Repr) && this.n == n
    {
      this.n := n;
    }

    function GetType(): DataType
      requires Valid()
      reads this, Repr
      ensures GetType() == FinalType(StartType(declared), declared, cells)
    {
      ChainOfOk(StartType(declared), nMax, cells, TypeAfter(StartType(declared), cells));
      var dt := storage[|storage| - 1].dt;
      if dt == Unknown then declared else dt
    }

    /** The R vector of the first `n` rows. */
    method ToVector() returns (ret: array<Value>)
      requires Valid() && n <= |cells|
      ensures fresh(ret)
      ensures var final := FinalType(StartType(declared), declared, cells);
        ret[..] == if final == Unknown then [] else ColumnValues(StartType(declared), cells, final)[..n]
    {
      var dt := GetType();
      ChainOfOk(StartType(declared), nMax, cells, dt);
      ret := Allocate(n, dt);
      if dt != Unknown {
        ChainIsPlainColumn(StartType(declared), nMax, cells, dt);
      }
      Flatten(ret, dt);
    }

    method Flatten(ret: array<Value>, dt: DataType)
      requires Linked() && ChainOk(chain, dt) && ret !in Repr
      requires if dt == Unknown then ret.Length == 0 else ret.Length <= |FlatValues(chain, dt)|
      modifies ret
      ensures dt != Unknown ==> ret[..] == FlatValues(chain, dt)[..ret.Length]
    {
      hide FlatValues;
      hide StoreValues;
      hide StoreOk;
      hide DbColumnStorage.Represents;
      var pos := 0;
      var k := 0;
      FlattenNothing(dt);
      while k < |storage|
        invariant k <= |storage| && 0 <= pos <= ret.Length
        invariant dt != Unknown ==> pos == Min(|FlatValues(chain[..k], dt)|, ret.Length)
        invariant dt != Unknown ==> ret[..pos] == FlatValues(chain[..k], dt)[..pos]
      {
        ghost var was := ret[..pos];
        var copied := storage[k].CopyTo(ret, dt, pos, chain[k]);
        if dt != Unknown {
          assert ret[..pos + copied] == was + ret[pos..pos + copied];
          FlattenOneMore(chain, k, dt, pos, copied, ret.Length);
        }
        pos := pos + copied;
        k := k + 1;
      }
      assert chain[..k] == chain;
    }
  }
}
