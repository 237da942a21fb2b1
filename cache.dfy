/**
 * The simple key/value attention cache: a fixed-capacity, append-only
 * occupancy list shared by all layers, a write cursor, and per-layer key
 * and value stores allocated on first use.
 */
module Cache {
  import opened Arith
  import opened Results
  import opened Occupancy
  import opened Masks
  import opened Tensors

  /** The two fatal conditions, carrying the numbers the cache reports. */
  datatype CacheError =
    | ContextLengthExceeded(capacity: nat)
    | InconsistentBatchSize(layer: int, batchSize: nat, layerBatchSize: nat)

  /** What a successful Put hands back for the layer's attention. */
  datatype Attention = Attention(key: View, value: View, mask: Option<Mask>)

  class Simple {
    const Capacity: nat

    var curLayer: int
    var sequences: seq<int>
    var pos: nat
    var curBatchSize: nat
    var mask: Option<Mask>

    /** Per-layer stores; null until the layer's first Put. */
    var keys: seq<array?<real>>
    var values: seq<array?<real>>

    /**
     * The occupancy covers the committed slots and the current batch; the
     * two registries grow together, a layer's stores are allocated together,
     * and no two allocated stores share a buffer.
     */
    ghost predicate Valid()
      reads this
    {
      |sequences| == pos + curBatchSize &&
      |keys| == |values| &&
      (forall l :: 0 <= l < |keys| ==> (keys[l] == null <==> values[l] == null)) &&
      (forall l, l' :: 0 <= l < |keys| && 0 <= l' < |keys| && keys[l] != null ==>
         keys[l] != values[l'] &&
         (l != l' ==> keys[l] != keys[l'] && values[l] != values[l']))
    }

    /** A new, empty cache of `capacity` slots. */
    constructor (capacity: nat)
      ensures Valid()
      ensures Capacity == capacity
      ensures sequences == [] && pos == 0 && curBatchSize == 0 && curLayer == 0
      ensures keys == [] && values == [] && mask == None
    {
      Capacity := capacity;
      curLayer := 0;
      sequences := [];
      pos := 0;
      curBatchSize := 0;
      mask := None;
      keys := [];
      values := [];
    }

    /**
     * Begins a forward pass for the batch `seqs`. The batch is appended and
     * the cursor moved before capacity is checked, so a failed call leaves
     * them updated; only a successful call rebuilds the mask.
     */
    method StartForward(seqs: seq<int>) returns (r: Result<(), CacheError>)
      requires Valid()
      modifies this
      ensures Valid()
      ensures curBatchSize == |seqs| && pos == old(|sequences|)
      ensures sequences == old(sequences) + seqs
      ensures pos == old(pos) + old(curBatchSize)
      ensures r.Success? <==> |sequences| < Capacity
      ensures r.Failure? ==> r.error == ContextLengthExceeded(Capacity) && mask == old(mask)
      ensures r.Success? ==> mask == Some(MaskOf(pos, sequences, seqs))
      // row i may attend to slot j exactly when j is causal for it and the ids match
      ensures r.Success? ==> forall i, j :: 0 <= i < |seqs| && 0 <= j < pos + |seqs| ==>
        (mask.value.At(i, j) <==> j <= pos + i && sequences[j] == seqs[i])
      ensures curLayer == old(curLayer) && keys == old(keys) && values == old(values)
    {
      curBatchSize := |seqs|;
      pos := |sequences|;
      sequences := sequences + seqs;

      if pos + curBatchSize >= Capacity {
        return Failure(ContextLengthExceeded(Capacity));
      }

      var m := BuildMask(seqs);
      mask := Some(m);
      forall i, j | 0 <= i < |seqs| && 0 <= j < pos + |seqs|
        ensures m.At(i, j) <==> j <= pos + i && sequences[j] == seqs[i]
      {
        MaskEntry(pos, sequences, seqs, i, j);
      }
      return Success(());
    }

    /** Fills the mask for the current batch, cell by cell in row-major order. */
    method BuildMask(seqs: seq<int>) returns (m: Mask)
      requires |seqs| == curBatchSize && |sequences| == pos + curBatchSize
      ensures m == MaskOf(pos, sequences, seqs)
    {
      var p, b, occ := pos, curBatchSize, sequences;
      var curSize := p + b;
      ghost var rows := Rows(p, occ, seqs);
      var cells := new bool[b * curSize](_ => true);

      for i := 0 to b
        invariant cells[..i * curSize] == Flatten(rows[..i])
        invariant forall k :: i * curSize <= k < cells.Length ==> cells[k]
      {
        var start := i * curSize;
        MulLe(i + 1, b, curSize);
        assert start + curSize == (i + 1) * curSize;
        FillRow(p, occ, seqs, i, cells, start);
        FlattenExtend(cells[..], start, rows[..i], rows[i]);
        assert rows[..i + 1] == rows[..i] + [rows[i]];
      }
      assert rows[..b] == rows;
      assert cells[..] == cells[..b * curSize];
      m := Mask(curSize, b, cells[..]);
    }

    /**
     * The inner loop of BuildMask: forbids, in row i starting at cell
     * `start`, every slot that row i may not attend to; cells outside the
     * row are left alone.
     */
    static method FillRow(pos: nat, occ: seq<int>, seqs: seq<int>, i: nat, cells: array<bool>, start: nat)
      requires i < |seqs| && pos + |seqs| <= |occ|
      requires start + pos + |seqs| <= cells.Length
      requires forall k :: start <= k < start + pos + |seqs| ==> cells[k]
      modifies cells
      ensures cells[..start] == old(cells[..start])
      ensures forall j :: 0 <= j < pos + |seqs| ==> cells[start + j] == Rows(pos, occ, seqs)[i][j]
      ensures forall k :: start + pos + |seqs| <= k < cells.Length ==> cells[k] == old(cells[k])
    {
      var curSize := pos + |seqs|;
      for j := 0 to curSize
        invariant cells[..start] == old(cells[..start])
        invariant forall jj :: 0 <= jj < j ==> cells[start + jj] == Allowed(pos, occ, seqs, i, jj)
        invariant forall k :: start + j <= k < cells.Length ==> cells[k] == old(cells[k])
      {
        if j > pos + i || seqs[i] != occ[j] {
          cells[start + j] := false;
        }
      }
    }

    /** Selects layer i, growing both registries with unallocated entries. */
    method Sub(i: int) returns (c: Simple)
      requires Valid()
      modifies this
      ensures c == this && Valid()
      ensures curLayer == i
      ensures |keys| == (if i >= old(|keys|) then i + 1 else old(|keys|))
      ensures keys[..old(|keys|)] == old(keys) && values[..old(|values|)] == old(values)
      ensures forall l :: old(|keys|) <= l < |keys| ==> keys[l] == null && values[l] == null
      ensures sequences == old(sequences) && pos == old(pos) && curBatchSize == old(curBatchSize)
      ensures mask == old(mask)
    {
      if i >= |keys| {
        keys := keys + seq(i - |keys| + 1, _ => null);
        values := values + seq(i - |values| + 1, _ => null);
      }
      curLayer := i;
      c := this;
    }

    /**
     * Stores the current batch's key and value blocks for the selected layer
     * and returns views over the whole valid history of that layer.
     * Only the key's batch size is compared with the current batch; the
     * layer's stores are allocated, zero-filled, when either is missing.
     */
    method Put(key: Tensor, value: Tensor) returns (r: Result<Attention, CacheError>)
      requires Valid()
      requires 0 <= curLayer < |keys|
      requires key.Valid() && value.Valid()
      requires key.ne2 == curBatchSize ==>
        pos + key.ne2 <= Capacity && pos + value.ne2 <= Capacity &&
        (keys[curLayer] != null && values[curLayer] != null ==>
           keys[curLayer].Length == key.Width() * Capacity &&
           values[curLayer].Length == value.Width() * Capacity)
      modifies this, keys[curLayer], values[curLayer]
      ensures sequences == old(sequences) && pos == old(pos) && curBatchSize == old(curBatchSize)
      ensures curLayer == old(curLayer) && mask == old(mask)
      ensures Valid()
      // the registry changes at most at the current layer
      ensures |keys| == old(|keys|) && |values| == old(|values|)
      ensures forall l :: 0 <= l < |keys| && l != curLayer ==> keys[l] == old(keys[l]) && values[l] == old(values[l])
      ensures forall l :: 0 <= l < |keys| && l != curLayer && keys[l] != null ==>
        keys[l][..] == old(keys[l][..]) && values[l][..] == old(values[l][..])
      ensures r.Success? <==> key.ne2 == curBatchSize
      ensures r.Failure? ==>
        r.error == InconsistentBatchSize(curLayer, curBatchSize, key.ne2) &&
        keys == old(keys) && values == old(values) &&
        (keys[curLayer] != null ==> keys[curLayer][..] == old(keys[curLayer][..])) &&
        (values[curLayer] != null ==> values[curLayer][..] == old(values[curLayer][..]))
      // an allocated layer is reused, a missing one is allocated fresh
      ensures r.Success? ==> keys[curLayer] != null && values[curLayer] != null
      ensures r.Success? && old(keys[curLayer] != null && values[curLayer] != null) ==>
        keys[curLayer] == old(keys[curLayer]) && values[curLayer] == old(values[curLayer]) &&
        keys[curLayer][..] == Written(old(keys[curLayer][..]), pos * key.Width(), key.data) &&
        values[curLayer][..] == Written(old(values[curLayer][..]), pos * value.Width(), value.data)
      ensures r.Success? && !old(keys[curLayer] != null && values[curLayer] != null) ==>
        fresh(keys[curLayer]) && fresh(values[curLayer]) &&
        keys[curLayer][..] == Written(Zeros(key.Width() * Capacity), pos * key.Width(), key.data) &&
        values[curLayer][..] == Written(Zeros(value.Width() * Capacity), pos * value.Width(), value.data)
      // the views start at slot 0 and span the pos + batch valid slots
      ensures r.Success? ==>
        var n := pos + curBatchSize;
        r.value.key == View(keys[curLayer], 0, key.ne0, key.ne0, key.ne1, key.Width(), n) &&
        r.value.value == View(values[curLayer], 0, value.ne0, value.ne0, value.ne1, value.Width(), n) &&
        r.value.key.InBounds() && r.value.value.InBounds() &&
        |r.value.key.Elements()| == pos * key.Width() + |key.data| &&
        r.value.key.Elements()[pos * key.Width()..] == key.data &&
        (value.ne2 == key.ne2 ==>
           |r.value.value.Elements()| == pos * value.Width() + |value.data| &&
           r.value.value.Elements()[pos * value.Width()..] == value.data) &&
        r.value.mask == mask
    {
      if curBatchSize != key.ne2 {
        return Failure(InconsistentBatchSize(curLayer, curBatchSize, key.ne2));
      }

      if keys[curLayer] == null || values[curLayer] == null {
        AllocateLayer(key.Width() * Capacity, value.Width() * Capacity);
      }

      var n := key.ne2 + pos;
      var kv := CopyAndView(key, keys[curLayer], pos, n, Capacity);
      var vv := CopyAndView(value, values[curLayer], pos, n, Capacity);
      return Success(Attention(kv, vv, mask));
    }

    /** Gives the current layer fresh zero-filled key and value stores. */
    method AllocateLayer(keyLength: nat, valueLength: nat)
      requires Valid() && 0 <= curLayer < |keys|
      modifies this
      ensures sequences == old(sequences) && pos == old(pos) && curBatchSize == old(curBatchSize)
      ensures curLayer == old(curLayer) && mask == old(mask)
      ensures Valid() && |keys| == old(|keys|)
      ensures keys[curLayer] != null && values[curLayer] != null
      ensures fresh(keys[curLayer]) && fresh(values[curLayer])
      ensures keys == old(keys)[curLayer := keys[curLayer]] && values == old(values)[curLayer := values[curLayer]]
      ensures keys[curLayer][..] == Zeros(keyLength) && values[curLayer][..] == Zeros(valueLength)
    {
      var k := new real[keyLength](_ => 0.0);
      var v := new real[valueLength](_ => 0.0);
      assert k[..] == Zeros(keyLength);
      assert v[..] == Zeros(valueLength);
      keys := keys[curLayer := k];
      values := values[curLayer := v];
    }

    /**
     * Marks as removed every slot of sequence `s` in [beginIndex, endIndex),
     * the end clamped to the occupancy length. Nothing is compacted.
     */
    method Remove(s: int, beginIndex: int, endIndex: int)
      requires Valid()
      requires 0 <= beginIndex || Min(endIndex, |sequences|) <= beginIndex
      modifies this
      ensures Valid()
      ensures sequences == Removed(old(sequences), s, beginIndex, endIndex)
      ensures pos == old(pos) && curBatchSize == old(curBatchSize) && curLayer == old(curLayer)
      ensures keys == old(keys) && values == old(values) && mask == old(mask)
    {
      var i := beginIndex;
      while i < Min(endIndex, |sequences|)
        invariant |sequences| == old(|sequences|)
        invariant 0 <= i || Min(endIndex, |sequences|) <= i
        invariant Removed(sequences, s, i, endIndex) == Removed(old(sequences), s, beginIndex, endIndex)
        invariant pos == old(pos) && curBatchSize == old(curBatchSize) && curLayer == old(curLayer)
        invariant keys == old(keys) && values == old(values) && mask == old(mask)
        decreases |sequences| - i
      {
        if sequences[i] == s {
          sequences := sequences[i := Sentinel];
        } else {
          assert sequences[i := sequences[i]] == sequences;
        }
        i := i + 1;
      }
    }
  }

  /** Removing sequence 1 from slot range [0, 1) of three slots owned by 1 clears slot 0 only. */
  lemma ScenarioRemoval()
    ensures Removed([1, 1, 1], 1, 0, 1) == [Sentinel, 1, 1]
  {
    RemovedAt([1, 1, 1], 1, 0, 1, 0);
    RemovedAt([1, 1, 1], 1, 0, 1, 1);
    RemovedAt([1, 1, 1], 1, 0, 1, 2);
  }

  /**
   * One sequence's history in a cache of 8 slots: a two-token pass, a
   * one-token pass, a removal, and a pass that no longer sees the removed
   * slot. Everything asserted follows from the contracts above. This method
   * runs the first two passes: sequence 1 fills slots 0 and 1, storing
   * layer 0, then slot 2.
   */
  method ScenarioPrefix() returns (c: Simple)
    ensures fresh(c) && c.Valid() && c.Capacity == 8
    ensures c.sequences == [1, 1, 1] && c.pos == 2 && c.curBatchSize == 1
  {
    c := new Simple(8);
    var r := c.StartForward([1, 1]);
    assert c.sequences == [1, 1];
    assert r.Success? && c.pos == 0;
    MaskEntry(0, [1, 1], [1, 1], 0, 1);
    assert !c.mask.value.At(0, 1);

    var layer := c.Sub(0);
    var key := Tensor(2, 1, 2, [1.0, 2.0, 3.0, 4.0]);
    var put := c.Put(key, key);
    assert put.Success? && put.value.key.ne2 == 2;

    r := c.StartForward([1]);
    assert r.Success? && c.pos == 2 && c.sequences == [1, 1, 1];
    MaskEntry(2, [1, 1, 1], [1], 0, 0);
    assert c.mask.value.At(0, 0);
  }

  /** Removing slot 0 hides it from the next pass while the later slots stay visible. */
  method RemovalScenario() {
    var c := ScenarioPrefix();
    c.Remove(1, 0, 1);
    ScenarioRemoval();
    assert c.sequences == [Sentinel, 1, 1] && c.pos + c.curBatchSize == 3;
    var r := c.StartForward([1]);
    assert r.Success? && c.pos == 3 && c.sequences == [Sentinel, 1, 1, 1];
    MaskEntry(3, [Sentinel, 1, 1, 1], [1], 0, 0);
    assert !c.mask.value.At(0, 0);
    MaskEntry(3, [Sentinel, 1, 1, 1], [1], 0, 1);
    assert c.mask.value.At(0, 1);
  }
}
