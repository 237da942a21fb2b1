/**
 * The part of the tensor runtime the cache relies on. A layer store is a
 * zero-initialised flat buffer of `width * Capacity` elements; a slot is
 * `width` contiguous elements, so slot s starts at element s * width.
 * A key or value block for a batch of b tokens is b * width elements, and a
 * view is a descriptor (offset, sizes, strides) into a store, never a copy.
 */
module Tensors {
  import opened Arith

  /**
   * A tensor handed to the cache: sizes ne0, ne1 per token and ne2 tokens
   * (the batch); its elements are laid out contiguously.
   */
  datatype Tensor = Tensor(ne0: nat, ne1: nat, ne2: nat, data: seq<real>) {
    /** Elements per token, which is also the stride between tokens. */
    function Width(): nat {
      ne0 * ne1
    }

    predicate Valid() {
      |data| == Width() * ne2
    }
  }

  /**
   * A view of `arena`: element (a, b, c) lives at offset + a + b * nb1 + c * nb2;
   * the view spans ne2 slots of nb2 elements.
   */
  datatype View = View(arena: array<real>, offset: nat, ne0: nat, nb1: nat, ne1: nat, nb2: nat, ne2: nat) {
    function Span(): nat {
      nb2 * ne2
    }

    predicate InBounds() {
      offset + Span() <= arena.Length
    }

    /**
     * What a reader of the view sees, in order: the contiguous span of ne2
     * slots from `offset`. This agrees with the strided addressing above
     * only when the view is contiguous (nb1 == ne0 and nb2 == ne0 * ne1),
     * which is how the cache builds its views.
     */
    function Elements(): seq<real>
      reads arena
      requires InBounds()
    {
      arena[offset .. offset + Span()]
    }
  }

  /** A zero-filled buffer of n elements. */
  function Zeros(n: nat): (z: seq<real>)
    ensures |z| == n && forall k :: 0 <= k < n ==> z[k] == 0.0
  {
    seq(n, _ => 0.0)
  }

  /** `buf` with `block` copied in at element `offset`. */
  function Written(buf: seq<real>, offset: nat, block: seq<real>): (r: seq<real>)
    ensures |r| == |buf|
  {
    seq(|buf|, k requires 0 <= k < |buf| =>
      if offset <= k < offset + |block| then block[k - offset] else buf[k])
  }

  /**
   * Slot addressing: writing a block of b slots at slot `pos` changes exactly
   * slots [pos, pos + b), slot s receiving the block's slot s - pos.
   */
  lemma WrittenSlot(buf: seq<real>, width: nat, pos: nat, b: nat, block: seq<real>, s: nat, k: nat)
    requires |block| == b * width && pos * width + |block| <= |buf|
    requires k < width && s * width + k < |buf|
    ensures pos <= s < pos + b ==>
      (s - pos) * width + k < |block| &&
      Written(buf, pos * width, block)[s * width + k] == block[(s - pos) * width + k]
    ensures !(pos <= s < pos + b) ==>
      Written(buf, pos * width, block)[s * width + k] == buf[s * width + k]
  {
    var at := s * width + k;
    var start := pos * width;
    assert (pos + b) * width == start + b * width;
    assert (s + 1) * width == s * width + width;
    if s < pos {
      MulLe(s + 1, pos, width);
      assert at < start;
    } else if s < pos + b {
      var d := s - pos;
      MulLe(d + 1, b, width);
      assert (d + 1) * width == d * width + width;
      assert s * width == start + d * width;
      assert start <= at < start + |block| && at - start == d * width + k;
    } else {
      MulLe(pos + b, s, width);
      assert at >= start + |block|;
    }
  }

  /**
   * Two passes over the same layer write disjoint slot ranges: a later write
   * at slot p2 >= p1 + b1 leaves the earlier block at slot p1 intact.
   */
  lemma LaterWritePreserves(buf: seq<real>, width: nat, p1: nat, b1: nat, block1: seq<real>,
                            p2: nat, block2: seq<real>)
    requires |block1| == b1 * width && p1 + b1 <= p2
    requires p2 * width + |block2| <= |buf|
    ensures p1 * width + |block1| <= p2 * width
    ensures Written(Written(buf, p1 * width, block1), p2 * width, block2)[p1 * width .. p1 * width + |block1|] == block1
  {
    MulLe(p1 + b1, p2, width);
  }

  /**
   * A view from slot 0 over the first pos + b slots of a store that just
   * received a b-slot block at slot pos ends with exactly that block.
   */
  lemma ViewAfterWrite(v: View, buf: seq<real>, pos: nat, b: nat, block: seq<real>)
    requires v.offset == 0 && v.ne2 == pos + b && |block| == v.nb2 * b
    requires pos * v.nb2 + |block| <= |buf| && v.arena[..] == Written(buf, pos * v.nb2, block)
    ensures v.InBounds() && v.Span() == pos * v.nb2 + |block|
    ensures v.Elements()[..pos * v.nb2] == buf[..pos * v.nb2]
    ensures v.Elements()[pos * v.nb2..] == block
  {
    assert v.Span() == pos * v.nb2 + |block|;
    assert v.Elements() == v.arena[..][..pos * v.nb2 + |block|];
  }

  /**
   * The runtime's copy of a block into a view of `dst` at `offset`: the
   * elements of the target range are replaced, all others stay.
   */
  method Copy(block: seq<real>, dst: array<real>, offset: nat)
    requires offset + |block| <= dst.Length
    modifies dst
    ensures dst[..] == Written(old(dst[..]), offset, block)
  {
    forall k | 0 <= k < |block| {
      dst[offset + k] := block[k];
    }
    assert dst[..] == Written(old(dst[..]), offset, block);
  }

  /**
   * The copy-in and view-out step of a Put for one store of `capacity`
   * slots: the block is copied to slot `pos` (element offset pos * width),
   * and the returned view starts at slot 0 and spans `n` slots.
   */
  method CopyAndView(block: Tensor, store: array<real>, pos: nat, n: nat, capacity: nat) returns (v: View)
    requires block.Valid() && pos + block.ne2 <= capacity && n <= capacity
    requires store.Length == block.Width() * capacity
    modifies store
    ensures store[..] == Written(old(store[..]), pos * block.Width(), block.data)
    ensures v == View(store, 0, block.ne0, block.ne0, block.ne1, block.Width(), n)
    ensures v.InBounds()
    ensures n == pos + block.ne2 ==>
      |v.Elements()| == pos * block.Width() + |block.data| &&
      v.Elements()[pos * block.Width()..] == block.data
  {
    ghost var before := store[..];
    MulLe(pos + block.ne2, capacity, block.Width());
    MulLe(n, capacity, block.Width());
    Copy(block.data, store, pos * block.Width());
    v := View(store, 0, block.ne0, block.ne0, block.ne1, block.Width(), n);
    if n == pos + block.ne2 {
      ViewAfterWrite(v, before, pos, block.ne2, block.data);
    }
  }
}
