/**
 * The backing allocations a transport must move to send an Arrow tree to
 * another execution context: children first, then the dictionary, then the
 * node's own offset, data, validity and type buffers.
 */
module Transferable {
  import opened Arrow
  import HardClone

  /** The allocations behind a node's own buffers, in slot order, absent ones skipped. */
  function SlotTransfers(b: Buffers): seq<ArrayBuffer>
  {
    (if b.valueOffsets.Some? then [BackingOf(b.valueOffsets.value)] else [])
    + (if b.values.Some? then [BackingOf(b.values.value)] else [])
    + (if b.nullBitmap.Some? then [BackingOf(b.nullBitmap.value)] else [])
    + (if b.typeIds.Some? then [BackingOf(b.typeIds.value)] else [])
  }

  /** Specification of `getTransferables` on a `Data` node. */
  function TransferList(d: Data): seq<ArrayBuffer>
    decreases d, 1
  {
    ChildrenTransfers(d.children)
    + (if d.dictionary.Some? then VectorTransferList(d.dictionary.value) else [])
    + SlotTransfers(d.buffers)
  }

  /** Specification of `getTransferables` on a `Vector`: its chunks' lists, concatenated. */
  function VectorTransferList(v: Vector): seq<ArrayBuffer>
    decreases v, 1
  {
    ChildrenTransfers(v.chunks)
  }

  function ChildrenTransfers(ds: seq<Data>): seq<ArrayBuffer>
    decreases ds, 0
  {
    if ds == [] then [] else ChildrenTransfers(ds[..|ds| - 1]) + TransferList(ds[|ds| - 1])
  }

  /** `getTransferables` on a `Data` node, growing one list by pushes. */
  method GetTransferables(d: Data) returns (r: seq<ArrayBuffer>)
    ensures r == TransferList(d)
    decreases d
  {
    var arrayBuffers: seq<ArrayBuffer> := [];
    for i := 0 to |d.children|
      invariant arrayBuffers == ChildrenTransfers(d.children[..i])
    {
      var childBuffers := GetTransferables(d.children[i]);
      assert d.children[..i + 1][..i] == d.children[..i];
      arrayBuffers := arrayBuffers + childBuffers;
    }
    assert d.children[..|d.children|] == d.children;

    if d.dictionary.Some? {
      var dictionaryBuffers := GetTransferablesOfVector(d.dictionary.value);
      arrayBuffers := arrayBuffers + dictionaryBuffers;
    }

    r := PushSlots(arrayBuffers, d.buffers);
  }

  /** Pushes the allocations behind a node's own defined buffers, in slot order. */
  method PushSlots(acc: seq<ArrayBuffer>, b: Buffers) returns (r: seq<ArrayBuffer>)
    ensures r == acc + SlotTransfers(b)
  {
    r := acc;
    if b.valueOffsets.Some? {
      r := r + [BackingOf(b.valueOffsets.value)];
    }
    if b.values.Some? {
      r := r + [BackingOf(b.values.value)];
    }
    if b.nullBitmap.Some? {
      r := r + [BackingOf(b.nullBitmap.value)];
    }
    if b.typeIds.Some? {
      r := r + [BackingOf(b.typeIds.value)];
    }
  }

  /** `getTransferables` on a `Vector`: the chunks' lists in chunk order. */
  method GetTransferablesOfVector(v: Vector) returns (r: seq<ArrayBuffer>)
    ensures r == VectorTransferList(v)
    decreases v
  {
    r := [];
    for i := 0 to |v.chunks|
      invariant r == ChildrenTransfers(v.chunks[..i])
    {
      var chunkBuffers := GetTransferables(v.chunks[i]);
      assert v.chunks[..i + 1][..i] == v.chunks[..i];
      r := r + chunkBuffers;
    }
    assert v.chunks[..|v.chunks|] == v.chunks;
  }

  lemma SlotTransfersMembers(b: Buffers)
    ensures forall a :: a in SlotTransfers(b) <==> exists k: BufferType :: b.Get(k).Some? && a == BackingOf(b.Get(k).value)
  {
    forall a | a in SlotTransfers(b)
      ensures exists k: BufferType :: b.Get(k).Some? && a == BackingOf(b.Get(k).value)
    {
      if b.valueOffsets.Some? && a == BackingOf(b.valueOffsets.value) {
        assert b.Get(OffsetSlot).Some?;
      } else if b.values.Some? && a == BackingOf(b.values.value) {
        assert b.Get(DataSlot).Some?;
      } else if b.nullBitmap.Some? && a == BackingOf(b.nullBitmap.value) {
        assert b.Get(ValiditySlot).Some?;
      } else {
        assert b.Get(TypeSlot).Some?;
      }
    }
  }

  /**
   * The list holds exactly the whole backing allocations of the tree's
   * defined buffers, dictionaries included.
   */
  lemma {:induction false} TransferListMembers(d: Data)
    ensures forall a :: a in TransferList(d) <==> exists v :: HasView(d, v) && a == BackingOf(v)
    decreases d, 1
  {
    ChildrenTransfersMembers(d.children);
    if d.dictionary.Some? {
      ChildrenTransfersMembers(d.dictionary.value.chunks);
    }
    SlotTransfersMembers(d.buffers);
    forall a | a in TransferList(d)
      ensures exists v :: HasView(d, v) && a == BackingOf(v)
    {
      if a in ChildrenTransfers(d.children) {
        var i, v :| 0 <= i < |d.children| && HasView(d.children[i], v) && a == BackingOf(v);
        assert HasView(d, v);
      } else if d.dictionary.Some? && a in VectorTransferList(d.dictionary.value) {
        assert a in ChildrenTransfers(d.dictionary.value.chunks);
        var i, v :| 0 <= i < |d.dictionary.value.chunks| && HasView(d.dictionary.value.chunks[i], v) && a == BackingOf(v);
        assert VectorHasView(d.dictionary.value, v);
        assert HasView(d, v);
      } else {
        var k: BufferType :| d.buffers.Get(k).Some? && a == BackingOf(d.buffers.Get(k).value);
        assert HasView(d, d.buffers.Get(k).value);
      }
    }
    forall v | HasView(d, v)
      ensures BackingOf(v) in TransferList(d)
    {
      if i :| 0 <= i < |d.children| && HasView(d.children[i], v) {
        assert BackingOf(v) in ChildrenTransfers(d.children);
      } else if d.dictionary.Some? && VectorHasView(d.dictionary.value, v) {
        var i :| 0 <= i < |d.dictionary.value.chunks| && HasView(d.dictionary.value.chunks[i], v);
        assert BackingOf(v) in VectorTransferList(d.dictionary.value);
      } else {
        var k: BufferType :| d.buffers.Get(k) == Some(v);
        assert BackingOf(v) in SlotTransfers(d.buffers);
      }
    }
  }

  lemma {:induction false} ChildrenTransfersMembers(ds: seq<Data>)
    ensures forall a :: a in ChildrenTransfers(ds) <==>
      exists i, v :: 0 <= i < |ds| && HasView(ds[i], v) && a == BackingOf(v)
    decreases ds, 0
  {
    if ds != [] {
      var init, last := ds[..|ds| - 1], ds[|ds| - 1];
      ChildrenTransfersMembers(init);
      TransferListMembers(last);
      assert ChildrenTransfers(ds) == ChildrenTransfers(init) + TransferList(last);
      forall a | a in ChildrenTransfers(ds)
        ensures exists i, v :: 0 <= i < |ds| && HasView(ds[i], v) && a == BackingOf(v)
      {
        if a in ChildrenTransfers(init) {
          var i, v :| 0 <= i < |init| && HasView(init[i], v) && a == BackingOf(v);
          assert ds[i] == init[i];
        } else {
          var v :| HasView(last, v) && a == BackingOf(v);
          assert HasView(ds[|ds| - 1], v);
        }
      }
      forall i, v | 0 <= i < |ds| && HasView(ds[i], v)
        ensures BackingOf(v) in ChildrenTransfers(ds)
      {
        if i < |ds| - 1 {
          assert init[i] == ds[i];
        }
      }
    }
  }

  /** The number of defined buffers in a tree, dictionaries included. */
  function SlotCount(b: Buffers): nat
  {
    (if b.valueOffsets.Some? then 1 else 0) + (if b.values.Some? then 1 else 0)
    + (if b.nullBitmap.Some? then 1 else 0) + (if b.typeIds.Some? then 1 else 0)
  }

  function BufferCount(d: Data): nat
    decreases d, 1
  {
    ChildrenBufferCount(d.children)
    + (if d.dictionary.Some? then ChildrenBufferCount(d.dictionary.value.chunks) else 0)
    + SlotCount(d.buffers)
  }

  function ChildrenBufferCount(ds: seq<Data>): nat
    decreases ds, 0
  {
    if ds == [] then 0 else ChildrenBufferCount(ds[..|ds| - 1]) + BufferCount(ds[|ds| - 1])
  }

  /** One entry per defined buffer, with no deduplication of shared allocations. */
  lemma {:induction false} TransferListLength(d: Data)
    ensures |TransferList(d)| == BufferCount(d)
    decreases d, 1
  {
    ChildrenTransferLength(d.children);
    if d.dictionary.Some? {
      ChildrenTransferLength(d.dictionary.value.chunks);
    }
  }

  lemma {:induction false} ChildrenTransferLength(ds: seq<Data>)
    ensures |ChildrenTransfers(ds)| == ChildrenBufferCount(ds)
    decreases ds, 0
  {
    if ds != [] {
      ChildrenTransferLength(ds[..|ds| - 1]);
      TransferListLength(ds[|ds| - 1]);
    }
  }

  /**
   * After a forced clone (copies numbered above the input's allocations),
   * transferring either tree moves no allocation the other one uses: the
   * original can be detached and the clone stays readable, and vice versa.
   */
  lemma ForcedCloneTransfersIndependently(c: Data, d: Data, lo: nat, hi: nat)
    requires HardClone.ClonedData(c, d, true, lo, hi)
    requires forall w :: HasView(d, w) ==> w.backing < lo
    ensures forall a, v :: a in TransferList(d) && HasView(c, v) ==> a.id != v.backing
    ensures forall a, w :: a in TransferList(c) && HasView(d, w) ==> a.id != w.backing
  {
    TransferListMembers(c);
    TransferListMembers(d);
    HardClone.ForcedCloneIsIndependent(c, d, lo, hi);
  }
}
