/**
 * Cloning an Arrow tree away from shared memory before it is transferred:
 * detecting buffers that are slices of a larger allocation, and copying those
 * (or every buffer, when forced) into allocations of their own.
 *
 * A fresh allocation is modelled by a fresh allocation number: the methods take
 * the next unused number and return the next one still unused.
 */
module HardClone {
  import opened Arrow

  /** A view is a partial slice of a larger allocation. */
  predicate IsTypedArraySliced(v: View)
  {
    !(v.byteOffset == 0 && v.byteLength == v.backingLength)
  }

  predicate SlotSliced(b: Buffers, k: BufferType)
  {
    b.Get(k).Some? && IsTypedArraySliced(b.Get(k).value)
  }

  /** Some buffer anywhere in the tree, dictionaries included, is sliced. */
  predicate Shared(d: Data)
    decreases d
  {
    || (exists i :: 0 <= i < |d.children| && Shared(d.children[i]))
    || (d.dictionary.Some? && SharedVector(d.dictionary.value))
    || (exists k: BufferType :: SlotSliced(d.buffers, k))
  }

  predicate SharedVector(v: Vector)
    decreases v
  {
    exists i :: 0 <= i < |v.chunks| && Shared(v.chunks[i])
  }

  /** Sharing is exactly the presence of a sliced view in the tree. */
  lemma {:induction false} SharedIffSlicedView(d: Data)
    ensures Shared(d) <==> exists v :: HasView(d, v) && IsTypedArraySliced(v)
    decreases d
  {
    if Shared(d) {
      if i :| 0 <= i < |d.children| && Shared(d.children[i]) {
        SharedIffSlicedView(d.children[i]);
        var v :| HasView(d.children[i], v) && IsTypedArraySliced(v);
        assert HasView(d, v);
      } else if d.dictionary.Some? && SharedVector(d.dictionary.value) {
        var j :| 0 <= j < |d.dictionary.value.chunks| && Shared(d.dictionary.value.chunks[j]);
        SharedIffSlicedView(d.dictionary.value.chunks[j]);
        var v :| HasView(d.dictionary.value.chunks[j], v) && IsTypedArraySliced(v);
        assert VectorHasView(d.dictionary.value, v);
        assert HasView(d, v);
      } else {
        var k :| SlotSliced(d.buffers, k);
        assert HasView(d, d.buffers.Get(k).value);
      }
    }
    if v :| HasView(d, v) && IsTypedArraySliced(v) {
      if i :| 0 <= i < |d.children| && HasView(d.children[i], v) {
        SharedIffSlicedView(d.children[i]);
      } else if d.dictionary.Some? && VectorHasView(d.dictionary.value, v) {
        var j :| 0 <= j < |d.dictionary.value.chunks| && HasView(d.dictionary.value.chunks[j], v);
        SharedIffSlicedView(d.dictionary.value.chunks[j]);
        assert SharedVector(d.dictionary.value);
      } else {
        var k :| d.buffers.Get(k) == Some(v);
        assert SlotSliced(d.buffers, k);
      }
    }
  }

  /** `isShared` on a `Data` node: early exit on the first shared child, dictionary or buffer. */
  method IsShared(d: Data) returns (r: bool)
    ensures r == Shared(d)
    decreases d
  {
    for i := 0 to |d.children|
      invariant forall j :: 0 <= j < i ==> !Shared(d.children[j])
    {
      var s := IsShared(d.children[i]);
      if s {
        return true;
      }
    }
    if d.dictionary.Some? {
      var s := IsSharedVector(d.dictionary.value);
      if s {
        return true;
      }
    }
    for k := 0 to |BufferTypes|
      invariant forall j :: 0 <= j < k ==> !SlotSliced(d.buffers, BufferTypes[j])
    {
      var b := d.buffers.Get(BufferTypes[k]);
      if b.Some? && IsTypedArraySliced(b.value) {
        assert SlotSliced(d.buffers, BufferTypes[k]);
        return true;
      }
    }
    forall k: BufferType
      ensures !SlotSliced(d.buffers, k)
    {
      assert k == BufferTypes[if k.OffsetSlot? then 0 else if k.DataSlot? then 1 else if k.ValiditySlot? then 2 else 3];
    }
    return false;
  }

  /** `isShared` on a `Vector`: some chunk is shared. */
  method IsSharedVector(v: Vector) returns (r: bool)
    ensures r == SharedVector(v)
    decreases v
  {
    for i := 0 to |v.chunks|
      invariant forall j :: 0 <= j < i ==> !Shared(v.chunks[j])
    {
      var s := IsShared(v.chunks[i]);
      if s {
        return true;
      }
    }
    return false;
  }

  /**
   * `cloneBuffer`: an absent buffer stays absent; an unsliced one is kept as it
   * is unless `force`; otherwise `slice()` copies the view into the fresh
   * allocation `alloc`, exactly as long as the view.
   */
  function CloneBuffer(b: Option<View>, force: bool, alloc: nat): (r: Option<View>)
    ensures r.Some? == b.Some?
    ensures r.Some? ==> r.value.elems == b.value.elems && r.value.byteLength == b.value.byteLength
    ensures r.Some? ==> !IsTypedArraySliced(r.value)
    ensures r.Some? && !force && !IsTypedArraySliced(b.value) ==> r == b
    ensures r.Some? && (force || IsTypedArraySliced(b.value)) ==> r.value.backing == alloc
  {
    if b.None? then b
    else if !force && !IsTypedArraySliced(b.value) then b
    else Some(WholeView(alloc, b.value.byteLength, b.value.elems))
  }

  /**
   * `cb` is what cloning made of `db`: the same view when it was kept, else a
   * copy with the same contents in an unsliced allocation numbered in lo..hi-1.
   */
  predicate BufferCloned(cb: Option<View>, db: Option<View>, force: bool, lo: nat, hi: nat)
  {
    && cb.Some? == db.Some?
    && (db.Some? ==>
          if !force && !IsTypedArraySliced(db.value) then cb == db
          else
            && cb.value.elems == db.value.elems
            && cb.value.byteLength == db.value.byteLength
            && !IsTypedArraySliced(cb.value)
            && lo <= cb.value.backing < hi)
  }

  /** `c` is a clone of `d`: same shape and header, every buffer cloned. */
  predicate ClonedData(c: Data, d: Data, force: bool, lo: nat, hi: nat)
    decreases d
  {
    && c.typ == d.typ
    && c.offset == d.offset
    && c.length == d.length
    && c.nullCount == d.nullCount
    && |c.children| == |d.children|
    && (forall i :: 0 <= i < |d.children| ==> ClonedData(c.children[i], d.children[i], force, lo, hi))
    && c.dictionary.Some? == d.dictionary.Some?
    && (d.dictionary.Some? ==> ClonedVector(c.dictionary.value, d.dictionary.value, force, lo, hi))
    && (forall k: BufferType :: BufferCloned(c.buffers.Get(k), d.buffers.Get(k), force, lo, hi))
  }

  predicate ClonedVector(c: Vector, d: Vector, force: bool, lo: nat, hi: nat)
    decreases d
  {
    && |c.chunks| == |d.chunks|
    && (forall i :: 0 <= i < |d.chunks| ==> ClonedData(c.chunks[i], d.chunks[i], force, lo, hi))
  }

  /** A clone whose copies lie in a range also has them in any wider range. */
  lemma {:induction false} WidenClonedData(c: Data, d: Data, force: bool, lo: nat, hi: nat, lo': nat, hi': nat)
    requires ClonedData(c, d, force, lo, hi) && lo' <= lo && hi <= hi'
    ensures ClonedData(c, d, force, lo', hi')
    decreases d
  {
    forall i | 0 <= i < |d.children|
      ensures ClonedData(c.children[i], d.children[i], force, lo', hi')
    {
      WidenClonedData(c.children[i], d.children[i], force, lo, hi, lo', hi');
    }
    if d.dictionary.Some? {
      WidenClonedVector(c.dictionary.value, d.dictionary.value, force, lo, hi, lo', hi');
    }
  }

  lemma {:induction false} WidenClonedVector(c: Vector, d: Vector, force: bool, lo: nat, hi: nat, lo': nat, hi': nat)
    requires ClonedVector(c, d, force, lo, hi) && lo' <= lo && hi <= hi'
    ensures ClonedVector(c, d, force, lo', hi')
    decreases d
  {
    forall i | 0 <= i < |d.chunks|
      ensures ClonedData(c.chunks[i], d.chunks[i], force, lo', hi')
    {
      WidenClonedData(c.chunks[i], d.chunks[i], force, lo, hi, lo', hi');
    }
  }

  /**
   * `hardClone` on a `Data` node: children cloned into a new list, the
   * dictionary cloned when present, the four buffers cloned, the header kept.
   */
  method HardCloneData(d: Data, force: bool, next: nat) returns (c: Data, next': nat)
    ensures next <= next'
    ensures ClonedData(c, d, force, next, next')
    decreases d
  {
    var n := next;
    var clonedChildren: seq<Data> := [];
    for i := 0 to |d.children|
      invariant next <= n
      invariant |clonedChildren| == i
      invariant forall j :: 0 <= j < i ==> ClonedData(clonedChildren[j], d.children[j], force, next, n)
    {
      var child, n' := HardCloneData(d.children[i], force, n);
      forall j | 0 <= j < i
        ensures ClonedData(clonedChildren[j], d.children[j], force, next, n')
      {
        WidenClonedData(clonedChildren[j], d.children[j], force, next, n, next, n');
      }
      WidenClonedData(child, d.children[i], force, n, n', next, n');
      clonedChildren := clonedChildren + [child];
      n := n';
    }

    var childrenDone := n;
    var clonedDictionary: Option<Vector> := None;
    if d.dictionary.Some? {
      var dict, n' := HardCloneVector(d.dictionary.value, force, n);
      WidenClonedVector(dict, d.dictionary.value, force, n, n', next, n');
      clonedDictionary := Some(dict);
      n := n';
    }

    var clonedBuffers := Buffers(
      CloneBuffer(d.buffers.valueOffsets, force, n),
      CloneBuffer(d.buffers.values, force, n + 1),
      CloneBuffer(d.buffers.nullBitmap, force, n + 2),
      CloneBuffer(d.buffers.typeIds, force, n + 3));
    next' := n + 4;

    forall j | 0 <= j < |d.children|
      ensures ClonedData(clonedChildren[j], d.children[j], force, next, next')
    {
      WidenClonedData(clonedChildren[j], d.children[j], force, next, childrenDone, next, next');
    }
    if d.dictionary.Some? {
      WidenClonedVector(clonedDictionary.value, d.dictionary.value, force, next, n, next, next');
    }
    c := Data(d.typ, d.offset, d.length, d.nullCount, clonedBuffers, clonedChildren, clonedDictionary);
  }

  /** `hardClone` on a `Vector`: one cloned chunk per chunk, in order. */
  method HardCloneVector(v: Vector, force: bool, next: nat) returns (c: Vector, next': nat)
    ensures next <= next'
    ensures ClonedVector(c, v, force, next, next')
    decreases v
  {
    var n := next;
    var chunks: seq<Data> := [];
    for i := 0 to |v.chunks|
      invariant next <= n
      invariant |chunks| == i
      invariant forall j :: 0 <= j < i ==> ClonedData(chunks[j], v.chunks[j], force, next, n)
    {
      var chunk, n' := HardCloneData(v.chunks[i], force, n);
      forall j | 0 <= j < i
        ensures ClonedData(chunks[j], v.chunks[j], force, next, n')
      {
        WidenClonedData(chunks[j], v.chunks[j], force, next, n, next, n');
      }
      WidenClonedData(chunk, v.chunks[i], force, n, n', next, n');
      chunks := chunks + [chunk];
      n := n';
    }
    c := Vector(chunks);
    next' := n;
  }

  /** Whatever `force` is, a clone holds no sliced buffer. */
  lemma {:induction false} ClonedNotShared(c: Data, d: Data, force: bool, lo: nat, hi: nat)
    requires ClonedData(c, d, force, lo, hi)
    ensures !Shared(c)
    decreases d
  {
    forall i | 0 <= i < |c.children|
      ensures !Shared(c.children[i])
    {
      ClonedNotShared(c.children[i], d.children[i], force, lo, hi);
    }
    if d.dictionary.Some? {
      forall i | 0 <= i < |c.dictionary.value.chunks|
        ensures !Shared(c.dictionary.value.chunks[i])
      {
        ClonedNotShared(c.dictionary.value.chunks[i], d.dictionary.value.chunks[i], force, lo, hi);
      }
    }
    forall k: BufferType
      ensures !SlotSliced(c.buffers, k)
    {
      assert BufferCloned(c.buffers.Get(k), d.buffers.Get(k), force, lo, hi);
    }
  }

  /** A forced clone keeps no view of the input: every view lies in lo..hi-1. */
  lemma {:induction false} ForcedCloneInRange(c: Data, d: Data, lo: nat, hi: nat, v: View)
    requires ClonedData(c, d, true, lo, hi)
    requires HasView(c, v)
    ensures lo <= v.backing < hi
    decreases d
  {
    if i :| 0 <= i < |c.children| && HasView(c.children[i], v) {
      ForcedCloneInRange(c.children[i], d.children[i], lo, hi, v);
    } else if c.dictionary.Some? && VectorHasView(c.dictionary.value, v) {
      var i :| 0 <= i < |c.dictionary.value.chunks| && HasView(c.dictionary.value.chunks[i], v);
      ForcedCloneInRange(c.dictionary.value.chunks[i], d.dictionary.value.chunks[i], lo, hi, v);
    } else {
      var k :| c.buffers.Get(k) == Some(v);
      assert BufferCloned(c.buffers.Get(k), d.buffers.Get(k), true, lo, hi);
    }
  }

  /**
   * With `force`, no allocation of the clone is an allocation of the input,
   * when the copies were numbered above every allocation the input uses.
   */
  lemma ForcedCloneIsIndependent(c: Data, d: Data, lo: nat, hi: nat)
    requires ClonedData(c, d, true, lo, hi)
    requires forall w :: HasView(d, w) ==> w.backing < lo
    ensures forall v, w :: HasView(c, v) && HasView(d, w) ==> v.backing != w.backing
  {
    forall v, w | HasView(c, v) && HasView(d, w)
      ensures v.backing != w.backing
    {
      ForcedCloneInRange(c, d, lo, hi, v);
    }
  }

  /** Without `force`, cloning a tree that shares nothing changes nothing. */
  lemma {:induction false} UnforcedCloneOfOwnedIsIdentity(c: Data, d: Data, lo: nat, hi: nat)
    requires ClonedData(c, d, false, lo, hi)
    requires !Shared(d)
    ensures c == d
    decreases d
  {
    forall i | 0 <= i < |d.children|
      ensures c.children[i] == d.children[i]
    {
      UnforcedCloneOfOwnedIsIdentity(c.children[i], d.children[i], lo, hi);
    }
    assert c.children == d.children;
    if d.dictionary.Some? {
      var cv, dv := c.dictionary.value, d.dictionary.value;
      forall i | 0 <= i < |dv.chunks|
        ensures cv.chunks[i] == dv.chunks[i]
      {
        assert !Shared(dv.chunks[i]);
        UnforcedCloneOfOwnedIsIdentity(cv.chunks[i], dv.chunks[i], lo, hi);
      }
      assert cv.chunks == dv.chunks;
    }
    forall k: BufferType
      ensures c.buffers.Get(k) == d.buffers.Get(k)
    {
      assert !SlotSliced(d.buffers, k);
      assert BufferCloned(c.buffers.Get(k), d.buffers.Get(k), false, lo, hi);
    }
    assert c.buffers.Get(OffsetSlot) == d.buffers.Get(OffsetSlot);
    assert c.buffers.Get(DataSlot) == d.buffers.Get(DataSlot);
    assert c.buffers.Get(ValiditySlot) == d.buffers.Get(ValiditySlot);
    assert c.buffers.Get(TypeSlot) == d.buffers.Get(TypeSlot);
  }
}
