/**
 * Rebuilding an Arrow tree on the receiving side of a transport: every node is
 * constructed again from its header, buffers, rebuilt children and rebuilt
 * dictionary.  Types are values here, so nothing is lost on the way.
 */
module Rehydrate {
  import opened Arrow
  import HardClone

  /** `rehydrateType`: the type is passed through untouched. */
  function RehydrateType(t: DataType): (r: DataType)
    ensures r == t
  {
    t
  }

  /** `rehydrateData`: rebuilding a node yields the node it was given. */
  function RehydrateData(d: Data): (r: Data)
    ensures r == d
    decreases d, 1
  {
    var children := seq(|d.children|, i requires 0 <= i < |d.children| => RehydrateData(d.children[i]));
    var dictionary := if d.dictionary.Some? then Some(RehydrateVector(d.dictionary.value)) else None;
    Data(RehydrateType(d.typ), d.offset, d.length, d.nullCount, d.buffers, children, dictionary)
  }

  /** `rehydrateVector`: rebuilding every chunk yields the vector it was given. */
  function RehydrateVector(v: Vector): (r: Vector)
    ensures r == v
    decreases v, 1
  {
    Vector(seq(|v.chunks|, i requires 0 <= i < |v.chunks| => RehydrateData(v.chunks[i])))
  }

  /** Two buffer slots hold the same elements, wherever their bytes live. */
  predicate SameSlot(a: Option<View>, b: Option<View>)
  {
    a.Some? == b.Some? && (a.Some? ==> a.value.elems == b.value.elems && a.value.byteLength == b.value.byteLength)
  }

  /**
   * Two trees read the same: equal types, offsets, lengths and null counts,
   * equal elements in every buffer slot, recursively through children and
   * dictionaries.
   */
  predicate SameContents(a: Data, b: Data)
    decreases b
  {
    && a.typ == b.typ
    && a.offset == b.offset
    && a.length == b.length
    && a.nullCount == b.nullCount
    && |a.children| == |b.children|
    && (forall i :: 0 <= i < |b.children| ==> SameContents(a.children[i], b.children[i]))
    && a.dictionary.Some? == b.dictionary.Some?
    && (b.dictionary.Some? ==> SameVectorContents(a.dictionary.value, b.dictionary.value))
    && (forall k: BufferType :: SameSlot(a.buffers.Get(k), b.buffers.Get(k)))
  }

  predicate SameVectorContents(a: Vector, b: Vector)
    decreases b
  {
    |a.chunks| == |b.chunks| && forall i :: 0 <= i < |b.chunks| ==> SameContents(a.chunks[i], b.chunks[i])
  }

  /**
   * The round trip of a transfer: a hard clone, rebuilt on the other side,
   * reads the same as the original in every header field and every
   * offset, validity and coordinate buffer.
   */
  lemma {:induction false} CloneRehydratesToSameContents(c: Data, d: Data, force: bool, lo: nat, hi: nat)
    requires HardClone.ClonedData(c, d, force, lo, hi)
    ensures SameContents(RehydrateData(c), d)
    decreases d
  {
    forall i | 0 <= i < |d.children|
      ensures SameContents(c.children[i], d.children[i])
    {
      CloneRehydratesToSameContents(c.children[i], d.children[i], force, lo, hi);
    }
    if d.dictionary.Some? {
      var cv, dv := c.dictionary.value, d.dictionary.value;
      forall i | 0 <= i < |dv.chunks|
        ensures SameContents(cv.chunks[i], dv.chunks[i])
      {
        CloneRehydratesToSameContents(cv.chunks[i], dv.chunks[i], force, lo, hi);
      }
    }
    forall k: BufferType
      ensures SameSlot(c.buffers.Get(k), d.buffers.Get(k))
    {
      assert HardClone.BufferCloned(c.buffers.Get(k), d.buffers.Get(k), force, lo, hi);
    }
  }
}
