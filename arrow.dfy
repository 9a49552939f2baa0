/**
 * A value model of the parts of Apache Arrow's JavaScript `Data` and `Vector`
 * that the geometry code inspects: logical types, the four optional buffers of
 * a node, its children and its dictionary.  A buffer is a typed-array view
 * into a backing allocation (an `ArrayBuffer`), identified by a number.
 */
module Arrow {

  datatype Option<+T> = None | Some(value: T)

  datatype Result<+T, +E> = Ok(value: T) | Err(error: E)

  /** Logical Arrow types, as far as the geometry code looks at them. */
  datatype DataType =
    | Null
    | Int
    | Float
    | Binary
    | FixedSizeList(listSize: int, child: Field)
    | Struct(fields: seq<Field>)
    | List(child: Field)
    | Other

  datatype Field = Field(name: string, typ: DataType, nullable: bool)

  /** `type.children.length`: the number of child fields a type declares. */
  function NumChildren(t: DataType): nat
  {
    match t
    case FixedSizeList(_, _) => 1
    case List(_) => 1
    case Struct(fields) => |fields|
    case _ => 0
  }

  /** The elements a typed array holds. */
  datatype Elements =
    | IntElements(ints: seq<int>)
    | FloatElements(floats: seq<real>)
    | ByteElements(bytes: seq<int>)

  /**
   * A typed-array view: `byteLength` bytes starting at `byteOffset` of the
   * backing allocation `backing`, which is `backingLength` bytes long.
   */
  datatype View = View(backing: nat, byteOffset: nat, byteLength: nat, backingLength: nat, elems: Elements)

  /** A whole backing allocation, as a transport moves it (`view.buffer`). */
  datatype ArrayBuffer = ArrayBuffer(id: nat, byteLength: nat)

  function BackingOf(v: View): (b: ArrayBuffer)
    ensures b.id == v.backing && b.byteLength == v.backingLength
  {
    ArrayBuffer(v.backing, v.backingLength)
  }

  /** A view over a freshly allocated buffer that holds exactly its elements. */
  function WholeView(id: nat, byteLength: nat, elems: Elements): (v: View)
    ensures v.byteOffset == 0 && v.byteLength == v.backingLength == byteLength
    ensures v.backing == id && v.elems == elems
  {
    View(id, 0, byteLength, byteLength, elems)
  }

  /** Arrow's `BufferType`: the four buffer slots of a node, in slot order. */
  datatype BufferType = OffsetSlot | DataSlot | ValiditySlot | TypeSlot

  const BufferTypes: seq<BufferType> := [OffsetSlot, DataSlot, ValiditySlot, TypeSlot]

  /** `data.buffers`: value offsets, values, null bitmap and union type ids. */
  datatype Buffers = Buffers(valueOffsets: Option<View>, values: Option<View>, nullBitmap: Option<View>, typeIds: Option<View>)
  {
    function Get(k: BufferType): Option<View>
    {
      match k
      case OffsetSlot => valueOffsets
      case DataSlot => values
      case ValiditySlot => nullBitmap
      case TypeSlot => typeIds
    }
  }

  const NoBuffers := Buffers(None, None, None, None)

  /** An Arrow `Data` node. */
  datatype Data = Data(
    typ: DataType,
    offset: int,
    length: int,
    nullCount: int,
    buffers: Buffers,
    children: seq<Data>,
    dictionary: Option<Vector>)

  /** An Arrow `Vector`: a sequence of `Data` chunks. */
  datatype Vector = Vector(chunks: seq<Data>)

  /** `vector.type`: the type of the first chunk (Arrow's null type for no chunks). */
  function TypeOf(v: Vector): DataType
  {
    if |v.chunks| == 0 then Null else v.chunks[0].typ
  }

  /** Every chunk has at least one child node. */
  predicate ChunksHaveChild(v: Vector)
  {
    forall i :: 0 <= i < |v.chunks| ==> |v.chunks[i].children| > 0
  }

  /**
   * `vector.getChildAt(0)`: the vector of the chunks' first children, or
   * nothing when the vector's type declares no child.
   */
  function GetChildAt0(v: Vector): (r: Option<Vector>)
    requires ChunksHaveChild(v)
    ensures r.Some? <==> NumChildren(TypeOf(v)) > 0
    ensures r.Some? ==> |r.value.chunks| == |v.chunks|
    ensures r.Some? ==> forall i :: 0 <= i < |v.chunks| ==> r.value.chunks[i] == v.chunks[i].children[0]
  {
    if NumChildren(TypeOf(v)) > 0 then
      Some(Vector(seq(|v.chunks|, i requires 0 <= i < |v.chunks| => v.chunks[i].children[0])))
    else
      None
  }

  /**
   * Arrow's structural invariant for a nested node: a list or fixed-size list
   * node has exactly one child, whose type is the one its child field declares.
   */
  predicate ChildMatchesType(d: Data)
  {
    match d.typ
    case List(f) => |d.children| == 1 && d.children[0].typ == f.typ
    case FixedSizeList(_, f) => |d.children| == 1 && d.children[0].typ == f.typ
    case _ => true
  }

  /** `v` is one of the defined buffers of `d`'s tree: children and dictionaries included. */
  predicate HasView(d: Data, v: View)
    decreases d
  {
    || (exists i :: 0 <= i < |d.children| && HasView(d.children[i], v))
    || (d.dictionary.Some? && VectorHasView(d.dictionary.value, v))
    || (exists k: BufferType :: d.buffers.Get(k) == Some(v))
  }

  predicate VectorHasView(vec: Vector, v: View)
    decreases vec
  {
    exists i :: 0 <= i < |vec.chunks| && HasView(vec.chunks[i], v)
  }

  /** Bytes per element of a `Float64Array` and of an `Int32Array`. */
  const Float64Bytes: nat := 8
  const Int32Bytes: nat := 4
}
