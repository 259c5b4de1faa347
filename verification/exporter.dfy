/**
 * The glTF exporter's accessor packer: it turns one geometry attribute into a
 * glTF accessor record, delegating the byte copy to a buffer-view writer, and
 * appends the record to the document's accessor list.
 *
 * The min/max computation and the two buffer-view writers are passed in as
 * functions; the exporter only decides what they are asked for.
 */
module Exporter {
  import opened Wrappers
  import opened GltfConstants

  /** The constructor of the typed array behind an attribute. */
  datatype ArrayKind =
    | Int8 | Uint8 | Uint8Clamped | Int16 | Uint16 | Int32 | Uint32
    | Float32 | Float64 | BigInt64 | BigUint64

  /** A plain attribute owns its array; an interleaved one shares a strided buffer. */
  datatype Layout = Flat | Interleaved

  datatype BufferAttribute = BufferAttribute(
    kind: ArrayKind,
    count: nat,
    itemSize: int,
    normalized: bool,
    layout: Layout)

  /** A geometry's draw range; a `count` of None stands for Infinity. */
  datatype DrawRange = DrawRange(start: int, count: Option<int>)

  /** The parts of a geometry the packer reads: is it indexed, and its draw range. */
  datatype Geometry = Geometry(index: Option<BufferAttribute>, drawRange: DrawRange)

  /** The optional arguments; `B` is the type of interleaved buffers. */
  datatype Options<B> = Options(
    start: Option<int>,
    count: Option<int>,
    geometry: Option<Geometry>,
    interleavedBuffer: Option<B>)

  datatype Bounds = Bounds(min: seq<real>, max: seq<real>)

  /** What a buffer-view writer returns: the view index and a temporary buffer id. */
  datatype BufferViewResult = BufferViewResult(index: int, bufferIndex: int)

  /** A glTF accessor record; `accessorType` is the glTF `type` field. */
  datatype Accessor = Accessor(
    bufferView: int,
    byteOffset: int,
    componentType: int,
    count: int,
    max: seq<real>,
    min: seq<real>,
    accessorType: string,
    normalized: Option<bool>,
    bufferIndex: int)

  /** The part of the glTF document the packer touches; the list may be absent. */
  datatype Document = Document(accessors: Option<seq<Accessor>>)

  /** Which writer the packer calls, and with what. */
  datatype WriterCall<B> =
    | FlatWrite(componentType: int, start: int, count: int)
    | InterleavedWrite(buffer: B, componentType: int, start: int, count: int)

  datatype ExportError =
    | UnsupportedComponentType(kind: ArrayKind)
    | UnsupportedItemSize(itemSize: int)
    | InterleavedBufferRequired

  /**
   * A successful run: the document afterwards, the new accessor's index (None
   * for the `null` return) and the writer call made (None when none was made).
   */
  datatype Packed<B> = Packed(json: Document, index: Option<nat>, write: Option<WriterCall<B>>)

  /** The elements `start .. start + count - 1` of an attribute. */
  datatype Window = Window(start: int, count: int)

  predicate InWindow(w: Window, i: int) {
    w.start <= i < w.start + w.count
  }

  /** The component type of an array kind; only four kinds have one. */
  function ComponentTypeOf(kind: ArrayKind): (r: Option<ComponentType>)
    ensures r == Some(Float) <==> kind == Float32
    ensures r == Some(UnsignedInt) <==> kind == Uint32
    ensures r == Some(UnsignedShort) <==> kind == Uint16
    ensures r == Some(UnsignedByte) <==> kind == Uint8
  {
    match kind
    case Float32 => Some(Float)
    case Uint32 => Some(UnsignedInt)
    case Uint16 => Some(UnsignedShort)
    case Uint8 => Some(UnsignedByte)
    case _ => None
  }

  /** The requested window: `start` defaults to 0, `count` to the attribute's count. */
  function RequestedWindow<B>(attr: BufferAttribute, options: Options<B>): (w: Window)
    ensures options.start.None? ==> w.start == 0
    ensures options.start.Some? ==> w.start == options.start.value
    ensures options.count.None? ==> w.count == attr.count
    ensures options.count.Some? ==> w.count == options.count.value
  {
    Window(options.start.GetOr(0), options.count.GetOr(attr.count))
  }

  /** Clamping applies only to a geometry without an index. */
  predicate ClampsToDrawRange(geometry: Option<Geometry>) {
    geometry.Some? && geometry.value.index.None?
  }

  /** The end of a draw range; an infinite one ends at the attribute's count. */
  function DrawEnd(range: DrawRange, attrCount: nat): (end: int)
    ensures range.count.Some? ==> end - range.start == range.count.value
    ensures range.count.None? ==> end == attrCount
  {
    match range.count
    case None => attrCount
    case Some(c) => c + range.start
  }

  /**
   * The window after clamping to a non-indexed geometry's draw range: exactly
   * the elements both in the requested window and in the draw range, starting
   * no earlier than either; an empty intersection gives count 0.
   */
  function ClampToDrawRange(w: Window, attrCount: nat, geometry: Option<Geometry>): (r: Window)
    ensures !ClampsToDrawRange(geometry) ==> r == w
    ensures ClampsToDrawRange(geometry) ==>
      var range := geometry.value.drawRange;
      var end := DrawEnd(range, attrCount);
      && r.start >= w.start && r.start >= range.start
      && (r.start == w.start || r.start == range.start)
      && r.count >= 0
      && (r.count > 0 ==> r.start + r.count <= w.start + w.count && r.start + r.count <= end)
      && forall i :: InWindow(r, i) <==> InWindow(w, i) && range.start <= i < end
  {
    if ClampsToDrawRange(geometry) then
      var range := geometry.value.drawRange;
      var end := w.start + w.count;
      var end2 := DrawEnd(range, attrCount);
      var start := if w.start >= range.start then w.start else range.start;
      var count := (if end <= end2 then end else end2) - start;
      Window(start, if count < 0 then 0 else count)
    else
      w
  }

  /** The writer call for an attribute: the interleaved writer iff it is interleaved. */
  function WriterCallFor<B>(attr: BufferAttribute, buffer: Option<B>, componentType: int, w: Window): (c: WriterCall<B>)
    requires attr.layout.Interleaved? ==> buffer.Some?
    ensures c.InterleavedWrite? <==> attr.layout.Interleaved?
    ensures c.componentType == componentType && c.start == w.start && c.count == w.count
    ensures c.InterleavedWrite? ==> c.buffer == buffer.value
  {
    match attr.layout
    case Interleaved => InterleavedWrite(buffer.value, componentType, w.start, w.count)
    case Flat => FlatWrite(componentType, w.start, w.count)
  }

  /** Performs a writer call with the attribute. */
  function Perform<B>(
    call: WriterCall<B>,
    attr: BufferAttribute,
    writeFlat: (BufferAttribute, int, int, int) -> BufferViewResult,
    writeInterleaved: (BufferAttribute, B, int, int, int) -> BufferViewResult): BufferViewResult
  {
    match call
    case FlatWrite(ct, start, count) => writeFlat(attr, ct, start, count)
    case InterleavedWrite(buffer, ct, start, count) => writeInterleaved(attr, buffer, ct, start, count)
  }

  /** The accessors of a document, or none when the list is absent. */
  function AccessorsOf(json: Document): seq<Accessor> {
    json.accessors.GetOr([])
  }

  /** Whether the packer gets past all of its checks for these arguments. */
  predicate Succeeds<B>(attr: BufferAttribute, types: map<int, string>, options: Options<B>) {
    && ComponentTypeOf(attr.kind).Some?
    && (RequestedWindow(attr, options).count == 0
        || (attr.itemSize in types && !(attr.layout.Interleaved? && options.interleavedBuffer.None?)))
  }

  /**
   * `processAccessor`. `types` is the item-size table the exporter looks the
   * element type up in.
   */
  function ProcessAccessor<B(==)>(
    attr: BufferAttribute,
    json: Document,
    types: map<int, string>,
    getMinMax: (BufferAttribute, int, int) -> Bounds,
    writeFlat: (BufferAttribute, int, int, int) -> BufferViewResult,
    writeInterleaved: (BufferAttribute, B, int, int, int) -> BufferViewResult,
    options: Options<B>): (r: Result<Packed<B>, ExportError>)
    // the array kind is checked first, whatever the other arguments
    ensures ComponentTypeOf(attr.kind).None? <==> r == Err(UnsupportedComponentType(attr.kind))
    // a zero count returns null before the item size is checked
    ensures ComponentTypeOf(attr.kind).Some? && RequestedWindow(attr, options).count == 0 ==>
      r == Ok(Packed(json, None, None))
    ensures ComponentTypeOf(attr.kind).Some? && RequestedWindow(attr, options).count != 0 ==>
      (r == Err(UnsupportedItemSize(attr.itemSize)) <==> attr.itemSize !in types)
    ensures ComponentTypeOf(attr.kind).Some? && RequestedWindow(attr, options).count != 0 && attr.itemSize in types ==>
      (r == Err(InterleavedBufferRequired) <==> attr.layout.Interleaved? && options.interleavedBuffer.None?)
    ensures r.Ok? <==> Succeeds(attr, types, options)
    ensures r.Ok? ==> (r.value.index.None? <==> RequestedWindow(attr, options).count == 0)
    ensures r.Ok? && r.value.index.None? ==> r.value.json == json && r.value.write.None?
    // otherwise one accessor is appended and its index returned
    ensures r.Ok? && r.value.index.Some? ==>
      var prev := AccessorsOf(json);
      var ct := ComponentTypeOf(attr.kind).value.Code();
      var w := ClampToDrawRange(RequestedWindow(attr, options), attr.count, options.geometry);
      var call := WriterCallFor(attr, options.interleavedBuffer, ct, w);
      var view := Perform(call, attr, writeFlat, writeInterleaved);
      && r.value.index.value == |prev|
      && r.value.write == Some(call)
      && r.value.json.accessors.Some?
      && var accessors := r.value.json.accessors.value;
      && |accessors| == |prev| + 1
      && accessors[..|prev|] == prev
      && var a := accessors[|prev|];
      && a.bufferView == view.index
      && a.bufferIndex == view.bufferIndex
      && a.byteOffset == 0
      && a.componentType == ct
      && a.count == w.count
      && a.min == getMinMax(attr, w.start, w.count).min
      && a.max == getMinMax(attr, w.start, w.count).max
      && a.accessorType == types[attr.itemSize]
      && (a.normalized.Some? <==> attr.normalized)
      && (a.normalized.Some? ==> a.normalized.value)
  {
    match ComponentTypeOf(attr.kind)
    case None => Err(UnsupportedComponentType(attr.kind))
    case Some(componentType) =>
      var requested := RequestedWindow(attr, options);
      if requested.count == 0 then Ok(Packed(json, None, None))
      else
        var w := ClampToDrawRange(requested, attr.count, options.geometry);
        var bounds := getMinMax(attr, w.start, w.count);
        if attr.itemSize !in types then Err(UnsupportedItemSize(attr.itemSize))
        else if attr.layout.Interleaved? && options.interleavedBuffer.None? then Err(InterleavedBufferRequired)
        else
          var ct := componentType.Code();
          var call := WriterCallFor(attr, options.interleavedBuffer, ct, w);
          var view := Perform(call, attr, writeFlat, writeInterleaved);
          var accessor := Accessor(
            view.index, 0, ct, w.count, bounds.max, bounds.min, types[attr.itemSize],
            if attr.normalized then Some(true) else None,
            view.bufferIndex);
          var prev := AccessorsOf(json);
          Ok(Packed(Document(Some(prev + [accessor])), Some(|prev|), Some(call)))
  }

  /**
   * The zero-count check looks at the requested count, before clamping: a
   * window that clamping empties is still written and appended, with count 0.
   */
  lemma ClampedToZeroIsStillWritten<B>(
    attr: BufferAttribute,
    json: Document,
    types: map<int, string>,
    getMinMax: (BufferAttribute, int, int) -> Bounds,
    writeFlat: (BufferAttribute, int, int, int) -> BufferViewResult,
    writeInterleaved: (BufferAttribute, B, int, int, int) -> BufferViewResult,
    options: Options<B>)
    requires Succeeds(attr, types, options)
    requires RequestedWindow(attr, options).count != 0
    requires ClampToDrawRange(RequestedWindow(attr, options), attr.count, options.geometry).count == 0
    ensures var r := ProcessAccessor(attr, json, types, getMinMax, writeFlat, writeInterleaved, options);
      && r.Ok? && r.value.index.Some?
      && r.value.json.accessors.Some?
      && r.value.json.accessors.value[r.value.index.value].count == 0
  {
  }

  /**
   * Such a window exists: elements 8 and 9 of a ten-element attribute, drawn
   * by a geometry whose draw range covers elements 0 to 4 only, are packed
   * into an accessor of count 0.
   */
  lemma ClampedToZeroExample()
    ensures var attr := BufferAttribute(Float32, 10, 3, false, Flat);
      var options: Options<int> := Options(Some(8), Some(2), Some(Geometry(None, DrawRange(0, Some(5)))), None);
      var r := ProcessAccessor(
        attr, Document(None), StandardAttributeTypes,
        (a: BufferAttribute, s: int, c: int) => Bounds([], []),
        (a: BufferAttribute, ct: int, s: int, c: int) => BufferViewResult(0, 0),
        (a: BufferAttribute, b: int, ct: int, s: int, c: int) => BufferViewResult(0, 0),
        options);
      && ClampToDrawRange(RequestedWindow(attr, options), attr.count, options.geometry) == Window(8, 0)
      && r == Ok(Packed(
        Document(Some([Accessor(0, 0, 5126, 0, [], [], "VEC3", None, 0)])),
        Some(0),
        Some(FlatWrite(5126, 8, 0))))
  {
  }

  /**
   * The packer with the zero-count check after the draw-range clamp, so that
   * an empty clamped window also returns null.
   */
  function ProcessAccessorClampedCheck<B(==)>(
    attr: BufferAttribute,
    json: Document,
    types: map<int, string>,
    getMinMax: (BufferAttribute, int, int) -> Bounds,
    writeFlat: (BufferAttribute, int, int, int) -> BufferViewResult,
    writeInterleaved: (BufferAttribute, B, int, int, int) -> BufferViewResult,
    options: Options<B>): (r: Result<Packed<B>, ExportError>)
    ensures ComponentTypeOf(attr.kind).None? <==> r == Err(UnsupportedComponentType(attr.kind))
    ensures r.Ok? && r.value.index.None? ==> r.value.json == json && r.value.write.None?
    ensures r.Ok? && r.value.index.Some? ==>
      && r.value.json.accessors.Some?
      && r.value.index.value < |r.value.json.accessors.value|
      && r.value.json.accessors.value[r.value.index.value].count != 0
    ensures r.Ok? && r.value.index.Some? && RequestedWindow(attr, options).count >= 0 ==>
      r.value.json.accessors.value[r.value.index.value].count >= 1
    ensures (ComponentTypeOf(attr.kind).Some?
      && ClampToDrawRange(RequestedWindow(attr, options), attr.count, options.geometry).count != 0) ==>
      r == ProcessAccessor(attr, json, types, getMinMax, writeFlat, writeInterleaved, options)
  {
    if ComponentTypeOf(attr.kind).None? then Err(UnsupportedComponentType(attr.kind))
    else if ClampToDrawRange(RequestedWindow(attr, options), attr.count, options.geometry).count == 0 then
      Ok(Packed(json, None, None))
    else
      ProcessAccessor(attr, json, types, getMinMax, writeFlat, writeInterleaved, options)
  }

  /**
   * A Float32 attribute of item size 3 over the window 0..2 gives a FLOAT VEC3
   * accessor of count 3 whose bounds are those of exactly that window.
   */
  lemma FloatVec3Example<B>(
    attr: BufferAttribute,
    json: Document,
    getMinMax: (BufferAttribute, int, int) -> Bounds,
    writeFlat: (BufferAttribute, int, int, int) -> BufferViewResult,
    writeInterleaved: (BufferAttribute, B, int, int, int) -> BufferViewResult)
    requires attr.kind == Float32 && attr.itemSize == 3 && attr.layout == Flat
    ensures var options: Options<B> := Options(Some(0), Some(3), None, None);
      var r := ProcessAccessor(attr, json, StandardAttributeTypes, getMinMax, writeFlat, writeInterleaved, options);
      && r.Ok? && r.value.index.Some?
      && var a := r.value.json.accessors.value[r.value.index.value];
      && a.componentType == 5126
      && a.accessorType == "VEC3"
      && a.count == 3
      && a.min == getMinMax(attr, 0, 3).min
      && a.max == getMinMax(attr, 0, 3).max
      && r.value.write == Some(FlatWrite(5126, 0, 3))
  {
  }

  /**
   * No reuse: packing the same attribute twice appends two accessors, at
   * consecutive indices, and makes two writer calls.
   */
  lemma PackingTwiceAppendsTwice<B>(
    attr: BufferAttribute,
    json: Document,
    types: map<int, string>,
    getMinMax: (BufferAttribute, int, int) -> Bounds,
    writeFlat: (BufferAttribute, int, int, int) -> BufferViewResult,
    writeInterleaved: (BufferAttribute, B, int, int, int) -> BufferViewResult,
    options: Options<B>)
    requires Succeeds(attr, types, options)
    requires RequestedWindow(attr, options).count != 0
    ensures var first := ProcessAccessor(attr, json, types, getMinMax, writeFlat, writeInterleaved, options);
      var second := ProcessAccessor(attr, first.value.json, types, getMinMax, writeFlat, writeInterleaved, options);
      && first.Ok? && second.Ok?
      && first.value.index == Some(|AccessorsOf(json)|)
      && second.value.index == Some(|AccessorsOf(json)| + 1)
      && |AccessorsOf(second.value.json)| == |AccessorsOf(json)| + 2
      && AccessorsOf(second.value.json)[..|AccessorsOf(json)|] == AccessorsOf(json)
      && first.value.write.Some? && second.value.write.Some?
  {
    var first := ProcessAccessor(attr, json, types, getMinMax, writeFlat, writeInterleaved, options);
    var mid := AccessorsOf(first.value.json);
    var second := ProcessAccessor(attr, first.value.json, types, getMinMax, writeFlat, writeInterleaved, options);
    var last := AccessorsOf(second.value.json);
    assert last[..|mid|] == mid;
    assert last[..|AccessorsOf(json)|] == mid[..|AccessorsOf(json)|];
  }
}
