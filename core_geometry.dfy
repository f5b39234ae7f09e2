/**
 * Geometry construction in Src/CoreGeometry.cpp: the argument checks of the
 * script-side constructor, the call into the vertex parser and the copy of
 * the index array into a buffer of OVR triangle indices.
 */
module CoreGeometry {
  import opened JsValues
  import VertexAttribs

  /** OVR's TriangleIndex is an unsigned 16-bit integer. */
  const TRIANGLE_INDEX_MODULUS: nat := 0x1_0000

  type TriangleIndex = n: int | 0 <= n < TRIANGLE_INDEX_MODULUS

  /**
   * Storing a script int into a TriangleIndex keeps its low sixteen bits:
   * the stored value is congruent to the int modulo 2^16.
   */
  function ToTriangleIndex(n: Int32): (r: TriangleIndex)
    ensures (r - n) % TRIANGLE_INDEX_MODULUS == 0
  {
    n % TRIANGLE_INDEX_MODULUS
  }

  /** The built geometry: the parsed attribute arrays and the index buffer. */
  datatype Geometry = Geometry(vertices: VertexAttribs.Attribs, indices: seq<TriangleIndex>)

  /**
   * What the constructor needs of its input beyond its own checks, and only
   * once those checks have passed: the vertices must suit the parser, and,
   * when the parser succeeds, every entry of the index array must be an int,
   * since each is read with toInt32 without a type check.
   */
  predicate Admissible(args: seq<Value>, heap: Heap)
  {
    |args| == 1 && args[0].IsObject() ==>
      var opts := PropertiesOf(heap, args[0]);
      var vertices, indices := Get(opts, "vertices"), Get(opts, "indices");
      vertices.Arr? && indices.Arr? ==>
        && VertexAttribs.WellFormed(vertices)
        && (VertexAttribs.HeaderValid(vertices.elems) ==> IndexEntriesAreInts(indices))
  }

  predicate IndexEntriesAreInts(indices: Value)
  {
    indices.Arr? ==> forall i :: 0 <= i < |indices.elems| ==> indices.elems[i].Int?
  }

  /** The index buffer built from an array of ints, one entry per element, in order. */
  function IndexBuffer(elems: seq<Value>): (r: seq<TriangleIndex>)
    requires forall i :: 0 <= i < |elems| ==> elems[i].Int?
  {
    seq(|elems|, i requires 0 <= i < |elems| => ToTriangleIndex(elems[i].n))
  }

  /** The message the parser reports for an unknown tag in its header. */
  function UnknownTagMessage(position: nat): string
  {
    "Unknown argument in position " + Decimal(position) + ", expected constant flag"
  }

  /**
   * The outcome of CoreGeometry_constructor: the checks in source order,
   * then the parse (whose failure reports the first unknown header tag),
   * then the index copy.
   */
  function Build(args: seq<Value>, heap: Heap): Result<Geometry, Failure>
    requires Admissible(args, heap)
  {
    if |args| != 1 then Err(WrongArgumentCount(|args|, 1))
    else if !args[0].IsObject() then Err(Reported("Invalid argument type, must be an object"))
    else
      var opts := PropertiesOf(heap, args[0]);
      var vertices, indices := Get(opts, "vertices"), Get(opts, "indices");
      if vertices.IsNullOrUndefined() || !vertices.IsObject() then Err(Reported("Could not parse vertices"))
      else if !vertices.Arr? then Err(Reported("Expected vertices to be an array object"))
      else if indices.IsNullOrUndefined() || !indices.IsObject() then Err(Reported("Could not parse indices"))
      else if !indices.Arr? then Err(Reported("Expected indices to be an array object"))
      else
        match VertexAttribs.Parse(vertices)
        case None => Err(Reported(UnknownTagMessage(VertexAttribs.FirstBadTag(vertices.elems))))
        case Some(attribs) => Ok(Geometry(attribs, IndexBuffer(indices.elems)))
  }

  /** Fills a buffer of the array's length with the converted elements, one at a time. */
  method CopyIndices(elems: seq<Value>) returns (idc: array<TriangleIndex>)
    requires forall i :: 0 <= i < |elems| ==> elems[i].Int?
    ensures idc.Length == |elems|
    ensures forall i :: 0 <= i < |elems| ==> idc[i] == ToTriangleIndex(elems[i].n)
  {
    idc := new TriangleIndex[|elems|];
    var i := 0;
    while i < |elems|
      invariant 0 <= i <= |elems|
      invariant forall k :: 0 <= k < i ==> idc[k] == ToTriangleIndex(elems[k].n)
    {
      idc[i] := elems[i].n % TRIANGLE_INDEX_MODULUS;
      i := i + 1;
    }
  }

  /** CoreGeometry_constructor: checks the arguments, parses the vertices, copies the indices. */
  method Construct(args: seq<Value>, heap: Heap) returns (r: Result<Geometry, Failure>)
    requires Admissible(args, heap)
    ensures r == Build(args, heap)
  {
    if |args| != 1 {
      return Err(WrongArgumentCount(|args|, 1));
    }
    if !args[0].IsObject() {
      return Err(Reported("Invalid argument type, must be an object"));
    }
    var opts := PropertiesOf(heap, args[0]);
    var vertices := Get(opts, "vertices");
    if vertices.IsNullOrUndefined() || !vertices.IsObject() {
      return Err(Reported("Could not parse vertices"));
    }
    if !vertices.Arr? {
      return Err(Reported("Expected vertices to be an array object"));
    }
    var indices := Get(opts, "indices");
    if indices.IsNullOrUndefined() || !indices.IsObject() {
      return Err(Reported("Could not parse indices"));
    }
    if !indices.Arr? {
      return Err(Reported("Expected indices to be an array object"));
    }
    var vert := VertexAttribs.ParseVertexAttribs(vertices);
    if vert.None? {
      return Err(Reported(UnknownTagMessage(VertexAttribs.FirstBadTag(vertices.elems))));
    }
    var idc := CopyIndices(indices.elems);
    assert idc[..] == IndexBuffer(indices.elems);
    return Ok(Geometry(vert.value, idc[..]));
  }

  // ---------------------------------------------------------------------------
  // What construction promises

  /**
   * Construction succeeds exactly when there is one object argument whose
   * vertices and indices are both array objects and whose vertex header holds
   * no unknown tag.
   */
  lemma BuildSucceedsExactly(args: seq<Value>, heap: Heap)
    requires Admissible(args, heap)
    ensures Build(args, heap).Ok? <==>
              && |args| == 1 && args[0].IsObject()
              && Get(PropertiesOf(heap, args[0]), "vertices").Arr?
              && Get(PropertiesOf(heap, args[0]), "indices").Arr?
              && VertexAttribs.HeaderValid(Get(PropertiesOf(heap, args[0]), "vertices").elems)
  {
    if |args| == 1 && args[0].IsObject() {
      var vertices := Get(PropertiesOf(heap, args[0]), "vertices");
      if vertices.Arr? && Get(PropertiesOf(heap, args[0]), "indices").Arr? {
        VertexAttribs.ParseFailsExactly(vertices);
        if VertexAttribs.FirstBadTag(vertices.elems) < VertexAttribs.HeaderEnd(vertices.elems) {
          var b := VertexAttribs.FirstBadTag(vertices.elems);
          assert vertices.elems[b].Int? && !VertexAttribs.KnownTag(vertices.elems[b].n);
        }
      }
    }
  }

  /**
   * A missing or null vertices or indices option fails construction, before
   * the parser is reached; the vertices are checked first.
   */
  lemma MissingArraysFail(args: seq<Value>, heap: Heap)
    requires Admissible(args, heap) && |args| == 1 && args[0].IsObject()
    ensures Get(PropertiesOf(heap, args[0]), "vertices").IsNullOrUndefined() ==>
              Build(args, heap) == Err(Reported("Could not parse vertices"))
    ensures Get(PropertiesOf(heap, args[0]), "vertices").Arr? && Get(PropertiesOf(heap, args[0]), "indices").IsNullOrUndefined() ==>
              Build(args, heap) == Err(Reported("Could not parse indices"))
  {
  }

  /**
   * A built geometry holds the parsed vertices and one index per element of
   * the index array, in order; an index already in 0 .. 65535 is stored as is.
   */
  lemma BuiltAsGiven(args: seq<Value>, heap: Heap)
    requires Admissible(args, heap) && Build(args, heap).Ok?
    ensures var opts := PropertiesOf(heap, args[0]);
            var vertices, indices := Get(opts, "vertices"), Get(opts, "indices");
            && VertexAttribs.Parse(vertices) == Some(Build(args, heap).value.vertices)
            && |Build(args, heap).value.indices| == |indices.elems|
            && forall i :: 0 <= i < |indices.elems| && 0 <= indices.elems[i].n < TRIANGLE_INDEX_MODULUS ==>
                 Build(args, heap).value.indices[i] == indices.elems[i].n
  {
  }

  /** A negative index wraps around: -1 is stored as 65535. */
  lemma NegativeIndexWraps()
    ensures ToTriangleIndex(-1) == 65535
  {
  }
}
