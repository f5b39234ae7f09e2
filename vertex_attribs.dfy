/**
 * The interleaved vertex-array parser of Src/ParseVertexAttribs.cpp.
 *
 * The input array starts with a header of integer attribute tags (null and
 * undefined entries are skipped but keep their position). The first entry
 * that is neither null, undefined nor an int ends the header: if it sits at
 * position h, every vertex has h components, entry j of the data belongs to
 * the attribute tagged at header position j % h, and the vertex counter
 * advances after the last component of each vertex.
 *
 * The result is indexed by attribute tag: entry a is the array of attribute a
 * (one vector, as a sequence of components, per vertex), empty when the header
 * does not declare a.
 */
module VertexAttribs {
  import opened JsValues

  /** Size of the fixed `indices` and `reverse` buffers. */
  const MAX_COMPONENT_COUNT: nat := 10

  /** Attribute tags, in the order of OVR's vertex attributes. */
  const POSITION: int := 0
  const NORMAL: int := 1
  const TANGENT: int := 2
  const BINORMAL: int := 3
  const COLOR: int := 4
  const UV0: int := 5
  const UV1: int := 6
  const ATTRIBUTE_COUNT: nat := 7

  /** One array per attribute tag, one vector per vertex. */
  type Attribs = seq<seq<seq<real>>>

  /** Tags the parser accepts; the joint tags (7 and 8) are commented out in the source. */
  predicate KnownTag(k: int)
  {
    POSITION <= k <= UV1
  }

  /** Number of components of the vector type an attribute stores. */
  function Width(a: int): nat
  {
    if a == COLOR then 4 else if a == UV0 || a == UV1 then 2 else 3
  }

  /** The default-constructed vector an attribute array is resized with. */
  function Zero(a: int): (z: seq<real>)
    ensures |z| == Width(a) && forall k :: 0 <= k < |z| ==> z[k] == 0.0
  {
    seq(Width(a), _ => 0.0)
  }

  function Min(x: int, y: int): int
  {
    if x <= y then x else y
  }

  predicate IsTagAt(cells: seq<Value>, p: int, a: int)
    requires 0 <= p < |cells|
  {
    cells[p].Int? && cells[p].n == a
  }

  /** Where the header ends: the first entry that is neither null, undefined nor an int. */
  function HeaderEnd(cells: seq<Value>): (h: nat)
    ensures h <= |cells|
    ensures forall p :: 0 <= p < h ==> cells[p].IsNullOrUndefined() || cells[p].Int?
    ensures h < |cells| ==> !cells[h].IsNullOrUndefined() && !cells[h].Int?
  {
    HeaderEndFrom(cells, 0)
  }

  function HeaderEndFrom(cells: seq<Value>, p: nat): (h: nat)
    requires p <= |cells|
    ensures p <= h <= |cells|
    ensures forall q :: p <= q < h ==> cells[q].IsNullOrUndefined() || cells[q].Int?
    ensures h < |cells| ==> !cells[h].IsNullOrUndefined() && !cells[h].Int?
    decreases |cells| - p
  {
    if p == |cells| then p
    else if cells[p].IsNullOrUndefined() || cells[p].Int? then HeaderEndFrom(cells, p + 1)
    else p
  }

  /** The first header position holding an unknown tag, or HeaderEnd when there is none. */
  function FirstBadTag(cells: seq<Value>): (b: nat)
    ensures b <= HeaderEnd(cells)
    ensures forall p :: 0 <= p < b ==> !(cells[p].Int? && !KnownTag(cells[p].n))
    ensures b < HeaderEnd(cells) ==> cells[b].Int? && !KnownTag(cells[b].n)
  {
    FirstBadTagFrom(cells, 0)
  }

  function FirstBadTagFrom(cells: seq<Value>, p: nat): (b: nat)
    requires p <= HeaderEnd(cells)
    ensures p <= b <= HeaderEnd(cells)
    ensures forall q :: p <= q < b ==> !(cells[q].Int? && !KnownTag(cells[q].n))
    ensures b < HeaderEnd(cells) ==> cells[b].Int? && !KnownTag(cells[b].n)
    decreases |cells| - p
  {
    if p == HeaderEnd(cells) then p
    else if cells[p].IsNullOrUndefined() || KnownTag(cells[p].n) then FirstBadTagFrom(cells, p + 1)
    else p
  }

  predicate HeaderValid(cells: seq<Value>)
  {
    FirstBadTag(cells) == HeaderEnd(cells)
  }

  /** `indices[a]` after the first m entries: the last position tagged a, or -1. */
  function LastTag(cells: seq<Value>, a: int, m: nat): (p: int)
    requires m <= |cells|
    ensures -1 <= p < m
    ensures p >= 0 ==> IsTagAt(cells, p, a)
    ensures forall q :: p < q < m ==> !IsTagAt(cells, q, a)
  {
    if m == 0 then -1
    else if IsTagAt(cells, m - 1, a) then m - 1
    else LastTag(cells, a, m - 1)
  }

  /** `reverse[p]` once the header is read: the tag at header position p, or -1. */
  function ReverseAt(cells: seq<Value>, p: nat): int
  {
    if p < HeaderEnd(cells) && cells[p].Int? then cells[p].n else -1
  }

  /**
   * What the parser needs of its input, each a hazard of the source: header
   * tags before any unknown tag sit inside the ten-slot buffers; and when the
   * header is valid, it has at most ten entries, the first entry is not data
   * (otherwise the vertex count divides by zero), the data is a whole number
   * of vertices (otherwise a trailing partial vertex is written past the
   * resized arrays), and every data entry is null, undefined or a vector
   * with at least as many components as its attribute's vector type
   * (otherwise the copy reads past the vector).
   */
  predicate WellFormed(input: Value)
  {
    input.Arr? ==>
      var cells := input.elems;
      var h := HeaderEnd(cells);
      && (forall p :: 0 <= p < FirstBadTag(cells) && cells[p].Int? ==> p < MAX_COMPONENT_COUNT)
      && (HeaderValid(cells) ==>
            && h <= MAX_COMPONENT_COUNT
            && (h < |cells| ==> DataShape(cells, h)))
  }

  /** The data part of a well-formed input whose header ends at h. */
  predicate DataShape(cells: seq<Value>, h: nat)
  {
    && 0 < h < |cells|
    && h <= MAX_COMPONENT_COUNT
    && h == HeaderEnd(cells)
    && HeaderValid(cells)
    && Mod(|cells| - h, h) == 0
    && (forall j :: h <= j < |cells| ==> cells[j].IsNullOrUndefined() || cells[j].Vector?)
    && forall j :: h <= j < |cells| ==> FitsAttribute(cells, h, j)
  }

  /**
   * The source copies a data vector through a cast to its attribute's vector
   * type, reading Width components: a vector that goes to an attribute has at
   * least that many (a wider one has the rest ignored).
   */
  predicate FitsAttribute(cells: seq<Value>, h: nat, j: nat)
    requires 0 < h && j < |cells|
  {
    var a := ReverseAt(cells, Mod(j, h));
    cells[j].Vector? && 0 <= a < ATTRIBUTE_COUNT ==> Width(a) <= |cells[j].comps|
  }

  /** `totalVertices`: whole vertices after the header. */
  function TotalVertices(cells: seq<Value>, h: nat): nat
    requires 0 < h <= |cells|
  {
    Div(|cells| - h, h)
  }

  predicate Declared(cells: seq<Value>, a: int)
  {
    LastTag(cells, a, HeaderEnd(cells)) >= 0
  }

  /** `vertexNum` when data entry j is reached: the non-null last components seen since the header. */
  function VertexNum(cells: seq<Value>, h: nat, j: nat): nat
    requires 0 < h <= j <= |cells|
  {
    if j == h then 0
    else VertexNum(cells, h, j - 1) + (if !cells[j - 1].IsNullOrUndefined() && Mod(j - 1, h) == h - 1 then 1 else 0)
  }

  /** The attribute arrays right after the header: declared ones resized to totalVertices. */
  function Resized(cells: seq<Value>, h: nat): (r: Attribs)
    requires 0 < h <= |cells|
    ensures |r| == ATTRIBUTE_COUNT
    ensures forall a :: 0 <= a < ATTRIBUTE_COUNT ==> |r[a]| == if Declared(cells, a) then TotalVertices(cells, h) else 0
  {
    seq(ATTRIBUTE_COUNT, a => if Declared(cells, a) then seq(TotalVertices(cells, h), _ => Zero(a)) else [])
  }

  /** The attribute arrays once data entries h .. j-1 have been distributed. */
  function Filled(cells: seq<Value>, h: nat, j: nat): (r: Attribs)
    requires DataShape(cells, h) && h <= j <= |cells|
    ensures |r| == ATTRIBUTE_COUNT
    ensures forall a :: 0 <= a < ATTRIBUTE_COUNT ==> |r[a]| == if Declared(cells, a) then TotalVertices(cells, h) else 0
  {
    if j == h then Resized(cells, h)
    else
      var prev := Filled(cells, h, j - 1);
      var c := cells[j - 1];
      if c.IsNullOrUndefined() then prev
      else
        var a := ReverseAt(cells, Mod(j - 1, h));
        if 0 <= a < ATTRIBUTE_COUNT then
          VertexNumInRange(cells, h, j - 1);
          assert Declared(cells, a) by {
            assert IsTagAt(cells, Mod(j - 1, h), a);
          }
          assert FitsAttribute(cells, h, j - 1);
          prev[a := prev[a][VertexNum(cells, h, j - 1) := c.comps[..Width(a)]]]
        else prev
  }

  /** The parser's outcome: None where the source returns NULL. */
  function Parse(input: Value): (r: Option<Attribs>)
    requires WellFormed(input)
  {
    if !input.Arr? then None
    else
      var cells := input.elems;
      var h := HeaderEnd(cells);
      if !HeaderValid(cells) then None
      else if h == |cells| then Some(seq(ATTRIBUTE_COUNT, _ => []))
      else Some(Filled(cells, h, |cells|))
  }

  // ---------------------------------------------------------------------------
  // Arithmetic about the vertex counter

  /** Integer division of naturals, by repeated subtraction. */
  function Div(x: nat, h: nat): nat
    requires h > 0
  {
    if x < h then 0 else 1 + Div(x - h, h)
  }

  /** The remainder that goes with Div. */
  function Mod(x: nat, h: nat): (r: nat)
    requires h > 0
    ensures r < h
  {
    if x < h then x else Mod(x - h, h)
  }

  /** Div and Mod are the machine's `/` and `%` on non-negative operands. */
  lemma {:induction false} DivModAgree(x: nat, h: nat)
    requires h > 0
    ensures Div(x, h) == x / h && Mod(x, h) == x % h
  {
    if x < h {
      DivModUnique(x, h, 0, x);
    } else {
      DivModAgree(x - h, h);
      var q, r := Div(x - h, h), Mod(x - h, h);
      assert x - h == q * h + r;
      MulSucc(q, h);
      DivModUnique(x, h, q + 1, r);
    }
  }

  lemma DivModUnique(x: int, h: int, q: int, r: int)
    requires h > 0 && 0 <= r < h && x == q * h + r
    ensures x / h == q && x % h == r
  {
    var q', r' := x / h, x % h;
    assert x == q' * h + r' && 0 <= r' < h;
    var d := q - q';
    assert d * h == q * h - q' * h by {
      MulSub(q, q', h);
    }
    assert d * h == r' - r;
    if d > 0 {
      MulAtLeast(d, h);
    } else if d < 0 {
      MulAtLeast(-d, h);
    }
  }

  lemma MulSucc(q: int, h: int)
    ensures (q + 1) * h == q * h + h
  {
  }

  lemma MulSub(a: int, b: int, h: int)
    ensures (a - b) * h == a * h - b * h
  {
  }

  lemma MulAtLeast(d: int, h: int)
    requires d >= 1 && h > 0
    ensures d * h >= h
  {
    assert d * h == (d - 1) * h + h;
    assert (d - 1) * h >= 0;
  }

  /** One more entry adds a whole vertex exactly when the last one completes it. */
  lemma {:induction false} DivSucc(x: nat, h: nat)
    requires h > 0
    ensures Div(x + 1, h) == Div(x, h) + (if Mod(x, h) == h - 1 then 1 else 0)
  {
    if x >= h {
      DivSucc(x - h, h);
    }
  }

  /** Below a whole number of vertices, the completed-vertex count stays below the total. */
  lemma {:induction false} DivBelowWhole(x: nat, n: nat, h: nat)
    requires h > 0 && x < n && Mod(n, h) == 0
    ensures Div(x, h) < Div(n, h)
  {
    if x >= h {
      DivBelowWhole(x - h, n - h, h);
    }
  }

  /** The vertex counter never runs ahead of the data read so far. */
  lemma {:induction false} VertexNumBound(cells: seq<Value>, h: nat, j: nat)
    requires 0 < h <= j <= |cells|
    ensures VertexNum(cells, h, j) <= Div(j - h, h)
  {
    if j > h {
      VertexNumBound(cells, h, j - 1);
      DivSucc(j - 1 - h, h);
      assert Mod(j - 1, h) == Mod(j - 1 - h, h);
    }
  }

  /** Every data write lands inside the resized arrays. */
  lemma VertexNumInRange(cells: seq<Value>, h: nat, j: nat)
    requires 0 < h <= j < |cells| && Mod(|cells| - h, h) == 0
    ensures VertexNum(cells, h, j) < TotalVertices(cells, h)
  {
    VertexNumBound(cells, h, j);
    DivBelowWhole(j - h, |cells| - h, h);
  }

  /** A natural number is its quotient times the divisor plus its remainder. */
  lemma {:induction false} DivModRecompose(x: nat, h: nat)
    requires h > 0
    ensures x == Div(x, h) * h + Mod(x, h)
  {
    if x >= h {
      DivModRecompose(x - h, h);
      MulSucc(Div(x - h, h), h);
    }
  }

  /** Within one quotient, the remainder orders the numbers. */
  lemma DivModOrder(x: nat, y: nat, h: nat)
    requires h > 0 && Div(x, h) == Div(y, h)
    ensures Mod(x, h) < Mod(y, h) ==> x < y
    ensures Mod(x, h) == Mod(y, h) ==> x == y
  {
    DivModRecompose(x, h);
    DivModRecompose(y, h);
  }

  // ---------------------------------------------------------------------------
  // The header buffers

  /** The `indices` buffer after the first m header entries. */
  function Indices(cells: seq<Value>, m: nat): (r: seq<int>)
    requires m <= |cells|
    ensures |r| == MAX_COMPONENT_COUNT
  {
    seq(MAX_COMPONENT_COUNT, a => if a < ATTRIBUTE_COUNT then LastTag(cells, a, m) else -1)
  }

  /** The `reverse` buffer after the first m header entries. */
  function Reverse(cells: seq<Value>, m: nat): (r: seq<int>)
    requires m <= |cells|
    ensures |r| == MAX_COMPONENT_COUNT
  {
    seq(MAX_COMPONENT_COUNT, p => if 0 <= p < m && cells[p].Int? then cells[p].n else -1)
  }

  /** A known tag k at header position i records `indices[k] = i` and `reverse[i] = k`. */
  lemma RecordTag(cells: seq<Value>, i: nat, k: int)
    requires i < |cells| && i <= HeaderEnd(cells) && i <= FirstBadTag(cells) && i < MAX_COMPONENT_COUNT
    requires cells[i].Int? && cells[i].n == k && KnownTag(k)
    ensures i < HeaderEnd(cells) && i < FirstBadTag(cells)
    ensures Indices(cells, i + 1) == Indices(cells, i)[k := i]
    ensures Reverse(cells, i + 1) == Reverse(cells, i)[i := k]
  {
    assert i != HeaderEnd(cells);
    assert i != FirstBadTag(cells);
    var before, after := Indices(cells, i), Indices(cells, i + 1);
    forall a | 0 <= a < MAX_COMPONENT_COUNT
      ensures after[a] == before[k := i][a]
    {
      if a < ATTRIBUTE_COUNT && a != k {
        assert !IsTagAt(cells, i, a);
      }
    }
  }

  /** A null or undefined header entry keeps its position but records nothing. */
  lemma SkipEntry(cells: seq<Value>, i: nat)
    requires i < |cells| && i <= HeaderEnd(cells) && i <= FirstBadTag(cells)
    requires cells[i].IsNullOrUndefined()
    ensures i < HeaderEnd(cells) && i < FirstBadTag(cells)
    ensures Indices(cells, i + 1) == Indices(cells, i)
    ensures Reverse(cells, i + 1) == Reverse(cells, i)
  {
    assert i != HeaderEnd(cells);
    assert i != FirstBadTag(cells);
    var before, after := Indices(cells, i), Indices(cells, i + 1);
    forall a | 0 <= a < MAX_COMPONENT_COUNT
      ensures after[a] == before[a]
    {
      if a < ATTRIBUTE_COUNT {
        assert !IsTagAt(cells, i, a);
      }
    }
  }

  /**
   * Distributing data entry j: a null or undefined entry changes nothing; any
   * other entry's first Width(a) components go to its attribute a at the
   * current vertex, and the vertex counter advances after the last component.
   */
  lemma DataStep(cells: seq<Value>, h: nat, j: nat)
    requires DataShape(cells, h) && h <= j < |cells|
    ensures Mod(j, h) < MAX_COMPONENT_COUNT && Reverse(cells, h)[Mod(j, h)] == ReverseAt(cells, Mod(j, h))
    ensures VertexNum(cells, h, j + 1) ==
              VertexNum(cells, h, j) + (if !cells[j].IsNullOrUndefined() && Mod(j, h) == h - 1 then 1 else 0)
    ensures cells[j].IsNullOrUndefined() ==> Filled(cells, h, j + 1) == Filled(cells, h, j)
    ensures !cells[j].IsNullOrUndefined() ==>
              var a, prev := ReverseAt(cells, Mod(j, h)), Filled(cells, h, j);
              if 0 <= a < ATTRIBUTE_COUNT then
                && VertexNum(cells, h, j) < |prev[a]|
                && Width(a) <= |cells[j].comps|
                && Filled(cells, h, j + 1) == prev[a := prev[a][VertexNum(cells, h, j) := cells[j].comps[..Width(a)]]]
              else Filled(cells, h, j + 1) == prev
  {
    var a := ReverseAt(cells, Mod(j, h));
    if !cells[j].IsNullOrUndefined() && 0 <= a < ATTRIBUTE_COUNT {
      assert FitsAttribute(cells, h, j);
      VertexNumInRange(cells, h, j);
      assert Declared(cells, a) by {
        assert IsTagAt(cells, Mod(j, h), a);
      }
    }
  }

  /** The attribute arrays right after the header, as the buffers describe them. */
  function ResizeDeclared(indices: seq<int>, totalVertices: nat): (r: Attribs)
    requires |indices| == MAX_COMPONENT_COUNT
    ensures |r| == ATTRIBUTE_COUNT
  {
    seq(ATTRIBUTE_COUNT, a requires 0 <= a < ATTRIBUTE_COUNT => if indices[a] != -1 then seq(totalVertices, _ => Zero(a)) else [])
  }

  /**
   * The first entry that is neither null, undefined nor an int, reached with
   * every earlier tag known, ends a valid header: the declared arrays are
   * resized to `(inputLength - i) / i` vertices.
   */
  lemma EndOfHeader(cells: seq<Value>, i: nat)
    requires WellFormed(Arr(cells)) && i < |cells| && i <= HeaderEnd(cells) && i <= FirstBadTag(cells)
    requires !cells[i].IsNullOrUndefined() && !cells[i].Int?
    ensures i == HeaderEnd(cells) && DataShape(cells, i)
    ensures VertexNum(cells, i, i) == 0
  {
  }

  /** The arrays the buffers resize at the end of the header are where distribution starts. */
  lemma ResizedAtStart(cells: seq<Value>, h: nat, buffer: seq<int>, t: nat)
    requires DataShape(cells, h) && buffer == Indices(cells, h) && t == Div(|cells| - h, h)
    ensures ResizeDeclared(buffer, t) == Filled(cells, h, h)
  {
    var r, f := ResizeDeclared(buffer, t), Filled(cells, h, h);
    forall a | 0 <= a < ATTRIBUTE_COUNT
      ensures r[a] == f[a]
    {
    }
  }

  /** Before any entry is read both buffers hold -1 everywhere. */
  lemma StartOfPass(cells: seq<Value>)
    ensures Indices(cells, 0) == seq(MAX_COMPONENT_COUNT, _ => -1)
    ensures Reverse(cells, 0) == seq(MAX_COMPONENT_COUNT, _ => -1)
  {
  }

  /** An unknown tag met while every earlier tag was known fails the parse. */
  lemma UnknownTagFails(cells: seq<Value>, i: nat)
    requires WellFormed(Arr(cells)) && i < |cells| && i <= HeaderEnd(cells) && i <= FirstBadTag(cells)
    requires cells[i].Int? && !KnownTag(cells[i].n)
    ensures Parse(Arr(cells)) == None
  {
  }

  /** A pass that ends inside the header: only tags, so every array stays empty. */
  lemma TagsOnly(cells: seq<Value>)
    requires WellFormed(Arr(cells)) && |cells| <= HeaderEnd(cells) && |cells| <= FirstBadTag(cells)
    ensures Parse(Arr(cells)) == Some(seq(ATTRIBUTE_COUNT, _ => []))
  {
  }

  /** A pass that reaches the data distributes all of it. */
  lemma WholePass(cells: seq<Value>)
    requires DataShape(cells, HeaderEnd(cells))
    ensures Parse(Arr(cells)) == Some(Filled(cells, HeaderEnd(cells), |cells|))
  {
  }

  // ---------------------------------------------------------------------------
  // What the parse produces

  /** Parsing fails exactly for a non-array or a header holding an unknown tag. */
  lemma ParseFailsExactly(input: Value)
    requires WellFormed(input)
    ensures Parse(input) == None <==>
              || !input.Arr?
              || exists p :: 0 <= p < HeaderEnd(input.elems) && input.elems[p].Int? && !KnownTag(input.elems[p].n)
  {
    if input.Arr? {
      var cells := input.elems;
      if FirstBadTag(cells) < HeaderEnd(cells) {
        var b := FirstBadTag(cells);
        assert cells[b].Int? && !KnownTag(cells[b].n);
      }
    }
  }

  /** An input made only of known tags, nulls and undefineds gives every array empty. */
  lemma OnlyTags(cells: seq<Value>)
    requires WellFormed(Arr(cells))
    requires forall p :: 0 <= p < |cells| ==> cells[p].IsNullOrUndefined() || (cells[p].Int? && KnownTag(cells[p].n))
    ensures Parse(Arr(cells)) == Some(seq(ATTRIBUTE_COUNT, _ => []))
  {
    assert HeaderEnd(cells) == |cells|;
    assert HeaderValid(cells);
  }

  /**
   * Once the data starts, every declared attribute holds `(inputLength - h) / h`
   * vectors and every undeclared one none.
   */
  lemma Sizing(cells: seq<Value>, a: int)
    requires WellFormed(Arr(cells)) && HeaderValid(cells) && HeaderEnd(cells) < |cells|
    requires 0 <= a < ATTRIBUTE_COUNT
    ensures var h := HeaderEnd(cells);
            && Parse(Arr(cells)).Some?
            && |Parse(Arr(cells)).value[a]| == if LastTag(cells, a, h) >= 0 then (|cells| - h) / h else 0
  {
    var h := HeaderEnd(cells);
    DivModAgree(|cells| - h, h);
  }

  /** No data entry is null or undefined. */
  predicate Dense(cells: seq<Value>, h: nat)
  {
    forall j :: h <= j < |cells| ==> !cells[j].IsNullOrUndefined()
  }

  /** With dense data the vertex counter is the number of whole vertices read. */
  lemma {:induction false} DenseVertexNum(cells: seq<Value>, h: nat, j: nat)
    requires 0 < h <= j <= |cells| && Dense(cells, h)
    ensures VertexNum(cells, h, j) == Div(j - h, h)
  {
    if j > h {
      DenseVertexNum(cells, h, j - 1);
      DivSucc(j - 1 - h, h);
      assert Mod(j - 1, h) == Mod(j - 1 - h, h);
    }
  }

  /** Entry k lands at its own last-tag position. */
  lemma LandedHere(cells: seq<Value>, h: nat, k: nat, a: int)
    requires DataShape(cells, h) && Dense(cells, h) && h <= k < |cells| && 0 <= a < ATTRIBUTE_COUNT
    requires Mod(k - h, h) == LastTag(cells, a, h) && Div(k - h, h) < TotalVertices(cells, h)
    ensures Width(a) <= |cells[k].comps| && Filled(cells, h, k + 1)[a][Div(k - h, h)] == cells[k].comps[..Width(a)]
  {
    DataStep(cells, h, k);
    DenseVertexNum(cells, h, k);
    assert Mod(k, h) == Mod(k - h, h);
    assert IsTagAt(cells, Mod(k - h, h), a);
  }

  /** Entry k leaves alone what an earlier entry j stored at its last-tag position. */
  lemma LandedKept(cells: seq<Value>, h: nat, k: nat, j: nat, a: int)
    requires DataShape(cells, h) && Dense(cells, h) && h <= j < k < |cells| && 0 <= a < ATTRIBUTE_COUNT
    requires Mod(j - h, h) == LastTag(cells, a, h) && Div(j - h, h) < TotalVertices(cells, h)
    ensures Filled(cells, h, k + 1)[a][Div(j - h, h)] == Filled(cells, h, k)[a][Div(j - h, h)]
  {
    DataStep(cells, h, k);
    DenseVertexNum(cells, h, k);
    var p0 := Mod(k - h, h);
    assert Mod(k, h) == p0;
    if ReverseAt(cells, p0) == a && Div(k - h, h) == Div(j - h, h) {
      assert IsTagAt(cells, p0, a);
      DivModOrder(k - h, j - h, h);
    }
  }

  /** After the first k entries, entry j < k is still where it landed. */
  lemma {:induction false} LandedAt(cells: seq<Value>, h: nat, k: nat, j: nat, a: int)
    requires DataShape(cells, h) && Dense(cells, h) && h <= j < k <= |cells| && 0 <= a < ATTRIBUTE_COUNT
    requires Mod(j - h, h) == LastTag(cells, a, h) && Div(j - h, h) < TotalVertices(cells, h)
    ensures Width(a) <= |cells[j].comps| && Filled(cells, h, k)[a][Div(j - h, h)] == cells[j].comps[..Width(a)]
  {
    if k == j + 1 {
      LandedHere(cells, h, j, a);
    } else {
      LandedAt(cells, h, k - 1, j, a);
      LandedKept(cells, h, k - 1, j, a);
    }
  }

  /**
   * The interleaved layout: with no null data, data entry j lands in vertex
   * (j - h) / h, and its first Width(a) components are the value of
   * attribute a there when its component
   * position (j - h) % h is the last header position tagged a (a later tag
   * for the same attribute overwrites an earlier one).
   */
  lemma DenseLayout(cells: seq<Value>, j: nat, a: int)
    requires WellFormed(Arr(cells)) && HeaderValid(cells)
    requires HeaderEnd(cells) <= j < |cells| && Dense(cells, HeaderEnd(cells))
    requires 0 <= a < ATTRIBUTE_COUNT && Mod(j - HeaderEnd(cells), HeaderEnd(cells)) == LastTag(cells, a, HeaderEnd(cells))
    ensures var h, r := HeaderEnd(cells), Parse(Arr(cells));
            && r.Some?
            && Div(j - h, h) < |r.value[a]|
            && Width(a) <= |cells[j].comps|
            && r.value[a][Div(j - h, h)] == cells[j].comps[..Width(a)]
  {
    var h := HeaderEnd(cells);
    assert DataShape(cells, h);
    VertexNumInRange(cells, h, j);
    DenseVertexNum(cells, h, j);
    LandedAt(cells, h, |cells|, j, a);
  }

  // ---------------------------------------------------------------------------
  // The parser itself

  /**
   * The source's single pass: header tags fill `indices`/`reverse`; the first
   * data entry fixes the component count and resizes the declared arrays;
   * every data entry is written to its attribute at the current vertex.
   */
  method ParseVertexAttribs(val: Value) returns (r: Option<Attribs>)
    requires WellFormed(val)
    ensures r == Parse(val)
  {
    if !val.Arr? {
      return None;
    }
    var input := val.elems;
    var inputLength := |input|;
    ghost var h := HeaderEnd(input);
    var attribs: Attribs := seq(ATTRIBUTE_COUNT, _ => []);
    var metadataPhase := true;
    var vertexComponents := 0;
    var indices, reverse := NewBuffers();
    var lastVertexIdx := -1;
    var vertexNum := 0;
    var totalVertices: int := -1;
    var i := 0;
    ghost var seen: nat := 0;
    StartOfPass(input);
    while i < inputLength
      invariant 0 <= i <= inputLength
      invariant metadataPhase <==> i <= h
      invariant metadataPhase ==> seen == i && vertexNum == 0 && attribs == seq(ATTRIBUTE_COUNT, _ => [])
      invariant seen <= h && seen <= FirstBadTag(input)
      invariant indices[..] == Indices(input, seen)
      invariant reverse[..] == Reverse(input, seen)
      invariant !metadataPhase ==>
                  && seen == h
                  && DataShape(input, h)
                  && vertexComponents == h && lastVertexIdx == h - 1
                  && totalVertices == TotalVertices(input, h)
                  && vertexNum == VertexNum(input, h, i)
                  && attribs == Filled(input, h, i)
    {
      var cell := input[i];
      if cell.IsNullOrUndefined() {
        if metadataPhase {
          SkipEntry(input, i);
          seen := i + 1;
        } else {
          DataStep(input, h, i);
        }
        i := i + 1;
        continue;
      }
      if metadataPhase && cell.Int? {
        var k := cell.n;
        if !KnownTag(k) {
          UnknownTagFails(input, i);
          return None;
        }
        RecordTag(input, i, k);
        Record(indices, reverse, i, k);
        seen := i + 1;
        i := i + 1;
        continue;
      } else if metadataPhase {
        EndOfHeader(input, i);
        metadataPhase := false;
        lastVertexIdx, vertexComponents, totalVertices, attribs := EndHeader(input, h, indices, inputLength, i);
      }
      attribs, vertexNum := StoreEntry(input, h, i, reverse, vertexComponents, lastVertexIdx, attribs, vertexNum);
      i := i + 1;
    }
    if metadataPhase {
      TagsOnly(input);
    } else {
      WholePass(input);
    }
    return Some(attribs);
  }

  /**
   * One data entry: it goes to attribute `reverse[i % vertexComponents]` at
   * vertex `vertexNum`, and `vertexNum` advances after the last component.
   */
  method StoreEntry(input: seq<Value>, ghost h: nat, i: nat, reverse: array<int>,
                    vertexComponents: int, lastVertexIdx: int, attribs: Attribs, vertexNum: nat)
    returns (attribs': Attribs, vertexNum': nat)
    requires DataShape(input, h) && h <= i < |input| && !input[i].IsNullOrUndefined()
    requires reverse[..] == Reverse(input, h)
    requires vertexComponents == h && lastVertexIdx == h - 1
    requires attribs == Filled(input, h, i) && vertexNum == VertexNum(input, h, i)
    ensures attribs' == Filled(input, h, i + 1) && vertexNum' == VertexNum(input, h, i + 1)
  {
    DataStep(input, h, i);
    DivModAgree(i, h);
    attribs', vertexNum' := attribs, vertexNum;
    var idx := reverse[i % vertexComponents];
    if 0 <= idx < ATTRIBUTE_COUNT {
      attribs' := attribs[idx := attribs[idx][vertexNum := input[i].comps[..Width(idx)]]];
    }
    if i % vertexComponents == lastVertexIdx {
      vertexNum' := vertexNum + 1;
    }
  }

  /**
   * The end of the header at entry i: i components per vertex, the last one
   * at i - 1, `(inputLength - i) / i` whole vertices, and every declared
   * attribute array resized to that many default vectors.
   */
  method EndHeader(ghost input: seq<Value>, ghost h: nat, indices: array<int>, inputLength: nat, i: nat)
    returns (lastVertexIdx: int, vertexComponents: int, totalVertices: nat, attribs: Attribs)
    requires DataShape(input, h) && i == h && inputLength == |input|
    requires indices[..] == Indices(input, h)
    ensures lastVertexIdx == h - 1 && vertexComponents == h
    ensures totalVertices == TotalVertices(input, h) && attribs == Filled(input, h, h)
  {
    lastVertexIdx := i - 1;
    vertexComponents := i;
    DivModAgree(inputLength - i, i);
    totalVertices := (inputLength - i) / i;
    attribs := ResizeDeclared(indices[..], totalVertices);
    ResizedAtStart(input, h, indices[..], totalVertices);
  }

  /** The two ten-slot buffers, every slot set to -1. */
  method NewBuffers() returns (indices: array<int>, reverse: array<int>)
    ensures fresh(indices) && fresh(reverse) && indices != reverse
    ensures indices[..] == seq(MAX_COMPONENT_COUNT, _ => -1)
    ensures reverse[..] == seq(MAX_COMPONENT_COUNT, _ => -1)
  {
    indices := new int[MAX_COMPONENT_COUNT];
    reverse := new int[MAX_COMPONENT_COUNT];
    for i := 0 to MAX_COMPONENT_COUNT
      invariant forall k :: 0 <= k < i ==> indices[k] == -1 && reverse[k] == -1
    {
      indices[i] := -1;
      reverse[i] := -1;
    }
  }

  /** `reverse[i] = k; indices[k] = i;` */
  method Record(indices: array<int>, reverse: array<int>, i: nat, k: nat)
    requires indices != reverse && i < reverse.Length && k < indices.Length
    modifies indices, reverse
    ensures indices[..] == old(indices[..])[k := i]
    ensures reverse[..] == old(reverse[..])[i := k]
  {
    reverse[i] := k;
    indices[k] := i;
  }
}
