/**
 * The integer core of the software triangle rasterizer: the 12.4 fixed-point
 * bounding box, the fill-rule edge biases and the `orient2d` coverage test,
 * texture coordinate wrapping, the 8x8 tile swizzle and texel fetch, the
 * texture environment (TEV) combiner stages, and the colour and depth buffer
 * writes.
 *
 * Vertex positions arrive already converted to 12.4 fixed point.  Everything
 * computed in floating point (perspective-correct interpolation of colour,
 * texture coordinates and depth) is a parameter `interp` from the three
 * barycentric weights of a sample to its interpolated attributes.
 */
module Rasterizer {

  type u8 = x: int | 0 <= x < 0x100
  type u16 = x: int | 0 <= x < 0x1_0000
  type u32 = x: int | 0 <= x < 0x1_0000_0000
  type i32 = x: int | -0x8000_0000 <= x < 0x8000_0000

  datatype Option<T> = None | Some(value: T)

  /** A position in 12.4 fixed point: the low four bits are the fraction of a pixel. */
  datatype Point = Point(x: u16, y: u16)

  // ---------------------------------------------------------------------
  // Bounding box
  // ---------------------------------------------------------------------

  function Min3(a: u16, b: u16, c: u16): (m: u16)
    ensures m <= a && m <= b && m <= c
    ensures m == a || m == b || m == c
  {
    if a <= b && a <= c then a else if b <= c then b else c
  }

  function Max3(a: u16, b: u16, c: u16): (m: u16)
    ensures m >= a && m >= b && m >= c
    ensures m == a || m == b || m == c
  {
    if a >= b && a >= c then a else if b >= c then b else c
  }

  /**
   * `v & IntMask()` for a value of at most 17 bits: the mask 0xFFF0 keeps
   * bits 4 to 15, so the fraction and any carry out of 16 bits are dropped.
   */
  function MaskInt(v: int): (r: u16)
    requires 0 <= v < 0x2_0000
    ensures r % 16 == 0 && r <= 0xFFF0
    ensures v < 0x1_0000 ==> r <= v < r + 16
    ensures v >= 0x1_0000 ==> r <= v - 0x1_0000 < r + 16
  {
    (v % 0x1_0000) / 16 * 16
  }

  datatype Box = Box(minX: u16, minY: u16, maxX: u16, maxY: u16)

  /** The rasterizer bounding box: minima rounded down, maxima rounded up to whole pixels. */
  function BoundingBox(v0: Point, v1: Point, v2: Point): Box
  {
    Box(MaskInt(Min3(v0.x, v1.x, v2.x)),
        MaskInt(Min3(v0.y, v1.y, v2.y)),
        MaskInt(Max3(v0.x, v1.x, v2.x) + 0xF),
        MaskInt(Max3(v0.y, v1.y, v2.y) + 0xF))
  }

  /**
   * The box corners lie on pixel boundaries; the minima are at most one
   * pixel below the smallest coordinate; without 16-bit overflow the
   * maxima enclose every vertex and exceed the largest coordinate by less
   * than one pixel, while with overflow the maximum wraps to 0.
   */
  lemma BoundingBoxEncloses(v0: Point, v1: Point, v2: Point)
    ensures var b := BoundingBox(v0, v1, v2);
      && b.minX % 16 == 0 && b.minY % 16 == 0 && b.maxX % 16 == 0 && b.maxY % 16 == 0
      && b.minX <= v0.x && b.minX <= v1.x && b.minX <= v2.x
      && b.minY <= v0.y && b.minY <= v1.y && b.minY <= v2.y
      && Min3(v0.x, v1.x, v2.x) - b.minX < 16 && Min3(v0.y, v1.y, v2.y) - b.minY < 16
    ensures var b := BoundingBox(v0, v1, v2); var mx := Max3(v0.x, v1.x, v2.x);
      if mx <= 0xFFF0 then v0.x <= b.maxX && v1.x <= b.maxX && v2.x <= b.maxX && b.maxX - mx < 16
      else b.maxX == 0
    ensures var b := BoundingBox(v0, v1, v2); var my := Max3(v0.y, v1.y, v2.y);
      if my <= 0xFFF0 then v0.y <= b.maxY && v1.y <= b.maxY && v2.y <= b.maxY && b.maxY - my < 16
      else b.maxY == 0
  {
  }

  /** The sample coordinates one loop axis visits: `lo`, `lo + 16`, ... below `hi`. */
  function Samples(lo: int, hi: int): seq<int>
    decreases hi - lo
  {
    if lo >= hi then [] else [lo] + Samples(lo + 16, hi)
  }

  /** A coordinate is visited exactly when it is `lo + 16k` and below `hi`. */
  lemma {:induction false} SamplesExactly(lo: int, hi: int, c: int)
    ensures c in Samples(lo, hi) <==> lo <= c < hi && (c - lo) % 16 == 0
    decreases hi - lo
  {
    if lo < hi {
      SamplesExactly(lo + 16, hi, c);
      assert Samples(lo, hi) == [lo] + Samples(lo + 16, hi);
      if c != lo && lo <= c && (c - lo) % 16 == 0 {
        assert (c - (lo + 16)) % 16 == 0;
      }
      if lo + 16 <= c && (c - (lo + 16)) % 16 == 0 {
        assert (c - lo) % 16 == 0;
      }
    }
  }

  /** The visited coordinates increase strictly, one pixel apart. */
  lemma {:induction false} SamplesAscend(lo: int, hi: int, i: nat)
    requires i + 1 < |Samples(lo, hi)|
    ensures Samples(lo, hi)[i + 1] == Samples(lo, hi)[i] + 16
    ensures Samples(lo, hi)[i] == lo + 16 * i
    decreases hi - lo
  {
    if i > 0 {
      SamplesAscend(lo + 16, hi, i - 1);
    } else if lo + 16 < hi {
      assert Samples(lo + 16, hi)[0] == lo + 16;
    }
  }

  // ---------------------------------------------------------------------
  // Fill-rule edge biases and coverage
  // ---------------------------------------------------------------------

  function Abs(n: int): nat { if n < 0 then -n else n }

  /** Integer division as C computes it: the quotient is truncated toward zero. */
  function CDiv(n: int, d: int): int
    requires d != 0
  {
    if (n < 0) == (d < 0) then Abs(n) / Abs(d) else -(Abs(n) / Abs(d))
  }

  /** Multiplying the truncated quotient back by the divisor gives back all of `n` but its remainder. */
  lemma CDivTimesDivisor(n: int, d: int)
    requires d != 0
    ensures CDiv(n, d) * d == if n < 0 then -(Abs(n) - Abs(n) % Abs(d)) else Abs(n) - Abs(n) % Abs(d)
  {
    var a: int, b: int := Abs(n), Abs(d);
    var q: int := a / b;
    assert q * b == a - a % b;
    if d > 0 {
      assert CDiv(n, d) * d == (if n < 0 then -q else q) * b;
    } else {
      assert CDiv(n, d) * d == (if n < 0 then q else -q) * -b;
    }
  }

  /** The remainder left by truncating division is smaller than the divisor and has the dividend's sign. */
  lemma CDivRemainder(n: int, d: int)
    requires d != 0
    ensures var r := n - CDiv(n, d) * d;
      Abs(r) < Abs(d) && (n >= 0 ==> r >= 0) && (n <= 0 ==> r <= 0)
  {
    CDivTimesDivisor(n, d);
    assert 0 <= Abs(n) % Abs(d) < Abs(d);
  }

  /** Twice the signed area of the triangle (a, b, c): the z part of the cross product of b - a and c - a. */
  function Orient2d(a: Point, b: Point, c: Point): int
  {
    (b.x - a.x) * (c.y - a.y) - (b.y - a.y) * (c.x - a.x)
  }

  /**
   * Whether the edge from `line1` to `line2` is a right-side or flat bottom
   * edge as seen from the opposite vertex `vtx`.
   */
  predicate IsRightSideOrFlatBottomEdge(vtx: Point, line1: Point, line2: Point)
  {
    if line1.y == line2.y then
      vtx.y < line1.y
    else
      vtx.x < line1.x + CDiv((line2.x - line1.x) * (vtx.y - line1.y), line2.y - line1.y)
  }

  function EdgeBias(vtx: Point, line1: Point, line2: Point): (b: int)
    ensures b == -1 || b == 0
  {
    if IsRightSideOrFlatBottomEdge(vtx, line1, line2) then -1 else 0
  }

  lemma MulMonotone(c: int, a: int, b: int)
    requires c >= 0 && a <= b
    ensures c * a <= c * b
  {
  }

  lemma MulStep(c: int, a: int, b: int)
    requires c >= 0 && a < b
    ensures c * a + c <= c * b
  {
    MulMonotone(c, a + 1, b);
  }

  /**
   * The comparison `a < q` against a truncated quotient `q` of `num` by
   * `dy`, decided by the products `da = dy * a` and `dq = dy * q`: the
   * facts about the products are taken as given, so the reasoning is linear.
   */
  lemma QuotientComparison(num: int, dy: int, a: int, q: int, r: int, da: int, dq: int)
    requires dy != 0 && num == dq + r && Abs(r) < Abs(dy)
    requires num >= 0 ==> r >= 0
    requires num <= 0 ==> r <= 0
    requires dy > 0 ==> (a >= q ==> dq <= da) && (a < q ==> da + dy <= dq)
    requires dy < 0 ==> (a >= q ==> da <= dq) && (a < q ==> dq <= da + dy)
    ensures dy > 0 && num - da >= dy ==> a < q
    ensures dy > 0 && num - da <= 0 ==> a >= q
    ensures dy < 0 && num - da <= dy ==> a < q
    ensures dy < 0 && num - da >= 0 ==> a >= q
  {
  }

  /** The facts `QuotientComparison` needs about `dy * a` and `dy * q`. */
  lemma ProductOrder(dy: int, a: int, q: int)
    requires dy != 0
    ensures dy > 0 ==> (a >= q ==> dy * q <= dy * a) && (a < q ==> dy * a + dy <= dy * q)
    ensures dy < 0 ==> (a >= q ==> dy * a <= dy * q) && (a < q ==> dy * q <= dy * a + dy)
  {
    if dy > 0 {
      if a >= q { MulMonotone(dy, q, a); } else { MulStep(dy, a, q); }
    } else {
      if a >= q {
        MulMonotone(-dy, q, a);
        assert (-dy) * q == -(dy * q) && (-dy) * a == -(dy * a);
      } else {
        MulStep(-dy, a, q);
        assert (-dy) * q == -(dy * q) && (-dy) * a == -(dy * a);
      }
    }
  }

  /**
   * The geometric meaning of the bias of a slanted edge: writing `o` for
   * `Orient2d(line1, line2, vtx)`, the bias is -1 when the opposite vertex
   * lies at least one unit (1/16 pixel) to the left of the edge, and 0 when
   * it lies on the edge or to its right, "left" being taken along the
   * direction of the edge (`dy` is its signed height).  Between those,
   * truncating division decides.
   */
  lemma EdgeBiasGeometry(vtx: Point, line1: Point, line2: Point)
    requires line1.y != line2.y
    ensures var dy := line2.y - line1.y; var o := Orient2d(line1, line2, vtx);
      && (dy > 0 && o >= dy ==> EdgeBias(vtx, line1, line2) == -1)
      && (dy > 0 && o <= 0 ==> EdgeBias(vtx, line1, line2) == 0)
      && (dy < 0 && o <= dy ==> EdgeBias(vtx, line1, line2) == -1)
      && (dy < 0 && o >= 0 ==> EdgeBias(vtx, line1, line2) == 0)
  {
    var dy := line2.y - line1.y;
    var num := (line2.x - line1.x) * (vtx.y - line1.y);
    var a := vtx.x - line1.x;
    var q := CDiv(num, dy);
    var da, dq := dy * a, dy * q;
    var r := num - dq;
    assert Abs(r) < Abs(dy) && (num >= 0 ==> r >= 0) && (num <= 0 ==> r <= 0) by {
      CDivRemainder(num, dy);
      assert q * dy == dq;
    }
    assert && (dy > 0 ==> (a >= q ==> dq <= da) && (a < q ==> da + dy <= dq))
           && (dy < 0 ==> (a >= q ==> da <= dq) && (a < q ==> dq <= da + dy)) by {
      ProductOrder(dy, a, q);
    }
    QuotientComparison(num, dy, a, q, r, da, dq);
    assert Orient2d(line1, line2, vtx) == num - da;
  }

  /** The biased barycentric weights of a sample point. */
  datatype Weights = Weights(w0: int, w1: int, w2: int)

  function SampleWeights(v0: Point, v1: Point, v2: Point, p: Point): Weights
  {
    Weights(EdgeBias(v0, v1, v2) + Orient2d(v1, v2, p),
            EdgeBias(v1, v2, v0) + Orient2d(v2, v0, p),
            EdgeBias(v2, v0, v1) + Orient2d(v0, v1, p))
  }

  predicate Covered(v0: Point, v1: Point, v2: Point, p: Point)
  {
    var w := SampleWeights(v0, v1, v2, p);
    w.w0 >= 0 && w.w1 >= 0 && w.w2 >= 0
  }

  /** An edge accepts a sample strictly inside it, and one exactly on it unless the edge is biased. */
  predicate EdgeAccepts(raw: int, bias: int)
  {
    raw > 0 || (raw == 0 && bias == 0)
  }

  /**
   * A sample is drawn exactly when every edge accepts it: on an edge
   * (unbiased weight 0) it is rejected when that edge's bias is -1.
   */
  lemma CoverageByEdges(v0: Point, v1: Point, v2: Point, p: Point)
    ensures Covered(v0, v1, v2, p) <==>
      && EdgeAccepts(Orient2d(v1, v2, p), EdgeBias(v0, v1, v2))
      && EdgeAccepts(Orient2d(v2, v0, p), EdgeBias(v1, v2, v0))
      && EdgeAccepts(Orient2d(v0, v1, p), EdgeBias(v2, v0, v1))
  {
  }

  /** The three unbiased weights add up to twice the signed area of the triangle. */
  lemma WeightsSumToArea(v0: Point, v1: Point, v2: Point, p: Point)
    ensures Orient2d(v1, v2, p) + Orient2d(v2, v0, p) + Orient2d(v0, v1, p) == Orient2d(v0, v1, v2)
  {
  }

  // ---------------------------------------------------------------------
  // Texture coordinates
  // ---------------------------------------------------------------------

  datatype WrapMode = ClampToEdge | Repeat | OtherWrap(code: nat)

  /** The C conversion of an unsigned 32-bit value to `int`. */
  function ToInt32(x: u32): i32
  {
    if x < 0x8000_0000 then x else x - 0x1_0000_0000
  }

  /** The C conversion of an `int` to `unsigned`. */
  function ToUnsigned(x: i32): u32
  {
    x % 0x1_0000_0000
  }

  /**
   * `GetWrappedTexCoord`; `Repeat` divides by `size`, so the source needs it
   * to be nonzero there.  `ClampToEdge` compares with `(int)size - 1`, the
   * size reinterpreted as a signed 32-bit value.
   */
  function WrappedTexCoord(mode: WrapMode, val: i32, size: u32): (r: int)
    requires mode == Repeat ==> size > 0
    ensures mode.OtherWrap? ==> r == 0
  {
    match mode
    case ClampToEdge =>
      var lower := if val > 0 then val else 0;
      var upper := ToInt32(size) - 1;
      if lower < upper then lower else upper
    case Repeat =>
      ToInt32(ToUnsigned(val) % size)
    case OtherWrap(_) => 0
  }

  /**
   * For sizes an `int` can hold, clamping keeps a coordinate within
   * [0, size - 1] and leaves one already inside unchanged; on a size of 0 it
   * yields -1, and on a size of 2^31 or more, which `(int)size` turns
   * negative, it yields that negative value minus 1 whatever the coordinate.
   */
  lemma ClampToEdgeRange(val: i32, size: u32)
    ensures 0 < size < 0x8000_0000 ==>
      var r := WrappedTexCoord(ClampToEdge, val, size);
      && 0 <= r < size
      && (0 <= val < size ==> r == val)
      && (val < 0 ==> r == 0)
      && (val >= size ==> r == size - 1)
    ensures size == 0 ==> WrappedTexCoord(ClampToEdge, val, size) == -1
    ensures size >= 0x8000_0000 ==> WrappedTexCoord(ClampToEdge, val, size) == size - 0x1_0000_0001 < 0
  {
  }

  /**
   * Repeating lands within [0, size) (for sizes an `int` can hold) and is
   * the remainder modulo `size` for nonnegative coordinates; a negative
   * coordinate is first taken modulo 2^32.
   */
  lemma RepeatRange(val: i32, size: u32)
    requires size > 0
    ensures size <= 0x8000_0000 ==> 0 <= WrappedTexCoord(Repeat, val, size) < size
    ensures val >= 0 ==> WrappedTexCoord(Repeat, val, size) == val % size
    ensures val < 0 ==> WrappedTexCoord(Repeat, val, size) == ToInt32((val + 0x1_0000_0000) % size)
  {
    var u := ToUnsigned(val);
    var m := u % size;
    assert 0 <= m < size;
    if val >= 0 {
      assert u == val;
      var q := val / size;
      assert val == size * q + m;
      MulMonotone(size, 0, q);
      assert m <= val;
    } else {
      assert u == val + 0x1_0000_0000;
    }
  }

  /** Two examples: 13 repeats to 5 on a size of 8, but -1 repeats to 0 (not 2) on a size of 3. */
  lemma RepeatExamples()
    ensures WrappedTexCoord(Repeat, 13, 8) == 5
    ensures WrappedTexCoord(Repeat, -1, 8) == 7
    ensures WrappedTexCoord(Repeat, -1, 3) == 0 && -1 % 3 == 2
  {
  }

  function Pow2(k: nat): (p: nat)
    ensures p >= 1
  {
    if k == 0 then 1 else 2 * Pow2(k - 1)
  }

  /** `v & (1 << k)`: bit `k` of the two's complement representation of `v`, kept in place. */
  function AndBit(v: int, k: nat): int
  {
    (v / Pow2(k)) % 2 * Pow2(k)
  }

  lemma AndBitLow(v: int)
    ensures AndBit(v, 0) == v % 2
    ensures AndBit(v, 1) == 2 * ((v / 2) % 2)
    ensures AndBit(v, 2) == 4 * ((v / 4) % 2)
  {
    assert Pow2(1) == 2;
    assert Pow2(2) == 4;
  }

  /**
   * The position of texel (s, t) within its 8x8 tile: bit k of s goes to
   * bit 2k and bit k of t to bit 2k + 1, for k < 3.
   */
  function TexelIndexWithinTile(s: int, t: int): (r: int)
    ensures 0 <= r < 64
  {
    s % 2 + 2 * (t % 2) + 4 * ((s / 2) % 2) + 8 * ((t / 2) % 2) + 16 * ((s / 4) % 2) + 32 * ((t / 4) % 2)
  }

  /** What the tile-index loop has accumulated after its first `k` sub-tile levels. */
  function TileIndexUpTo(s: int, t: int, k: nat): int
  {
    if k == 0 then 0
    else TileIndexUpTo(s, t, k - 1) + AndBit(s, k - 1) * Pow2(k - 1) + 2 * (AndBit(t, k - 1) * Pow2(k - 1))
  }

  /** The loop that accumulates `texel_index_within_tile` over the three sub-tile levels. */
  method TileIndex(s: int, t: int) returns (index: int)
    ensures index == TexelIndexWithinTile(s, t)
  {
    index := 0;
    var level := 0;
    while level < 3
      invariant 0 <= level <= 3
      invariant index == TileIndexUpTo(s, t, level)
    {
      var subTileWidth := Pow2(level);
      var subTileIndex := AndBit(s, level) * subTileWidth;
      subTileIndex := subTileIndex + 2 * (AndBit(t, level) * subTileWidth);
      index := index + subTileIndex;
      level := level + 1;
    }
    AndBitLow(s);
    AndBitLow(t);
    assert Pow2(0) == 1 && Pow2(1) == 2 && Pow2(2) == 4;
    assert TileIndexUpTo(s, t, 1) == s % 2 + 2 * (t % 2);
    assert TileIndexUpTo(s, t, 2) == TileIndexUpTo(s, t, 1) + 4 * ((s / 2) % 2) + 8 * ((t / 2) % 2);
  }

  /** A texel's position within its 8x8 tile. */
  datatype InTile = InTile(s: int, t: int)

  /** The inverse of the swizzle: the coordinates within the tile of texel number `i`. */
  function TileCoords(i: int): InTile
  {
    // halve five times; the even-numbered bits make up s, the odd-numbered ones t
    var j1 := i / 2;
    var j2 := j1 / 2;
    var j3 := j2 / 2;
    var j4 := j3 / 2;
    var j5 := j4 / 2;
    InTile(i % 2 + 2 * (j2 % 2) + 4 * (j4 % 2), j1 % 2 + 2 * (j3 % 2) + 4 * (j5 % 2))
  }

  /** The three bits of a number below 8. */
  lemma SmallBits(m: int)
    requires 0 <= m < 8
    ensures m == m % 2 + 2 * ((m / 2) % 2) + 4 * (m / 4) && 0 <= m / 4 < 2
  {
  }

  /** Dividing `r + 4 * j` by 4, for `r` below 4. */
  lemma QuarterOf(v: int, r: int, j: int)
    requires 0 <= r < 4 && v == r + 4 * j
    ensures v / 4 == j
  {
  }

  /** The three low bits of `v`, read back from `v % 8`. */
  lemma LowBits(v: int)
    ensures v % 2 + 2 * ((v / 2) % 2) + 4 * ((v / 4) % 2) == v % 8
  {
    var q, m := v / 8, v % 8;
    assert v == 8 * q + m && 0 <= m < 8;
    SmallBits(m);
    var m0, m1, m2 := m % 2, (m / 2) % 2, m / 4;
    var j2 := m2 + 2 * q;
    var j1 := m1 + 2 * j2;
    HalfOf(v, m0, j1);
    HalfOf(j1, m1, j2);
    HalfOf(j2, m2, q);
    QuarterOf(v, m0 + 2 * m1, j2);
  }

  /** The bits of a number written from three bits. */
  lemma BitsOfThree(b0: int, b1: int, b2: int)
    requires 0 <= b0 < 2 && 0 <= b1 < 2 && 0 <= b2 < 2
    ensures var v := b0 + 2 * b1 + 4 * b2; v % 2 == b0 && (v / 2) % 2 == b1 && (v / 4) % 2 == b2
  {
  }

  /** Halving `b + 2 * j` for a bit `b`. */
  lemma HalfOf(v: int, b: int, j: int)
    requires 0 <= b < 2 && v == b + 2 * j
    ensures v % 2 == b && v / 2 == j
  {
  }

  /** `TileCoords` reads back the odd and the even bits of a six-bit number. */
  lemma CoordsOfBits(i: int, b0: int, b1: int, b2: int, b3: int, b4: int, b5: int, j1: int, j2: int, j3: int, j4: int)
    requires 0 <= b0 < 2 && 0 <= b1 < 2 && 0 <= b2 < 2 && 0 <= b3 < 2 && 0 <= b4 < 2 && 0 <= b5 < 2
    requires i == b0 + 2 * j1 && j1 == b1 + 2 * j2 && j2 == b2 + 2 * j3 && j3 == b3 + 2 * j4 && j4 == b4 + 2 * b5
    ensures TileCoords(i) == InTile(b0 + 2 * b2 + 4 * b4, b1 + 2 * b3 + 4 * b5)
  {
    HalfOf(i, b0, j1);
    HalfOf(j1, b1, j2);
    HalfOf(j2, b2, j3);
    HalfOf(j3, b3, j4);
    HalfOf(j4, b4, b5);
  }

  /** Interleaving two three-bit numbers, then reading back the even and the odd bits. */
  lemma InterleaveInverse(b0: int, b1: int, b2: int, b3: int, b4: int, b5: int)
    requires 0 <= b0 < 2 && 0 <= b1 < 2 && 0 <= b2 < 2 && 0 <= b3 < 2 && 0 <= b4 < 2 && 0 <= b5 < 2
    ensures TileCoords(b0 + 2 * b1 + 4 * b2 + 8 * b3 + 16 * b4 + 32 * b5) == InTile(b0 + 2 * b2 + 4 * b4, b1 + 2 * b3 + 4 * b5)
  {
    var j4 := b4 + 2 * b5;
    var j3 := b3 + 2 * j4;
    var j2 := b2 + 2 * j3;
    var j1 := b1 + 2 * j2;
    CoordsOfBits(b0 + 2 * j1, b0, b1, b2, b3, b4, b5, j1, j2, j3, j4);
  }

  /** The swizzle only looks at the texel's position within its tile, and is undone by `TileCoords`. */
  lemma TileIndexInvertible(s: int, t: int)
    ensures TileCoords(TexelIndexWithinTile(s, t)) == InTile(s % 8, t % 8)
  {
    var b0, b1, b2, b3, b4, b5 := s % 2, t % 2, (s / 2) % 2, (t / 2) % 2, (s / 4) % 2, (t / 4) % 2;
    var i := TexelIndexWithinTile(s, t);
    assert i == b0 + 2 * b1 + 4 * b2 + 8 * b3 + 16 * b4 + 32 * b5;
    InterleaveInverse(b0, b1, b2, b3, b4, b5);
    LowBits(s);
    LowBits(t);
  }

  /** Swizzling two three-bit coordinates interleaves their bits. */
  lemma SwizzleOfBits(b0: int, b1: int, b2: int, b3: int, b4: int, b5: int)
    requires 0 <= b0 < 2 && 0 <= b1 < 2 && 0 <= b2 < 2 && 0 <= b3 < 2 && 0 <= b4 < 2 && 0 <= b5 < 2
    ensures TexelIndexWithinTile(b0 + 2 * b2 + 4 * b4, b1 + 2 * b3 + 4 * b5)
         == b0 + 2 * b1 + 4 * b2 + 8 * b3 + 16 * b4 + 32 * b5
  {
    BitsOfThree(b0, b2, b4);
    BitsOfThree(b1, b3, b5);
  }

  /** Every texel number of a tile is the swizzle of exactly the coordinates `TileCoords` gives. */
  lemma TileCoordsInvertible(i: int)
    requires 0 <= i < 64
    ensures var InTile(s, t) := TileCoords(i); 0 <= s < 8 && 0 <= t < 8 && TexelIndexWithinTile(s, t) == i
  {
    var j1 := i / 2;
    var j2 := j1 / 2;
    var j3 := j2 / 2;
    var j4 := j3 / 2;
    var b0, b1, b2, b3, b4, b5 := i % 2, j1 % 2, j2 % 2, j3 % 2, j4 % 2, j4 / 2;
    assert i == b0 + 2 * j1 && j1 == b1 + 2 * j2 && j2 == b2 + 2 * j3 && j3 == b3 + 2 * j4 && j4 == b4 + 2 * b5;
    assert 0 <= b5 < 2;
    CoordsOfBits(i, b0, b1, b2, b3, b4, b5, j1, j2, j3, j4);
    SwizzleOfBits(b0, b1, b2, b3, b4, b5);
  }

  /** The first row of the tile layout, and the texels (2, 0) and (0, 2). */
  lemma TileLayoutFirstRow()
    ensures seq(8, s => TexelIndexWithinTile(s, 0)) == [0, 1, 4, 5, 16, 17, 20, 21]
    ensures TexelIndexWithinTile(2, 0) == 4 && TexelIndexWithinTile(0, 2) == 8
  {
  }

  /** The last row of the tile layout. */
  lemma TileLayoutLastRow()
    ensures seq(8, s => TexelIndexWithinTile(s, 7)) == [42, 43, 46, 47, 58, 59, 62, 63]
  {
    assert 7 % 2 == 1 && (7 / 2) % 2 == 1 && (7 / 4) % 2 == 1;
  }

  // ---------------------------------------------------------------------
  // Texel addressing and fetch
  // ---------------------------------------------------------------------

  /** `(v / 8) * 8` with C division: the first coordinate of v's tile. */
  function Coarse(v: int): int
  {
    CDiv(v, 8) * 8
  }

  /** The byte offset of texel (s, t) in an RGB8 texture `width` texels wide, stored as 8x8 tiles. */
  function TexelOffset(s: int, t: int, width: int): int
  {
    Coarse(s) * 8 * 3 + Coarse(t) * (width * 3) + TexelIndexWithinTile(s, t) * 3
  }

  /** `a` and `b` are recovered from `n * a + b` when `b` is below `n`. */
  lemma UniqueDecomposition(n: int, a: int, b: int, a2: int, b2: int)
    requires 0 <= b < n && 0 <= b2 < n
    requires n * a + b == n * a2 + b2
    ensures a == a2 && b == b2
  {
    if a < a2 {
      MulMonotone(n, a + 1, a2);
    } else if a2 < a {
      MulMonotone(n, a2 + 1, a);
    }
  }

  /** For nonnegative coordinates: the tile row, then the tile within the row, then the texel within the tile. */
  lemma TexelOffsetForm(s: int, t: int, width: int)
    requires 0 <= s && 0 <= t
    ensures TexelOffset(s, t, width) == 3 * ((8 * width) * (t / 8) + (64 * (s / 8) + TexelIndexWithinTile(s, t)))
  {
    assert CDiv(s, 8) == s / 8 && CDiv(t, 8) == t / 8;
    var tileRow := t / 8;
    assert (tileRow * 8) * (width * 3) == 3 * ((8 * width) * tileRow);
  }

  /** The texel's place within its row of tiles stays below the size of that row. */
  lemma TileRowPlace(s: int, t: int, width: int)
    requires width % 8 == 0 && 0 <= s < width
    ensures 0 <= 64 * (s / 8) + TexelIndexWithinTile(s, t) < 8 * width
  {
    assert s / 8 < width / 8;
    assert 8 * width == 64 * (width / 8);
  }

  /** Texels with the same tile row and the same place within it are the same texel. */
  lemma SameTilePlace(s: int, t: int, s2: int, t2: int)
    requires 0 <= s && 0 <= t && 0 <= s2 && 0 <= t2
    requires t / 8 == t2 / 8
    requires 64 * (s / 8) + TexelIndexWithinTile(s, t) == 64 * (s2 / 8) + TexelIndexWithinTile(s2, t2)
    ensures s == s2 && t == t2
  {
    UniqueDecomposition(64, s / 8, TexelIndexWithinTile(s, t), s2 / 8, TexelIndexWithinTile(s2, t2));
    TileIndexInvertible(s, t);
    TileIndexInvertible(s2, t2);
    assert s % 8 == s2 % 8 && t % 8 == t2 % 8;
    assert s == 8 * (s / 8) + s % 8 && s2 == 8 * (s2 / 8) + s2 % 8;
    assert t == 8 * (t / 8) + t % 8 && t2 == 8 * (t2 / 8) + t2 % 8;
  }

  /** A texel's offset is a nonnegative multiple of 3, so texels start on whole RGB8 triples. */
  lemma TexelOffsetAligned(s: int, t: int, width: nat)
    requires 0 <= s && 0 <= t
    ensures TexelOffset(s, t, width) >= 0 && TexelOffset(s, t, width) % 3 == 0
  {
    var rowBase := (8 * width) * (t / 8);
    var texels := rowBase + (64 * (s / 8) + TexelIndexWithinTile(s, t));
    assert TexelOffset(s, t, width) == 3 * texels by {
      TexelOffsetForm(s, t, width);
    }
    assert rowBase >= 0 by {
      MulMonotone(8 * width, 0, t / 8);
    }
    assert texels >= 0;
    TripleOf(texels);
  }

  lemma TripleOf(n: nat)
    ensures 3 * n >= 0 && (3 * n) % 3 == 0
  {
  }

  /**
   * Within a texture whose width is a whole number of tiles, distinct texels
   * have distinct offsets; with `TexelOffsetAligned`, their three bytes never
   * overlap.
   */
  lemma TexelOffsetInjective(s: int, t: int, s2: int, t2: int, width: nat)
    requires width % 8 == 0
    requires 0 <= s < width && 0 <= s2 < width && 0 <= t && 0 <= t2
    requires TexelOffset(s, t, width) == TexelOffset(s2, t2, width)
    ensures s == s2 && t == t2
  {
    var n := 8 * width;
    var b := 64 * (s / 8) + TexelIndexWithinTile(s, t);
    var b2 := 64 * (s2 / 8) + TexelIndexWithinTile(s2, t2);
    TexelOffsetForm(s, t, width);
    TexelOffsetForm(s2, t2, width);
    TileRowPlace(s, t, width);
    TileRowPlace(s2, t2, width);
    assert n * (t / 8) + b == n * (t2 / 8) + b2;
    UniqueDecomposition(n, t / 8, b, t2 / 8, b2);
    SameTilePlace(s, t, s2, t2);
  }

  datatype Rgba = Rgba(r: u8, g: u8, b: u8, a: u8)
  datatype Rgb = Rgb(r: u8, g: u8, b: u8)

  /** One texture unit's register state; `address` is already a physical address. */
  datatype TextureUnit = TextureUnit(enabled: bool, address: int, width: u32, height: u32,
                                     wrapS: WrapMode, wrapT: WrapMode)

  /** Texture coordinates already scaled to texels and converted to `int`. */
  datatype TexCoord = TexCoord(s: i32, t: i32)

  /** `texture0`'s wrap modes can be applied: `Repeat` needs a nonzero size. */
  predicate WrapDefined(texture0: TextureUnit)
  {
    && (texture0.wrapS == Repeat ==> texture0.width > 0)
    && (texture0.wrapT == Repeat ==> texture0.height > 0)
  }

  /** An RGB8 texel: red, green and blue are the bytes at offsets 2, 1 and 0; alpha is opaque. */
  function ReadTexel(mem: int -> u8, address: int): Rgba
  {
    Rgba(mem(address + 2), mem(address + 1), mem(address), 0xFF)
  }

  /**
   * The colour a texture unit contributes to a fragment.  A unit whose
   * `enabled` flag is set is skipped and contributes zeros; the wrap modes
   * and sizes are always those of `texture0`, while the row stride and the
   * address are the unit's own.
   */
  function TextureColor(unit: TextureUnit, texture0: TextureUnit, uv: TexCoord, mem: int -> u8): Rgba
    requires !unit.enabled ==> WrapDefined(texture0)
  {
    if unit.enabled then Rgba(0, 0, 0, 0)
    else
      var s := WrappedTexCoord(texture0.wrapS, uv.s, texture0.width);
      var t := WrappedTexCoord(texture0.wrapT, uv.t, texture0.height);
      ReadTexel(mem, unit.address + TexelOffset(s, t, unit.width))
  }

  /** The fetch of one texel, through the tile-index loop. */
  method FetchTexture(unit: TextureUnit, texture0: TextureUnit, uv: TexCoord, mem: int -> u8)
    returns (color: Rgba)
    requires !unit.enabled && WrapDefined(texture0)
    ensures color == TextureColor(unit, texture0, uv, mem)
  {
    var s := WrappedTexCoord(texture0.wrapS, uv.s, texture0.width);
    var t := WrappedTexCoord(texture0.wrapT, uv.t, texture0.height);
    var texelIndexWithinTile := TileIndex(s, t);
    var coarseS := CDiv(s, 8) * 8;
    var coarseT := CDiv(t, 8) * 8;
    var rowStride := unit.width * 3;
    var source := unit.address + coarseS * 8 * 3 + coarseT * rowStride + texelIndexWithinTile * 3;
    assert source == unit.address + TexelOffset(s, t, unit.width);
    color := ReadTexel(mem, source);
  }

  /**
   * The texel a sampled unit reads: with clamping and coordinates inside
   * `texture0`'s size (below 2^31, so that `(int)size` keeps its value),
   * unit 0 reads the bytes of texel (s, t) itself.  An
   * enabled unit reads nothing, and a unit's own wrap modes and height
   * play no part.
   */
  lemma TextureColorReadsTexel(unit: TextureUnit, uv: TexCoord, mem: int -> u8, wrapS: WrapMode, wrapT: WrapMode, height: u32)
    ensures unit.enabled ==> TextureColor(unit, unit, uv, mem) == Rgba(0, 0, 0, 0)
    ensures !unit.enabled && unit.wrapS == ClampToEdge && unit.wrapT == ClampToEdge
            && 0 <= uv.s < unit.width < 0x8000_0000 && 0 <= uv.t < unit.height < 0x8000_0000 ==>
      TextureColor(unit, unit, uv, mem) == ReadTexel(mem, unit.address + TexelOffset(uv.s, uv.t, unit.width))
    ensures var other := unit.(wrapS := wrapS, wrapT := wrapT, height := height);
      !unit.enabled && WrapDefined(unit) ==>
        TextureColor(other, unit, uv, mem) == TextureColor(unit, unit, uv, mem)
  {
    if !unit.enabled && unit.wrapS == ClampToEdge && unit.wrapT == ClampToEdge
       && 0 <= uv.s < unit.width < 0x8000_0000 && 0 <= uv.t < unit.height < 0x8000_0000 {
      assert WrappedTexCoord(ClampToEdge, uv.s, unit.width) == uv.s by {
        ClampToEdgeRange(uv.s, unit.width);
      }
      assert WrappedTexCoord(ClampToEdge, uv.t, unit.height) == uv.t by {
        ClampToEdgeRange(uv.t, unit.height);
      }
    }
  }

  // ---------------------------------------------------------------------
  // Texture environment
  // ---------------------------------------------------------------------

  datatype Source = PrimaryColor | Texture0 | Texture1 | Texture2 | Constant | Previous | OtherSource(code: nat)
  datatype ColorModifier = SourceColor | SourceAlpha | OtherColorModifier(code: nat)
  datatype AlphaModifier = AlphaSourceAlpha | OneMinusSourceAlpha | OtherAlphaModifier(code: nat)
  datatype Operation = Replace | Modulate | Add | Lerp | OtherOperation(code: nat)

  /** One TEV stage's configuration. */
  datatype TevStage = TevStage(
    colorSource1: Source, colorSource2: Source, colorSource3: Source,
    colorModifier1: ColorModifier, colorModifier2: ColorModifier, colorModifier3: ColorModifier,
    colorOp: Operation,
    alphaSource1: Source, alphaSource2: Source, alphaSource3: Source,
    alphaModifier1: AlphaModifier, alphaModifier2: AlphaModifier, alphaModifier3: AlphaModifier,
    alphaOp: Operation,
    constR: u8, constG: u8, constB: u8, constA: u8)

  /** The per-fragment inputs of the combiners other than the previous stage's output. */
  datatype FragmentInputs = FragmentInputs(primary: Rgba, texture0: Rgba, texture1: Rgba, texture2: Rgba)

  function RgbOf(c: Rgba): Rgb { Rgb(c.r, c.g, c.b) }

  function ColorSource(source: Source, stage: TevStage, inputs: FragmentInputs, previous: Rgba): Rgb
  {
    match source
    case PrimaryColor => RgbOf(inputs.primary)
    case Texture0 => RgbOf(inputs.texture0)
    case Texture1 => RgbOf(inputs.texture1)
    case Texture2 => RgbOf(inputs.texture2)
    case Constant => Rgb(stage.constR, stage.constG, stage.constB)
    case Previous => RgbOf(previous)
    case OtherSource(_) => Rgb(0, 0, 0)
  }

  function AlphaSource(source: Source, stage: TevStage, inputs: FragmentInputs, previous: Rgba): u8
  {
    match source
    case PrimaryColor => inputs.primary.a
    case Texture0 => inputs.texture0.a
    case Texture1 => inputs.texture1.a
    case Texture2 => inputs.texture2.a
    case Constant => stage.constA
    case Previous => previous.a
    case OtherSource(_) => 0
  }

  /** Both known colour modifiers pass the colour through unchanged. */
  function ColorModify(modifier: ColorModifier, values: Rgb): Rgb
  {
    match modifier
    case SourceColor => values
    case SourceAlpha => values
    case OtherColorModifier(_) => Rgb(0, 0, 0)
  }

  function AlphaModify(modifier: AlphaModifier, value: u8): u8
  {
    match modifier
    case AlphaSourceAlpha => value
    case OneMinusSourceAlpha => 255 - value
    case OtherAlphaModifier(_) => 0
  }

  /** `a * b / 255`: never more than either factor. */
  function ModulateChannel(a: u8, b: u8): (r: u8)
    ensures r <= a && r <= b
  {
    MulMonotone(a, b, 255);
    MulMonotone(b, a, 255);
    a * b / 255
  }

  /** `a + b` cast to `u8`: the sum wraps around instead of saturating. */
  function AddChannel(a: u8, b: u8): u8
  {
    (a + b) % 0x100
  }

  /** `(a * c + b * (255 - c)) / 255`: a blend that lies between `b` and `a`. */
  function LerpChannel(a: u8, b: u8, c: u8): (r: u8)
    ensures a <= b ==> a <= r <= b
    ensures b <= a ==> b <= r <= a
  {
    LerpBetween(a, b, c);
    (a * c + b * (255 - c)) / 255
  }

  lemma LerpBetween(a: u8, b: u8, c: u8)
    ensures var v := a * c + b * (255 - c);
      && (a <= b ==> 255 * a <= v <= 255 * b)
      && (b <= a ==> 255 * b <= v <= 255 * a)
  {
    if a <= b {
      MulMonotone(c, a, b);
      MulMonotone(255 - c, a, b);
    } else {
      MulMonotone(c, b, a);
      MulMonotone(255 - c, b, a);
    }
  }

  function ColorCombine(op: Operation, in1: Rgb, in2: Rgb, in3: Rgb): Rgb
  {
    match op
    case Replace => in1
    case Modulate => Rgb(ModulateChannel(in1.r, in2.r), ModulateChannel(in1.g, in2.g), ModulateChannel(in1.b, in2.b))
    case Add => Rgb(AddChannel(in1.r, in2.r), AddChannel(in1.g, in2.g), AddChannel(in1.b, in2.b))
    case Lerp => Rgb(LerpChannel(in1.r, in2.r, in3.r), LerpChannel(in1.g, in2.g, in3.g), LerpChannel(in1.b, in2.b, in3.b))
    case OtherOperation(_) => Rgb(0, 0, 0)
  }

  function AlphaCombine(op: Operation, in1: u8, in2: u8, in3: u8): u8
  {
    match op
    case Replace => in1
    case Modulate => ModulateChannel(in1, in2)
    case Add => AddChannel(in1, in2)
    case Lerp => LerpChannel(in1, in2, in3)
    case OtherOperation(_) => 0
  }

  /**
   * Properties of the channel arithmetic: modulation is symmetric, 255 is
   * its identity and 0 absorbs; interpolation by 255 and by 0 picks either
   * end; addition wraps; inverting alpha twice is the identity.
   */
  lemma ChannelArithmetic(a: u8, b: u8)
    ensures ModulateChannel(a, b) == ModulateChannel(b, a)
    ensures ModulateChannel(a, 255) == a && ModulateChannel(a, 0) == 0
    ensures LerpChannel(a, b, 255) == a && LerpChannel(a, b, 0) == b
    ensures a + b < 0x100 ==> AddChannel(a, b) == a + b
    ensures a + b >= 0x100 ==> AddChannel(a, b) == a + b - 0x100
    ensures AlphaModify(OneMinusSourceAlpha, AlphaModify(OneMinusSourceAlpha, a)) == a
  {
  }

  /** Worked values: 200 modulated by 100 is 78, and 200 plus 100 wraps to 44. */
  lemma ChannelExamples()
    ensures ModulateChannel(200, 100) == 78
    ensures AddChannel(200, 100) == 44
    ensures LerpChannel(200, 100, 128) == 150
  {
  }

  /**
   * One TEV stage: three modified colour inputs and three modified alpha
   * inputs, all read from the previous output before it is replaced.
   */
  function StageOutput(stage: TevStage, inputs: FragmentInputs, previous: Rgba): Rgba
  {
    var color := ColorCombine(stage.colorOp,
      ColorModify(stage.colorModifier1, ColorSource(stage.colorSource1, stage, inputs, previous)),
      ColorModify(stage.colorModifier2, ColorSource(stage.colorSource2, stage, inputs, previous)),
      ColorModify(stage.colorModifier3, ColorSource(stage.colorSource3, stage, inputs, previous)));
    var alpha := AlphaCombine(stage.alphaOp,
      AlphaModify(stage.alphaModifier1, AlphaSource(stage.alphaSource1, stage, inputs, previous)),
      AlphaModify(stage.alphaModifier2, AlphaSource(stage.alphaSource2, stage, inputs, previous)),
      AlphaModify(stage.alphaModifier3, AlphaSource(stage.alphaSource3, stage, inputs, previous)));
    Rgba(color.r, color.g, color.b, alpha)
  }

  /** The stages applied in order, each to the output of the one before. */
  function CombinerChain(stages: seq<TevStage>, inputs: FragmentInputs, previous: Rgba): Rgba
  {
    if |stages| == 0 then previous
    else CombinerChain(stages[1..], inputs, StageOutput(stages[0], inputs, previous))
  }

  /** The TEV loop, reassigning `combinerOutput` once per stage; `initial` is its uninitialised value. */
  method CombineStages(stages: seq<TevStage>, inputs: FragmentInputs, initial: Rgba)
    returns (combinerOutput: Rgba)
    ensures combinerOutput == CombinerChain(stages, inputs, initial)
  {
    combinerOutput := initial;
    var i := 0;
    while i < |stages|
      invariant 0 <= i <= |stages|
      invariant CombinerChain(stages[i..], inputs, combinerOutput) == CombinerChain(stages, inputs, initial)
    {
      assert stages[i..][1..] == stages[i + 1..];
      combinerOutput := StageOutput(stages[i], inputs, combinerOutput);
      i := i + 1;
    }
  }

  /** Running two lists of stages one after the other is running their concatenation. */
  lemma {:induction false} CombinerChainAppend(first: seq<TevStage>, second: seq<TevStage>, inputs: FragmentInputs, previous: Rgba)
    ensures CombinerChain(first + second, inputs, previous)
         == CombinerChain(second, inputs, CombinerChain(first, inputs, previous))
  {
    if |first| > 0 {
      assert (first + second)[1..] == first[1..] + second;
      CombinerChainAppend(first[1..], second, inputs, StageOutput(first[0], inputs, previous));
    } else {
      assert first + second == second;
    }
  }

  predicate ReadsPrevious(stage: TevStage)
  {
    || stage.colorSource1 == Previous || stage.colorSource2 == Previous || stage.colorSource3 == Previous
    || stage.alphaSource1 == Previous || stage.alphaSource2 == Previous || stage.alphaSource3 == Previous
  }

  /** A source other than `Previous` reads the same value whatever the previous output. */
  lemma SourceIgnoresPrevious(source: Source, stage: TevStage, inputs: FragmentInputs, previous1: Rgba, previous2: Rgba)
    requires source != Previous
    ensures ColorSource(source, stage, inputs, previous1) == ColorSource(source, stage, inputs, previous2)
    ensures AlphaSource(source, stage, inputs, previous1) == AlphaSource(source, stage, inputs, previous2)
  {
  }

  /**
   * Only `Previous` sources see the prior output: when the first stage does
   * not read it, the uninitialised starting value cannot reach the result.
   */
  lemma FirstStageHidesInitial(stages: seq<TevStage>, inputs: FragmentInputs, initial1: Rgba, initial2: Rgba)
    requires |stages| > 0 && !ReadsPrevious(stages[0])
    ensures CombinerChain(stages, inputs, initial1) == CombinerChain(stages, inputs, initial2)
  {
    var stage := stages[0];
    SourceIgnoresPrevious(stage.colorSource1, stage, inputs, initial1, initial2);
    SourceIgnoresPrevious(stage.colorSource2, stage, inputs, initial1, initial2);
    SourceIgnoresPrevious(stage.colorSource3, stage, inputs, initial1, initial2);
    SourceIgnoresPrevious(stage.alphaSource1, stage, inputs, initial1, initial2);
    SourceIgnoresPrevious(stage.alphaSource2, stage, inputs, initial1, initial2);
    SourceIgnoresPrevious(stage.alphaSource3, stage, inputs, initial1, initial2);
    assert StageOutput(stage, inputs, initial1) == StageOutput(stage, inputs, initial2);
  }

  /** A stage that replaces colour and alpha by the unmodified previous output passes it through. */
  lemma PassThroughStage(stage: TevStage, inputs: FragmentInputs, previous: Rgba)
    requires stage.colorOp == Replace && stage.colorSource1 == Previous && stage.colorModifier1 == SourceColor
    requires stage.alphaOp == Replace && stage.alphaSource1 == Previous && stage.alphaModifier1 == AlphaSourceAlpha
    ensures StageOutput(stage, inputs, previous) == previous
  {
  }

  // ---------------------------------------------------------------------
  // Colour and depth buffers
  // ---------------------------------------------------------------------

  /** The framebuffer word for a colour: alpha in the top byte, then red, green and blue. */
  function PackColor(c: Rgba): u32
  {
    c.a * 0x100_0000 + c.r * 0x1_0000 + c.g * 0x100 + c.b
  }

  /** Each channel is read back from its own byte of the packed word. */
  lemma PackColorBytes(c: Rgba)
    ensures PackColor(c) % 0x100 == c.b
    ensures (PackColor(c) / 0x100) % 0x100 == c.g
    ensures (PackColor(c) / 0x1_0000) % 0x100 == c.r
    ensures PackColor(c) / 0x100_0000 == c.a
  {
    var w := PackColor(c);
    assert w / 0x100 == c.a * 0x1_0000 + c.r * 0x100 + c.g;
    assert w / 0x1_0000 == c.a * 0x100 + c.r;
  }

  /** The index of pixel (x, y) in a buffer `width` pixels wide. */
  function PixelIndex(x: int, y: int, width: nat): int
  {
    x + y * width
  }

  /** Distinct pixels of one row width have distinct indices. */
  lemma PixelIndexUnique(x: int, y: int, x2: int, y2: int, width: nat)
    requires 0 <= x < width && 0 <= x2 < width
    ensures PixelIndex(x, y, width) == PixelIndex(x2, y2, width) <==> x == x2 && y == y2
  {
    if PixelIndex(x, y, width) == PixelIndex(x2, y2, width) {
      UniqueDecomposition(width, y, x, y2, x2);
    }
  }

  method DrawPixel(colorBuffer: array<u32>, width: nat, x: nat, y: nat, color: Rgba)
    requires PixelIndex(x, y, width) < colorBuffer.Length
    modifies colorBuffer
    ensures colorBuffer[..] == old(colorBuffer[..])[PixelIndex(x, y, width) := PackColor(color)]
  {
    colorBuffer[x + y * width] := PackColor(color);
  }

  function GetDepth(depthBuffer: array<u16>, width: nat, x: nat, y: nat): u16
    requires PixelIndex(x, y, width) < depthBuffer.Length
    reads depthBuffer
  {
    depthBuffer[x + y * width]
  }

  method SetDepth(depthBuffer: array<u16>, width: nat, x: nat, y: nat, value: u16)
    requires PixelIndex(x, y, width) < depthBuffer.Length
    modifies depthBuffer
    ensures depthBuffer[..] == old(depthBuffer[..])[PixelIndex(x, y, width) := value]
    ensures GetDepth(depthBuffer, width, x, y) == value
  {
    depthBuffer[x + y * width] := value;
  }

  // ---------------------------------------------------------------------
  // Triangle processing
  // ---------------------------------------------------------------------

  /** The attributes interpolated at a sample: colour, texture coordinates of the three units, depth. */
  datatype Interpolated = Interpolated(primary: Rgba, uv0: TexCoord, uv1: TexCoord, uv2: TexCoord, depth: u16)

  function Uv(a: Interpolated, i: nat): TexCoord
  {
    if i == 0 then a.uv0 else if i == 1 then a.uv1 else a.uv2
  }

  /** The registers the rasterizer reads: three texture units, the TEV stages, the framebuffer width. */
  datatype Registers = Registers(textures: seq<TextureUnit>, stages: seq<TevStage>, framebufferWidth: nat)

  /**
   * A triangle as the rasterizer receives it.  `interp` stands for the
   * floating-point interpolation of the attributes from the biased weights,
   * `mem` for the texture memory, and `uninitialised` for the value
   * `combiner_output` holds before the first stage writes it.
   */
  datatype Triangle = Triangle(v0: Point, v1: Point, v2: Point, regs: Registers,
                               interp: Weights -> Interpolated, mem: int -> u8, uninitialised: Rgba)

  /** There are three texture units, and `texture0`'s wrap modes can be applied whenever one is sampled. */
  predicate TexturesDefined(regs: Registers)
  {
    && |regs.textures| == 3
    && (!regs.textures[0].enabled || !regs.textures[1].enabled || !regs.textures[2].enabled ==>
          WrapDefined(regs.textures[0]))
  }

  function TriangleBox(tri: Triangle): Box
  {
    BoundingBox(tri.v0, tri.v1, tri.v2)
  }

  function Width(tri: Triangle): nat
  {
    tri.regs.framebufferWidth
  }

  /** The colour texture unit `i` contributes to a fragment with attributes `a`. */
  function UnitColor(tri: Triangle, a: Interpolated, i: nat): Rgba
    requires TexturesDefined(tri.regs) && i < 3
  {
    TextureColor(tri.regs.textures[i], tri.regs.textures[0], Uv(a, i), tri.mem)
  }

  function UnitColors(tri: Triangle, a: Interpolated): seq<Rgba>
    requires TexturesDefined(tri.regs)
  {
    [UnitColor(tri, a, 0), UnitColor(tri, a, 1), UnitColor(tri, a, 2)]
  }

  datatype Fragment = Fragment(color: Rgba, depth: u16)

  /** The colour and depth of a covered sample with weights `w`. */
  function Shade(tri: Triangle, w: Weights): Fragment
    requires TexturesDefined(tri.regs)
  {
    var a := tri.interp(w);
    var inputs := FragmentInputs(a.primary, UnitColor(tri, a, 0), UnitColor(tri, a, 1), UnitColor(tri, a, 2));
    Fragment(CombinerChain(tri.regs.stages, inputs, tri.uninitialised), a.depth)
  }

  /** What the sample (x, y) contributes: nothing when it is not covered. */
  function FragmentAt(tri: Triangle, x: u16, y: u16): Option<Fragment>
    requires TexturesDefined(tri.regs)
  {
    if Covered(tri.v0, tri.v1, tri.v2, Point(x, y))
    then Some(Shade(tri, SampleWeights(tri.v0, tri.v1, tri.v2, Point(x, y))))
    else None
  }

  /** The texture fetches and the TEV loop for one covered sample. */
  method ShadeFragment(tri: Triangle, w: Weights) returns (fragment: Fragment)
    requires TexturesDefined(tri.regs)
    ensures fragment == Shade(tri, w)
  {
    var a := tri.interp(w);
    var textureColor: seq<Rgba> := [];
    var i := 0;
    while i < 3
      invariant 0 <= i <= 3
      invariant textureColor == UnitColors(tri, a)[..i]
    {
      var texture := tri.regs.textures[i];
      var color := Rgba(0, 0, 0, 0);
      if !texture.enabled {
        color := FetchTexture(texture, tri.regs.textures[0], Uv(a, i), tri.mem);
      }
      textureColor := textureColor + [color];
      i := i + 1;
    }
    var inputs := FragmentInputs(a.primary, textureColor[0], textureColor[1], textureColor[2]);
    var combinerOutput := CombineStages(tri.regs.stages, inputs, tri.uninitialised);
    fragment := Fragment(combinerOutput, a.depth);
  }

  /** The colour and depth buffers, as sequences. */
  datatype Frame = Frame(color: seq<u32>, depth: seq<u16>)

  /** What the two loops range over: the sample box, and the framebuffer width that places pixels. */
  datatype Scan = Scan(box: Box, width: nat)

  /** What each sample contributes, as a function of its coordinates. */
  type Shader = (u16, u16) -> Option<Fragment>

  function ScanOf(tri: Triangle): Scan
  {
    Scan(TriangleBox(tri), Width(tri))
  }

  /** The fragment of sample (x, y), when the texture registers allow shading at all. */
  function ShadeAt(tri: Triangle, x: u16, y: u16): Option<Fragment>
  {
    if TexturesDefined(tri.regs) then FragmentAt(tri, x, y) else None
  }

  function ShaderOf(tri: Triangle): Shader
  {
    (x: u16, y: u16) => ShadeAt(tri, x, y)
  }

  /**
   * `shader` agrees with the triangle's shading. The loops carry this
   * instead of `ShaderOf(tri)`, so that reasoning about buffer positions
   * does not unfold the shading of a sample.
   */
  ghost predicate Shades(shader: Shader, tri: Triangle)
  {
    forall x: u16, y: u16 {:trigger ShadeAt(tri, x, y)} :: shader(x, y) == ShadeAt(tri, x, y)
  }

  /**
   * Every pixel of the box has an index below `length`: the box covers no
   * pixel, or its last pixel, which has the largest index, is inside.
   */
  predicate BoxFits(scan: Scan, length: nat)
  {
    var box := scan.box;
    box.maxX / 16 <= box.minX / 16 || box.maxY / 16 <= box.minY / 16
    || PixelIndex(box.maxX / 16 - 1, box.maxY / 16 - 1, scan.width) < length
  }

  /** The box ends on pixel boundaries, and both buffers hold all of its pixels. */
  predicate FrameFits(scan: Scan, f: Frame)
  {
    scan.box.maxX % 16 == 0 && scan.box.maxY % 16 == 0 && BoxFits(scan, |f.color|) && BoxFits(scan, |f.depth|)
  }

  /** The box ends on pixel boundaries, early enough that a 16-bit sample counter can step past it. */
  predicate Aligned(box: Box)
  {
    box.maxX % 16 == 0 && box.maxY % 16 == 0 && box.maxX <= 0xFFF0 && box.maxY <= 0xFFF0
  }

  predicate InBox(scan: Scan, x: int, y: int)
  {
    scan.box.minX <= x < scan.box.maxX && scan.box.minY <= y < scan.box.maxY
  }

  /** A sample inside the box has its pixel inside a buffer that holds the box. */
  lemma SampleInBox(scan: Scan, x: int, y: int, length: nat)
    requires scan.box.maxX % 16 == 0 && scan.box.maxY % 16 == 0
    requires BoxFits(scan, length) && InBox(scan, x, y)
    ensures scan.box.minX / 16 <= x / 16 < scan.box.maxX / 16
    ensures scan.box.minY / 16 <= y / 16 < scan.box.maxY / 16
    ensures 0 <= PixelIndex(x / 16, y / 16, scan.width) < length
  {
    var px, py := x / 16, y / 16;
    var lastX, lastY := scan.box.maxX / 16 - 1, scan.box.maxY / 16 - 1;
    assert 0 <= px <= lastX && 0 <= py <= lastY;
    MulMonotone(scan.width, 0, py);
    MulMonotone(scan.width, py, lastY);
  }

  /** The buffer entry a pixel ends with after a sample: its fragment's, or the old one. */
  function ColorAfter(current: u32, fragment: Option<Fragment>): u32
  {
    match fragment
    case None => current
    case Some(frag) => PackColor(frag.color)
  }

  function DepthAfter(current: u16, fragment: Option<Fragment>): u16
  {
    match fragment
    case None => current
    case Some(frag) => frag.depth
  }

  /** Sample (x, y): `SetDepth` and `DrawPixel` at pixel (x >> 4, y >> 4) when it is covered. */
  function ApplySample(f: Frame, scan: Scan, shader: Shader, x: u16, y: u16): (r: Frame)
    requires FrameFits(scan, f) && InBox(scan, x, y)
    ensures |r.color| == |f.color| && |r.depth| == |f.depth|
  {
    SampleInBox(scan, x, y, |f.color|);
    SampleInBox(scan, x, y, |f.depth|);
    var i := PixelIndex(x / 16, y / 16, scan.width);
    Frame(f.color[i := ColorAfter(f.color[i], shader(x, y))],
          f.depth[i := DepthAfter(f.depth[i], shader(x, y))])
  }

  /** The inner loop, from sample column `x` to the end of row `y`. */
  function RasterRow(f: Frame, scan: Scan, shader: Shader, y: u16, x: int): (r: Frame)
    requires FrameFits(scan, f) && scan.box.minY <= y < scan.box.maxY && scan.box.minX <= x
    ensures |r.color| == |f.color| && |r.depth| == |f.depth|
    decreases scan.box.maxX - x
  {
    if x >= scan.box.maxX then f
    else RasterRow(ApplySample(f, scan, shader, x, y), scan, shader, y, x + 16)
  }

  /** The outer loop, from sample row `y` to the bottom of the box. */
  function RasterRows(f: Frame, scan: Scan, shader: Shader, y: int): (r: Frame)
    requires FrameFits(scan, f) && scan.box.minY <= y
    ensures |r.color| == |f.color| && |r.depth| == |f.depth|
    decreases scan.box.maxY - y
  {
    if y >= scan.box.maxY then f
    else RasterRows(RasterRow(f, scan, shader, y, scan.box.minX), scan, shader, y + 16)
  }

  /** The samples `xs` of row `y`, applied one after another. */
  function SampleEach(f: Frame, scan: Scan, shader: Shader, y: u16, xs: seq<int>): (r: Frame)
    requires FrameFits(scan, f) && scan.box.minY <= y < scan.box.maxY
    requires forall i :: 0 <= i < |xs| ==> scan.box.minX <= xs[i] < scan.box.maxX
    ensures |r.color| == |f.color| && |r.depth| == |f.depth|
    decreases |xs|
  {
    if |xs| == 0 then f
    else SampleEach(ApplySample(f, scan, shader, xs[0], y), scan, shader, y, xs[1..])
  }

  /** The inner loop applies the coordinates `Samples` lists, in order, and no others. */
  lemma {:induction false} RasterRowVisitsSamples(f: Frame, scan: Scan, shader: Shader, y: u16, x: int)
    requires FrameFits(scan, f) && scan.box.minY <= y < scan.box.maxY && scan.box.minX <= x
    ensures forall i :: 0 <= i < |Samples(x, scan.box.maxX)| ==>
      scan.box.minX <= Samples(x, scan.box.maxX)[i] < scan.box.maxX
    ensures RasterRow(f, scan, shader, y, x) == SampleEach(f, scan, shader, y, Samples(x, scan.box.maxX))
    decreases scan.box.maxX - x
  {
    var xs := Samples(x, scan.box.maxX);
    if x < scan.box.maxX {
      var next := ApplySample(f, scan, shader, x, y);
      RasterRowVisitsSamples(next, scan, shader, y, x + 16);
      assert xs == [x] + Samples(x + 16, scan.box.maxX);
      assert xs[1..] == Samples(x + 16, scan.box.maxX);
      forall i | 0 <= i < |xs|
        ensures scan.box.minX <= xs[i] < scan.box.maxX
      {
        if i > 0 {
          assert xs[i] == Samples(x + 16, scan.box.maxX)[i - 1];
        }
      }
    }
  }

  /** The buffers after `ProcessTriangle`. */
  function Rasterize(f: Frame, tri: Triangle): Frame
    requires FrameFits(ScanOf(tri), f)
  {
    RasterRows(f, ScanOf(tri), ShaderOf(tri), TriangleBox(tri).minY)
  }

  /** A pixel outside a block of pixels, all in rows `width` wide, shares no index with the block. */
  lemma DistinctPixels(width: nat, px0: int, py0: int, loX: int, hiX: int, loY: int, hiY: int)
    requires 0 <= loX && hiX <= width && 0 <= px0 < width
    requires loY <= py0 < hiY ==> px0 < loX || hiX <= px0
    ensures forall px, py :: loX <= px < hiX && loY <= py < hiY ==> PixelIndex(px, py, width) != PixelIndex(px0, py0, width)
  {
    forall px, py | loX <= px < hiX && loY <= py < hiY
      ensures PixelIndex(px, py, width) != PixelIndex(px0, py0, width)
    {
      PixelIndexUnique(px, py, px0, py0, width);
    }
  }

  /** A pixel that no sample of row `y` from column `x` on falls into keeps its colour and depth. */
  lemma {:induction false} RasterRowKeeps(f: Frame, scan: Scan, shader: Shader, y: u16, x: int, i: int)
    requires FrameFits(scan, f) && scan.box.minY <= y < scan.box.maxY && scan.box.minX <= x
    requires 0 <= i < |f.color| && 0 <= i < |f.depth|
    requires forall px :: x / 16 <= px < scan.box.maxX / 16 ==> PixelIndex(px, y / 16, scan.width) != i
    ensures RasterRow(f, scan, shader, y, x).color[i] == f.color[i]
    ensures RasterRow(f, scan, shader, y, x).depth[i] == f.depth[i]
    decreases scan.box.maxX - x
  {
    if x < scan.box.maxX {
      assert x / 16 < scan.box.maxX / 16;
      var g := ApplySample(f, scan, shader, x, y);
      assert g.color[i] == f.color[i] && g.depth[i] == f.depth[i];
      assert (x + 16) / 16 == x / 16 + 1;
      RasterRowKeeps(g, scan, shader, y, x + 16, i);
    }
  }

  /**
   * When a row of the box fits in the framebuffer width, the pixel of sample
   * (x0, y) ends the row holding what that sample's fragment makes of its
   * value before the row.
   */
  lemma {:induction false} RasterRowWrites(f: Frame, scan: Scan, shader: Shader, y: u16, x: int, x0: u16, k: nat)
    requires FrameFits(scan, f) && scan.box.minY <= y < scan.box.maxY && scan.box.minX <= x
    requires x0 == x + 16 * k && x0 < scan.box.maxX
    requires scan.box.maxX / 16 <= scan.width
    ensures var i := PixelIndex(x0 / 16, y / 16, scan.width);
      && 0 <= i < |f.color| && 0 <= i < |f.depth|
      && RasterRow(f, scan, shader, y, x).color[i] == ColorAfter(f.color[i], shader(x0, y))
      && RasterRow(f, scan, shader, y, x).depth[i] == DepthAfter(f.depth[i], shader(x0, y))
    decreases scan.box.maxX - x
  {
    var w := scan.width;
    var i := PixelIndex(x0 / 16, y / 16, w);
    assert 0 <= i < |f.color| && 0 <= i < |f.depth| by {
      SampleInBox(scan, x0, y, |f.color|);
      SampleInBox(scan, x0, y, |f.depth|);
    }
    if k == 0 {
      RasterRowWritesFirst(f, scan, shader, y, x0);
    } else {
      var g := ApplySample(f, scan, shader, x, y);
      assert g.color[i] == f.color[i] && g.depth[i] == f.depth[i] by {
        assert x / 16 < x0 / 16;
        SampleInBox(scan, x, y, |f.color|);
        PixelIndexUnique(x / 16, y / 16, x0 / 16, y / 16, w);
      }
      RasterRowWrites(g, scan, shader, y, x + 16, x0, k - 1);
    }
  }

  /** The first sample of a row: later samples of the row fall into other pixels. */
  lemma RasterRowWritesFirst(f: Frame, scan: Scan, shader: Shader, y: u16, x0: u16)
    requires FrameFits(scan, f) && scan.box.minY <= y < scan.box.maxY && scan.box.minX <= x0 < scan.box.maxX
    requires scan.box.maxX / 16 <= scan.width
    ensures var i := PixelIndex(x0 / 16, y / 16, scan.width);
      && 0 <= i < |f.color| && 0 <= i < |f.depth|
      && RasterRow(f, scan, shader, y, x0).color[i] == ColorAfter(f.color[i], shader(x0, y))
      && RasterRow(f, scan, shader, y, x0).depth[i] == DepthAfter(f.depth[i], shader(x0, y))
  {
    var w := scan.width;
    var i := PixelIndex(x0 / 16, y / 16, w);
    assert 0 <= i < |f.color| && 0 <= i < |f.depth| by {
      SampleInBox(scan, x0, y, |f.color|);
      SampleInBox(scan, x0, y, |f.depth|);
    }
    var g := ApplySample(f, scan, shader, x0, y);
    assert g.color[i] == ColorAfter(f.color[i], shader(x0, y)) && g.depth[i] == DepthAfter(f.depth[i], shader(x0, y));
    assert RasterRow(g, scan, shader, y, x0 + 16).color[i] == g.color[i]
        && RasterRow(g, scan, shader, y, x0 + 16).depth[i] == g.depth[i] by {
      DistinctPixels(w, x0 / 16, y / 16, (x0 + 16) / 16, scan.box.maxX / 16, y / 16, y / 16 + 1);
      RasterRowKeeps(g, scan, shader, y, x0 + 16, i);
    }
    assert RasterRow(f, scan, shader, y, x0) == RasterRow(g, scan, shader, y, x0 + 16);
  }

  /** A pixel that no sample from row `y` on falls into keeps its colour and depth. */
  lemma {:induction false} RasterRowsKeeps(f: Frame, scan: Scan, shader: Shader, y: int, i: int)
    requires FrameFits(scan, f) && scan.box.minY <= y
    requires 0 <= i < |f.color| && 0 <= i < |f.depth|
    requires forall px, py :: scan.box.minX / 16 <= px < scan.box.maxX / 16 && y / 16 <= py < scan.box.maxY / 16
               ==> PixelIndex(px, py, scan.width) != i
    ensures RasterRows(f, scan, shader, y).color[i] == f.color[i]
    ensures RasterRows(f, scan, shader, y).depth[i] == f.depth[i]
    decreases scan.box.maxY - y
  {
    if y < scan.box.maxY {
      assert y / 16 < scan.box.maxY / 16;
      RasterRowKeeps(f, scan, shader, y, scan.box.minX, i);
      assert (y + 16) / 16 == y / 16 + 1;
      RasterRowsKeeps(RasterRow(f, scan, shader, y, scan.box.minX), scan, shader, y + 16, i);
    }
  }

  /** The pixel of sample (x0, y0) ends holding what that sample's fragment makes of its value before the loops. */
  lemma {:induction false} RasterRowsWrites(f: Frame, scan: Scan, shader: Shader, y: int, x0: u16, y0: u16, col: nat, row: nat)
    requires FrameFits(scan, f) && scan.box.minY <= y && y0 == y + 16 * row && y0 < scan.box.maxY
    requires x0 == scan.box.minX + 16 * col && x0 < scan.box.maxX
    requires scan.box.maxX / 16 <= scan.width
    ensures var i := PixelIndex(x0 / 16, y0 / 16, scan.width);
      && 0 <= i < |f.color| && 0 <= i < |f.depth|
      && RasterRows(f, scan, shader, y).color[i] == ColorAfter(f.color[i], shader(x0, y0))
      && RasterRows(f, scan, shader, y).depth[i] == DepthAfter(f.depth[i], shader(x0, y0))
    decreases scan.box.maxY - y
  {
    var w := scan.width;
    var i := PixelIndex(x0 / 16, y0 / 16, w);
    assert 0 <= i < |f.color| && 0 <= i < |f.depth| by {
      SampleInBox(scan, x0, y0, |f.color|);
      SampleInBox(scan, x0, y0, |f.depth|);
    }
    var g := RasterRow(f, scan, shader, y, scan.box.minX);
    assert RasterRows(f, scan, shader, y) == RasterRows(g, scan, shader, y + 16);
    if row == 0 {
      assert g.color[i] == ColorAfter(f.color[i], shader(x0, y0)) && g.depth[i] == DepthAfter(f.depth[i], shader(x0, y0)) by {
        RasterRowWrites(f, scan, shader, y0, scan.box.minX, x0, col);
      }
      assert RasterRows(g, scan, shader, y + 16).color[i] == g.color[i]
          && RasterRows(g, scan, shader, y + 16).depth[i] == g.depth[i] by {
        SampleInBox(scan, x0, y0, |f.color|);
        DistinctPixels(w, x0 / 16, y0 / 16, scan.box.minX / 16, scan.box.maxX / 16, (y + 16) / 16, scan.box.maxY / 16);
        RasterRowsKeeps(g, scan, shader, y + 16, i);
      }
    } else {
      assert g.color[i] == f.color[i] && g.depth[i] == f.depth[i] by {
        SampleInBox(scan, x0, y0, |f.color|);
        assert y / 16 < y0 / 16;
        DistinctPixels(w, x0 / 16, y0 / 16, scan.box.minX / 16, scan.box.maxX / 16, y / 16, y / 16 + 1);
        RasterRowKeeps(f, scan, shader, y, scan.box.minX, i);
      }
      RasterRowsWrites(g, scan, shader, y + 16, x0, y0, col, row - 1);
    }
  }

  /**
   * Every sample of the box writes its own pixel (x0 >> 4, y0 >> 4): the
   * pixel ends with the sample's fragment if it is covered and its old
   * value otherwise, provided a row of the box fits in the framebuffer width.
   */
  lemma RasterizeWrites(f: Frame, tri: Triangle, x0: u16, y0: u16)
    requires FrameFits(ScanOf(tri), f)
    requires InBox(ScanOf(tri), x0, y0) && x0 % 16 == 0 && y0 % 16 == 0
    requires TriangleBox(tri).maxX / 16 <= Width(tri)
    ensures var i := PixelIndex(x0 / 16, y0 / 16, Width(tri));
      && 0 <= i < |f.color| && 0 <= i < |f.depth|
      && Rasterize(f, tri).color[i] == ColorAfter(f.color[i], ShadeAt(tri, x0, y0))
      && Rasterize(f, tri).depth[i] == DepthAfter(f.depth[i], ShadeAt(tri, x0, y0))
  {
    var scan, shader := ScanOf(tri), ShaderOf(tri);
    var box := scan.box;
    assert box.minX % 16 == 0 && box.minY % 16 == 0 by {
      BoundingBoxEncloses(tri.v0, tri.v1, tri.v2);
    }
    var col, row := (x0 - box.minX) / 16, (y0 - box.minY) / 16;
    assert x0 == box.minX + 16 * col by {
      AlignedDistance(box.minX, x0);
    }
    assert y0 == box.minY + 16 * row by {
      AlignedDistance(box.minY, y0);
    }
    RasterRowsWrites(f, scan, shader, box.minY, x0, y0, col, row);
    assert shader(x0, y0) == ShadeAt(tri, x0, y0);
  }

  /** Two multiples of 16 lie a whole number of steps of 16 apart. */
  lemma AlignedDistance(a: int, b: int)
    requires a % 16 == 0 && b % 16 == 0
    ensures b == a + 16 * ((b - a) / 16)
  {
    assert a == 16 * (a / 16) && b == 16 * (b / 16);
    assert b - a == 16 * (b / 16 - a / 16);
  }

  /** A buffer entry that is not the pixel of any sample of the box is left as it was. */
  lemma RasterizeKeeps(f: Frame, tri: Triangle, i: int)
    requires FrameFits(ScanOf(tri), f)
    requires 0 <= i < |f.color| && 0 <= i < |f.depth|
    requires forall x: u16, y: u16 :: InBox(ScanOf(tri), x, y) ==> PixelIndex(x / 16, y / 16, Width(tri)) != i
    ensures Rasterize(f, tri).color[i] == f.color[i] && Rasterize(f, tri).depth[i] == f.depth[i]
  {
    var scan := ScanOf(tri);
    var box := scan.box;
    BoundingBoxEncloses(tri.v0, tri.v1, tri.v2);
    forall px, py | box.minX / 16 <= px < box.maxX / 16 && box.minY / 16 <= py < box.maxY / 16
      ensures PixelIndex(px, py, scan.width) != i
    {
      var x: u16, y: u16 := 16 * px, 16 * py;
      assert InBox(scan, x, y) && x / 16 == px && y / 16 == py;
    }
    RasterRowsKeeps(f, scan, ShaderOf(tri), box.minY, i);
  }

  /** The fill-rule biases of the three edges, computed once per triangle. */
  function Biases(tri: Triangle): Weights
  {
    Weights(EdgeBias(tri.v0, tri.v1, tri.v2), EdgeBias(tri.v1, tri.v2, tri.v0), EdgeBias(tri.v2, tri.v0, tri.v1))
  }

  /** The coverage test and, for a covered sample, the shading. */
  method SampleFragment(tri: Triangle, bias: Weights, x: u16, y: u16, ghost shader: Shader)
    returns (fragment: Option<Fragment>)
    requires TexturesDefined(tri.regs) && bias == Biases(tri) && Shades(shader, tri)
    ensures fragment == shader(x, y)
  {
    var w0 := bias.w0 + Orient2d(tri.v1, tri.v2, Point(x, y));
    var w1 := bias.w1 + Orient2d(tri.v2, tri.v0, Point(x, y));
    var w2 := bias.w2 + Orient2d(tri.v0, tri.v1, Point(x, y));
    assert Weights(w0, w1, w2) == SampleWeights(tri.v0, tri.v1, tri.v2, Point(x, y));
    assert shader(x, y) == FragmentAt(tri, x, y) by {
      assert shader(x, y) == ShadeAt(tri, x, y);
    }
    if w0 < 0 || w1 < 0 || w2 < 0 {
      fragment := None;
    } else {
      var shaded := ShadeFragment(tri, Weights(w0, w1, w2));
      fragment := Some(shaded);
    }
  }

  /** The body of the inner loop: the fragment of sample (x, y), then the two buffer writes. */
  method ProcessSample(tri: Triangle, bias: Weights, x: u16, y: u16, colorBuffer: array<u32>, depthBuffer: array<u16>,
                       ghost scan: Scan, ghost shader: Shader)
    requires TexturesDefined(tri.regs) && bias == Biases(tri)
    requires scan.width == Width(tri) && Aligned(scan.box) && Shades(shader, tri)
    requires BoxFits(scan, colorBuffer.Length) && BoxFits(scan, depthBuffer.Length)
    requires InBox(scan, x, y)
    modifies colorBuffer, depthBuffer
    ensures Frame(colorBuffer[..], depthBuffer[..])
         == ApplySample(Frame(old(colorBuffer[..]), old(depthBuffer[..])), scan, shader, x, y)
    ensures RasterRow(Frame(colorBuffer[..], depthBuffer[..]), scan, shader, y, x + 16)
         == RasterRow(Frame(old(colorBuffer[..]), old(depthBuffer[..])), scan, shader, y, x)
  {
    SampleInBox(scan, x, y, colorBuffer.Length);
    SampleInBox(scan, x, y, depthBuffer.Length);
    var fragment := SampleFragment(tri, bias, x, y, shader);
    if fragment.Some? {
      SetDepth(depthBuffer, Width(tri), x / 16, y / 16, fragment.value.depth);
      DrawPixel(colorBuffer, Width(tri), x / 16, y / 16, fragment.value.color);
    }
  }

  /** The inner loop over the sample columns of row `y`. */
  method ProcessRow(tri: Triangle, bias: Weights, box: Box, y: u16, colorBuffer: array<u32>, depthBuffer: array<u16>,
                    ghost scan: Scan, ghost shader: Shader)
    requires TexturesDefined(tri.regs) && bias == Biases(tri)
    requires scan.width == Width(tri) && box == scan.box && Aligned(box) && Shades(shader, tri)
    requires BoxFits(scan, colorBuffer.Length) && BoxFits(scan, depthBuffer.Length)
    requires scan.box.minY <= y < scan.box.maxY
    modifies colorBuffer, depthBuffer
    ensures Frame(colorBuffer[..], depthBuffer[..])
         == RasterRow(Frame(old(colorBuffer[..]), old(depthBuffer[..])), scan, shader, y, scan.box.minX)
  {
    ghost var row := RasterRow(Frame(colorBuffer[..], depthBuffer[..]), scan, shader, y, box.minX);
    var x: u16 := box.minX;
    while x < box.maxX
      invariant box.minX <= x
      invariant RasterRow(Frame(colorBuffer[..], depthBuffer[..]), scan, shader, y, x) == row
      decreases box.maxX - x
    {
      ProcessSample(tri, bias, x, y, colorBuffer, depthBuffer, scan, shader);
      x := x + 0x10;
    }
  }

  /** Rasterizes one triangle into the colour and depth buffers, sample row by sample row. */
  method ProcessTriangle(tri: Triangle, colorBuffer: array<u32>, depthBuffer: array<u16>)
    requires TexturesDefined(tri.regs)
    requires BoxFits(ScanOf(tri), colorBuffer.Length) && BoxFits(ScanOf(tri), depthBuffer.Length)
    modifies colorBuffer, depthBuffer
    ensures Frame(colorBuffer[..], depthBuffer[..])
         == Rasterize(Frame(old(colorBuffer[..]), old(depthBuffer[..])), tri)
  {
    var box := BoundingBox(tri.v0, tri.v1, tri.v2);
    var bias := Weights(EdgeBias(tri.v0, tri.v1, tri.v2),
                        EdgeBias(tri.v1, tri.v2, tri.v0),
                        EdgeBias(tri.v2, tri.v0, tri.v1));
    ghost var scan, shader := ScanOf(tri), ShaderOf(tri);
    assert Shades(shader, tri);
    assert box == scan.box && Aligned(box);
    var y: u16 := box.minY;
    while y < box.maxY
      invariant box.minY <= y
      invariant RasterRows(Frame(colorBuffer[..], depthBuffer[..]), scan, shader, y)
             == Rasterize(Frame(old(colorBuffer[..]), old(depthBuffer[..])), tri)
      decreases box.maxY - y
    {
      ghost var before := Frame(colorBuffer[..], depthBuffer[..]);
      ProcessRow(tri, bias, box, y, colorBuffer, depthBuffer, scan, shader);
      assert RasterRows(before, scan, shader, y)
          == RasterRows(Frame(colorBuffer[..], depthBuffer[..]), scan, shader, y + 16);
      // the box ends at or below 0xFFF0, so the 16-bit counter never wraps
      y := y + 0x10;
    }
  }
}
