/**
 `ComputeBasePointer` (backend/include/OpenEXR/ImfRgbaFile.h): the address a frame buffer is described
 by, computed with `int64_t *= size_t`, and the address formula it is meant for.  Addresses count
 pixels, as `Rgba*` arithmetic does.
 */
module BasePointer {

  const TWO31 := 0x8000_0000
  const TWO32 := 0x1_0000_0000
  const TWO63 := 0x8000_0000_0000_0000
  const TWO64 := 0x1_0000_0000_0000_0000

  type int32 = x: int | -0x8000_0000 <= x < 0x8000_0000
  type int64 = x: int | -0x8000_0000_0000_0000 <= x < 0x8000_0000_0000_0000
  type size_t = x: int | 0 <= x < 0x1_0000_0000_0000_0000

  function ToSize(x: int): size_t {
    x % TWO64
  }

  function ToInt64(x: int): int64 {
    var u := x % TWO64;
    if u < TWO63 then u else u - TWO64
  }

  /** `off *= stride`: the product is taken in `size_t` and converted back. */
  function MulAssign(off: int64, stride: size_t): int64 {
    ToInt64(ToSize(ToSize(off) * stride))
  }

  /**
   The overload with an origin: a zero `yStride` stands for `w`.  Modulo 2^64 the result is the address
   whose pixel (x, y) is `ptr`, and it is that address when both products fit in 64 signed bits.
   */
  method ComputeBase(ptr: int, x: int32, y: int32, w: int64, xStride: size_t, yStride: size_t) returns (base: int)
    ensures var rows := y * (if yStride == 0 then w else yStride);
            && (base - (ptr - x * xStride - rows)) % TWO64 == 0
            && (Fits(x * xStride) && Fits(rows) ==> base == ptr - x * xStride - rows)
    ensures base == Base(ptr, x, y, w, xStride, yStride)
  {
    var stride := yStride;
    if stride == 0 {
      stride := ToSize(w);
    }
    var offx: int64 := x;
    offx := MulAssign(offx, xStride);
    var offy: int64 := y;
    offy := MulAssign(offy, stride);
    base := ptr - offx - offy;
    BaseMeans(ptr, x, y, w, xStride, yStride);
  }

  predicate Fits(product: int) {
    -TWO63 <= product < TWO63
  }

  lemma BaseMeans(ptr: int, x: int32, y: int32, w: int64, xStride: size_t, yStride: size_t)
    ensures var base, rows := Base(ptr, x, y, w, xStride, yStride), y * (if yStride == 0 then w else yStride);
            && (base - (ptr - x * xStride - rows)) % TWO64 == 0
            && (Fits(x * xStride) && Fits(rows) ==> base == ptr - x * xStride - rows)
  {
    var k := ProductUpToWrap(x, xStride);
    var m := RowProductUpToWrap(y, w, yStride);
    var ys := if yStride == 0 then w else yStride;
    OffsetsMean(ptr, MulAssign(x, xStride), x * xStride, k, MulAssign(y, RowStride(w, yStride)), y * ys, m);
  }

  /** Two wrapped offsets are right modulo 2^64, and right if the true ones fit. */
  lemma OffsetsMean(ptr: int, a: int64, p: int, k: int, b: int64, q: int, m: int)
    requires a == p + TWO64 * k && b == q + TWO64 * m
    ensures (ptr - a - b - (ptr - p - q)) % TWO64 == 0
    ensures Fits(p) && Fits(q) ==> ptr - a - b == ptr - p - q
  {
    ModAdd(0, -k - m);
    assert ptr - a - b - (ptr - p - q) == 0 + TWO64 * (-k - m);
  }

  /** Also a negative width, converted to `size_t`, gives its rows up to a multiple of 2^64. */
  lemma RowProductUpToWrap(y: int32, w: int64, yStride: size_t) returns (m: int)
    ensures MulAssign(y, RowStride(w, yStride)) == y * (if yStride == 0 then w else yStride) + TWO64 * m
  {
    m := ProductUpToWrap(y, RowStride(w, yStride));
    if yStride == 0 && w < 0 {
      assert ToSize(w) == w + TWO64;
      assert y * (w + TWO64) == y * w + TWO64 * y;
      m := m + y;
    }
  }

  function RowStride(w: int64, yStride: size_t): size_t {
    if yStride == 0 then ToSize(w) else yStride
  }

  function Base(ptr: int, x: int32, y: int32, w: int64, xStride: size_t, yStride: size_t): int {
    ptr - MulAssign(x, xStride) - MulAssign(y, RowStride(w, yStride))
  }

  // ---------------------------------------------------------------------------------------------
  // The wrapped product
  // ---------------------------------------------------------------------------------------------

  lemma ModAdd(a: int, k: int)
    ensures (a + TWO64 * k) % TWO64 == a % TWO64
  {
  }

  /** The wrapped product differs from the true one by a multiple of 2^64. */
  lemma ProductUpToWrap(off: int64, stride: size_t) returns (k: int)
    ensures MulAssign(off, stride) == off * stride + TWO64 * k
  {
    // ToSize(off) is off or off + 2^64
    var u := ToSize(off);
    var lift := if off < 0 then 1 else 0;
    assert u == off + TWO64 * lift;
    assert u * stride == off * stride + TWO64 * (lift * stride) by {
      Distribute(off, TWO64 * lift, stride);
    }
    var p := u * stride;
    var q := ToSize(p);
    var m := p / TWO64;
    assert p == TWO64 * m + q;
    var drop := if q < TWO63 then 0 else 1;
    assert ToInt64(q) == q - TWO64 * drop;
    k := lift * stride - m - drop;
  }

  lemma Distribute(a: int, b: int, c: int)
    ensures (a + b) * c == a * c + b * c
  {
  }

  lemma DistributeMinus(a: int, b: int, c: int)
    ensures (a - b) * c == a * c - b * c
  {
  }

  /** The product is exact exactly when it fits in 64 signed bits. */
  lemma ProductExactIffItFits(off: int64, stride: size_t)
    ensures MulAssign(off, stride) == off * stride <==> Fits(off * stride)
  {
    var k := ProductUpToWrap(off, stride);
  }

  // ---------------------------------------------------------------------------------------------
  // The address formula
  // ---------------------------------------------------------------------------------------------

  /** Where the frame buffer says pixel (x, y) is. */
  function Address(base: int, x: int, y: int, xStride: int, yStride: int): int {
    base + x * xStride + y * yStride
  }

  /** Modulo 2^64 the formula finds every pixel, whatever the strides: the wraps cancel. */
  lemma AddressRightModulo(ptr: int, ox: int32, oy: int32, w: int64, xStride: size_t, yStride: size_t, x: int, y: int)
    ensures var ys := if yStride == 0 then w else yStride;
            (Address(Base(ptr, ox, oy, w, xStride, yStride), x, y, xStride, ys) -
             (ptr + (x - ox) * xStride + (y - oy) * ys)) % TWO64 == 0
  {
    var ys := if yStride == 0 then w else yStride;
    var k := ProductUpToWrap(ox, xStride);
    var m := RowProductUpToWrap(oy, w, yStride);
    DistributeMinus(x, ox, xStride);
    DistributeMinus(y, oy, ys);
    ModAdd(0, -k - m);
  }

  datatype Window = Window(minX: int32, minY: int32, maxX: int32, maxY: int32) {
    predicate NonEmpty() {
      minX <= maxX && minY <= maxY
    }

    function Width(): int {
      maxX - minX + 1
    }

    function Height(): int {
      maxY - minY + 1
    }

    predicate Contains(x: int, y: int) {
      minX <= x <= maxX && minY <= y <= maxY
    }
  }

  /** The overload with a data window: unit x stride, rows as wide as the window. */
  function WindowBase(ptr: int, win: Window): int {
    Base(ptr, win.minX, win.minY, win.Width(), 1, 0)
  }

  lemma ProductBounds(y: int, w: int)
    requires -TWO31 <= y < TWO31 && 0 <= w <= TWO32
    ensures -TWO63 <= y * w < TWO63
    ensures y * w == -TWO63 <==> y == -TWO31 && w == TWO32
  {
    if y >= 0 {
      MulMono(y, TWO31 - 1, w);
    } else {
      MulMono(-y, TWO31, w);
      assert (-y) * w == -(y * w);
      if w < TWO32 {
        assert TWO31 * w <= TWO31 * (TWO32 - 1);
      } else if y > -TWO31 {
        assert y * TWO32 >= (-TWO31 + 1) * TWO32;
      }
    }
  }

  lemma MulMono(a: int, b: int, w: int)
    requires 0 <= a <= b && 0 <= w
    ensures 0 <= a * w <= b * w
  {
    assert b * w == a * w + (b - a) * w;
    assert (b - a) * w >= 0 && a * w >= 0;
  }

  /**
   For every non-empty window with 32-bit corners nothing overflows, although the row product can
   reach -2^63, in one case only.
   */
  lemma WindowBaseIsExact(ptr: int, win: Window)
    requires win.NonEmpty()
    ensures WindowBase(ptr, win) == ptr - win.minX - win.minY * win.Width()
    ensures -TWO63 <= win.minY * win.Width() < TWO63
    ensures win.minY * win.Width() == -TWO63 <==> win.minY == -TWO31 && win.Width() == TWO32
  {
    var w := win.Width();
    ProductBounds(win.minY, w);
    ProductExactIffItFits(win.minX, 1);
    ProductExactIffItFits(win.minY, w);
    assert RowStride(w, 0) == w && win.minX * 1 == win.minX;
  }

  /** The element of the buffer that the formula gives for a pixel. */
  function Element(ptr: int, win: Window, x: int, y: int): int {
    Address(WindowBase(ptr, win), x, y, 1, win.Width()) - ptr
  }

  lemma ElementIsRowMajor(ptr: int, win: Window, x: int, y: int)
    requires win.NonEmpty()
    ensures Element(ptr, win, x, y) == (x - win.minX) + (y - win.minY) * win.Width()
  {
    WindowBaseIsExact(ptr, win);
    DistributeMinus(y, win.minY, win.Width());
  }

  /** Pixels of the window land inside a buffer of width * height elements. */
  lemma PixelsLandInside(ptr: int, win: Window, x: int, y: int)
    requires win.NonEmpty() && win.Contains(x, y)
    ensures 0 <= Element(ptr, win, x, y) < win.Width() * win.Height()
  {
    ElementIsRowMajor(ptr, win, x, y);
    RowMajorBounds(x - win.minX, y - win.minY, win.Width(), win.Height());
  }

  lemma RowMajorBounds(column: int, row: int, w: int, h: int)
    requires 0 <= column < w && 0 <= row < h
    ensures 0 <= column + row * w < w * h
  {
    MulMono(row, h - 1, w);
    Distribute(h - 1, 1, w);
  }

  /** Every element is some pixel's, and no two pixels share one. */
  lemma ElementsArePixels(ptr: int, win: Window, k: int) returns (x: int, y: int)
    requires win.NonEmpty() && 0 <= k < win.Width() * win.Height()
    ensures win.Contains(x, y) && Element(ptr, win, x, y) == k
  {
    var w, h := win.Width(), win.Height();
    x, y := win.minX + k % w, win.minY + k / w;
    DivMod(k, w);
    QuotientBelow(k, w, h);
    ElementIsRowMajor(ptr, win, x, y);
  }

  lemma DivMod(k: int, w: int)
    requires k >= 0 && w > 0
    ensures k == (k / w) * w + k % w && 0 <= k % w < w && 0 <= k / w
  {
  }

  lemma QuotientBelow(k: int, w: int, h: int)
    requires 0 <= k < w * h && w > 0
    ensures k / w < h
  {
    DivMod(k, w);
    if k / w >= h {
      MulMono(h, k / w, w);
    }
  }

  lemma PixelsAreDistinct(ptr: int, win: Window, x: int, y: int, x': int, y': int)
    requires win.NonEmpty() && win.Contains(x, y) && win.Contains(x', y')
    ensures Element(ptr, win, x, y) == Element(ptr, win, x', y') <==> x == x' && y == y'
  {
    ElementIsRowMajor(ptr, win, x, y);
    ElementIsRowMajor(ptr, win, x', y');
    var w := win.Width();
    DistributeMinus(y - win.minY, y' - win.minY, w);
    if y > y' {
      MulMono(1, y - y', w);
    } else if y < y' {
      MulMono(1, y' - y, w);
      assert (y' - y) * w == -((y - y') * w);
    }
  }

  /**
   The overload with a data window: for a non-empty window the base is exact, and the pixels of the
   window are addressed inside the buffer of width * height elements that starts at `ptr`.
   */
  method ComputeWindowBase(ptr: int, win: Window) returns (base: int)
    ensures base == WindowBase(ptr, win)
    ensures win.NonEmpty() ==> Address(base, win.minX, win.minY, 1, win.Width()) == ptr
    ensures win.NonEmpty() ==>
              forall x, y :: win.Contains(x, y) ==>
                ptr <= Address(base, x, y, 1, win.Width()) < ptr + win.Width() * win.Height()
  {
    base := ComputeBase(ptr, win.minX, win.minY, win.Width(), 1, 0);
    if win.NonEmpty() {
      WindowBaseIsExact(ptr, win);
      forall x, y | win.Contains(x, y)
        ensures ptr <= Address(base, x, y, 1, win.Width()) < ptr + win.Width() * win.Height()
      {
        PixelsLandInside(ptr, win, x, y);
      }
    }
  }
}
