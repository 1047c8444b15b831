/** The pixel classification of a height map: each pixel of a width x height
    grid is coloured as sea, land (a green ramp) or snow (grey) from its
    quantised altitude, optionally with contour edges drawn in black. The
    altitude source is abstract; only its two quantisations are used, and they
    are parameters here. */
module MapImage {

  import opened JavaInt

  const SEA_LEVEL: int := 140
  const GREEN_RANGE: int := 150
  const SNOW_LINE: int := 190

  /** An altitude quantisation `(int)(getAltitude(x, y) * k)`: `* 256` for the
      pixel value, `* 25.6` for the contour probes. */
  type Quantised = (int, int) -> Int32

  lemma MulMonotone(a: int, b: int, w: nat)
    requires a <= b
    ensures a * w <= b * w
  {
  }

  /** The flat index of cell (x, y) in a row-major raster of width `w` and
      height `h`: every cell maps into the raster. */
  function Index(x: int, y: int, w: nat, h: nat): (k: nat)
    requires 0 <= x < w && 0 <= y < h
    ensures k < w * h
  {
    MulMonotone(y, h - 1, w);
    x + y * w
  }

  /** Distinct cells have distinct indices. */
  lemma IndexInjective(x1: int, y1: int, x2: int, y2: int, w: nat, h: nat)
    requires 0 <= x1 < w && 0 <= y1 < h
    requires 0 <= x2 < w && 0 <= y2 < h
    ensures Index(x1, y1, w, h) == Index(x2, y2, w, h) ==> x1 == x2 && y1 == y2
  {
    if y1 < y2 {
      MulMonotone(y1 + 1, y2, w);
    } else if y2 < y1 {
      MulMonotone(y2 + 1, y1, w);
    }
  }

  /** Every index of the raster belongs to some cell. */
  lemma IndexOnto(k: int, w: nat, h: nat)
    requires 0 <= k < w * h
    ensures w > 0 && 0 <= k % w < w && 0 <= k / w < h
    ensures Index(k % w, k / w, w, h) == k
  {
  }

  /** The green channel of a land pixel. */
  function LandGreen(val: int): (g: int)
    requires SEA_LEVEL <= val < SNOW_LINE
    ensures 75 <= g <= 222
  {
    JavaDiv((val - SEA_LEVEL) * GREEN_RANGE, SNOW_LINE - SEA_LEVEL) + GREEN_RANGE / 2
  }

  /** The colour of a pixel from its (possibly contour-rounded) value and edge
      flag: sea below SEA_LEVEL, land up to SNOW_LINE, snow above. */
  function Colour(val: Int32, edge: bool): Int32
  {
    if val < SEA_LEVEL then val
    else if val < SNOW_LINE then
      (if edge then 0 else ShiftLeft(LandGreen(val), 8))
    else if edge then 0
    else BitOr(BitOr(val, ShiftLeft(val, 8)), ShiftLeft(val, 16))
  }

  lemma SeaBand(val: Int32, edge: bool)
    requires val < SEA_LEVEL
    ensures Colour(val, edge) == val
  {
  }

  /** Land is a pure green channel in [75, 222]; an edge pixel is black. */
  lemma LandBand(val: Int32)
    requires SEA_LEVEL <= val < SNOW_LINE
    ensures Colour(val, false) == LandGreen(val) * 256
    ensures 75 <= LandGreen(val) <= 222
    ensures Colour(val, true) == 0
  {
  }

  /** Snow is grey: on the realistic range of values all three channels equal
      the value; an edge pixel is black. */
  lemma SnowBand(val: Int32)
    requires SNOW_LINE <= val
    ensures Colour(val, true) == 0
    ensures val < 256 ==> Colour(val, false) == val * 0x01_0101
  {
    if val < 256 {
      Pow2Values();
      var s8, s16 := val * 0x100, val * 0x1_0000;
      WrapInRange(s8);
      WrapInRange(s16);
      assert ShiftLeft(val, 8) == s8 && ShiftLeft(val, 16) == s16;
      OrBitsDisjoint(val, val, 8, 32);
      WrapInRange(val + s8);
      assert BitOr(val, s8) == val + s8;
      OrBitsDisjoint(val + s8, val, 16, 32);
      WrapInRange(val + s8 + s16);
    }
  }

  /** `val /= 10; ...; val *= 10` rounds toward zero to a multiple of 10
      without overflow, and, since both thresholds are multiples of 10, the
      rounded value falls in the same band (sea, land, snow) as `val`. */
  lemma ContourRounding(val: Int32)
    ensures -0x8000_0000 <= JavaDiv(val, 10) * 10 < 0x8000_0000
    ensures val >= 0 ==> 0 <= val - JavaDiv(val, 10) * 10 < 10
    ensures val < 0 ==> -10 < val - JavaDiv(val, 10) * 10 <= 0
    ensures (JavaDiv(val, 10) * 10 < SEA_LEVEL) == (val < SEA_LEVEL)
    ensures (JavaDiv(val, 10) * 10 < SNOW_LINE) == (val < SNOW_LINE)
  {
  }

  /** Whether the neighbour (x + i, y + j) is probed and its contour level
      differs from `level`. */
  predicate Probe(coarse: Quantised, w: int, h: int, x: int, y: int, level: int, i: int, j: int)
  {
    x + i < w && y + j < h && level != coarse(x + i, y + j)
  }

  /** Pixel (x, y) lies on a contour edge when some probed cell of the 2x2
      block starting at it, clipped to the image, has another contour level. */
  predicate IsEdge(coarse: Quantised, w: int, h: int, x: int, y: int, level: int)
  {
    exists i, j :: 0 <= i <= 1 && 0 <= j <= 1 && Probe(coarse, w, h, x, y, level, i, j)
  }

  /** The probes stay inside the image: the edge flag depends only on the
      contour levels of in-image cells. */
  lemma EdgeLocal(c1: Quantised, c2: Quantised, w: int, h: int, x: int, y: int, level: int)
    requires 0 <= x && 0 <= y
    requires forall a, b :: 0 <= a < w && 0 <= b < h ==> c1(a, b) == c2(a, b)
    ensures IsEdge(c1, w, h, x, y, level) <==> IsEdge(c2, w, h, x, y, level)
  {
    forall i, j | 0 <= i <= 1 && 0 <= j <= 1
      ensures Probe(c1, w, h, x, y, level, i, j) <==> Probe(c2, w, h, x, y, level, i, j)
    {
      if x + i < w && y + j < h {
        assert c1(x + i, y + j) == c2(x + i, y + j);
      }
    }
  }

  /** The value written for pixel (x, y). */
  function PixelAt(showContours: bool, fine: Quantised, coarse: Quantised, w: int, h: int, x: int, y: int): Int32
  {
    if showContours then
      var level := JavaDiv(fine(x, y), 10);
      Colour(level * 10, IsEdge(coarse, w, h, x, y, level))
    else
      Colour(fine(x, y), false)
  }

  /** Without contours there is no edge and the value is the quantised
      altitude itself. */
  lemma PlainPixel(fine: Quantised, coarse: Quantised, w: int, h: int, x: int, y: int)
    ensures PixelAt(false, fine, coarse, w, h, x, y) == Colour(fine(x, y), false)
    ensures fine(x, y) < SEA_LEVEL ==> PixelAt(false, fine, coarse, w, h, x, y) == fine(x, y)
  {
  }

  /** The neighbour scan of the contour test. `break` leaves only the inner
      loop, so every row of the block is scanned. */
  method ContourEdge(coarse: Quantised, w: int, h: int, x: int, y: int, level: int) returns (edge: bool)
    ensures edge <==> IsEdge(coarse, w, h, x, y, level)
  {
    edge := false;
    var i := 0;
    while i <= 1 && x + i < w
      invariant 0 <= i <= 2
      invariant edge <==> exists i', j' :: 0 <= i' < i && 0 <= j' <= 1 && Probe(coarse, w, h, x, y, level, i', j')
      decreases 2 - i
    {
      var j := 0;
      while j <= 1 && y + j < h
        invariant 0 <= j <= 2
        invariant edge <==> (exists i', j' :: 0 <= i' < i && 0 <= j' <= 1 && Probe(coarse, w, h, x, y, level, i', j'))
                            || (exists j' :: 0 <= j' < j && Probe(coarse, w, h, x, y, level, i, j'))
        decreases 2 - j
      {
        if level != coarse(x + i, y + j) {
          edge := true;
          assert Probe(coarse, w, h, x, y, level, i, j);
          break;
        }
        j := j + 1;
      }
      i := i + 1;
    }
  }

  /** The nested loop of `toImage`: fills a fresh width x height raster, one
      write per pixel. `writes` counts the writes to each cell. */
  method Render(w: nat, h: nat, showContours: bool, fine: Quantised, coarse: Quantised)
    returns (pixels: array<int>, ghost writes: seq<nat>)
    ensures pixels.Length == w * h && |writes| == w * h
    ensures forall x, y :: 0 <= x < w && 0 <= y < h ==>
              pixels[Index(x, y, w, h)] == PixelAt(showContours, fine, coarse, w, h, x, y)
    ensures forall k :: 0 <= k < w * h ==> writes[k] == 1
  {
    pixels := new int[w * h];
    writes := seq(w * h, _ => 0);
    for x := 0 to w
      invariant pixels.Length == w * h && |writes| == w * h
      invariant forall x', y' :: 0 <= x' < x && 0 <= y' < h ==>
                  pixels[Index(x', y', w, h)] == PixelAt(showContours, fine, coarse, w, h, x', y')
      invariant forall x', y' :: 0 <= x' < w && 0 <= y' < h ==>
                  writes[Index(x', y', w, h)] == if x' < x then 1 else 0
    {
      for y := 0 to h
        invariant pixels.Length == w * h && |writes| == w * h
        invariant forall x', y' :: 0 <= x' < x && 0 <= y' < h ==>
                    pixels[Index(x', y', w, h)] == PixelAt(showContours, fine, coarse, w, h, x', y')
        invariant forall y' :: 0 <= y' < y ==>
                    pixels[Index(x, y', w, h)] == PixelAt(showContours, fine, coarse, w, h, x, y')
        invariant forall x', y' :: 0 <= x' < w && 0 <= y' < h ==>
                    writes[Index(x', y', w, h)] == if x' < x || (x' == x && y' < y) then 1 else 0
      {
        var val: Int32 := fine(x, y);
        var edge := false;
        if showContours {
          val := JavaDiv(val, 10);
          edge := ContourEdge(coarse, w, h, x, y, val);
          val := val * 10;
        }
        var k := x + y * w;
        assert k == Index(x, y, w, h);
        forall x', y' | 0 <= x' < w && 0 <= y' < h && (x' != x || y' != y)
          ensures Index(x', y', w, h) != k
        {
          IndexInjective(x', y', x, y, w, h);
        }
        pixels[k] := Colour(val, edge);
        writes := writes[k := writes[k] + 1];
      }
    }
    forall k | 0 <= k < w * h
      ensures writes[k] == 1
    {
      IndexOnto(k, w, h);
    }
  }

  /** The destination raster: `setRGB(0, 0, w, h, pixels, 0, w)` stores
      pixel (x, y) at `Index(x, y, w, h)`. */
  class Image {
    const width: nat
    const height: nat
    var rgb: seq<int>

    method SetRGB(pixels: array<int>)
      requires pixels.Length == width * height
      modifies this
      ensures rgb == pixels[..]
    {
      rgb := pixels[..];
    }
  }

  /** Renders the map into `image` and hands back that same image. */
  method ToImage(image: Image, showContours: bool, fine: Quantised, coarse: Quantised) returns (r: Image)
    modifies image
    ensures r == image
    ensures |image.rgb| == image.width * image.height
    ensures forall x, y :: 0 <= x < image.width && 0 <= y < image.height ==>
              image.rgb[Index(x, y, image.width, image.height)] == PixelAt(showContours, fine, coarse, image.width, image.height, x, y)
  {
    var imgWidth := image.width;
    var imgHeight := image.height;
    var pixels, _ := Render(imgWidth, imgHeight, showContours, fine, coarse);
    image.SetRGB(pixels);
    return image;
  }
}
