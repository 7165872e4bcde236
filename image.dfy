/** The pixel grid of src/model/RGBALayerImage.java. An image never changes once
    built, so it is a value: a rectangular sequence of rows with at least one row
    and one column. The source's constructors and its combine fill Pixel[][]
    arrays in nested loops; the methods below do the same on two-dimensional
    arrays, with None standing for the null a fresh Java array holds. */
module Images {
  import opened Wrappers
  import opened Pixels

  predicate Rectangular(rows: seq<seq<Pixel>>) {
    && |rows| >= 1
    && |rows[0]| >= 1
    && forall i :: 0 <= i < |rows| ==> |rows[i]| == |rows[0]|
  }

  /** An RGBALayerImage: height >= 1 rows of the same width >= 1. */
  type Image = rows: seq<seq<Pixel>> | Rectangular(rows) witness [[Blank]]

  /** getHeight: the number of rows. */
  function Height(img: Image): (h: nat)
    ensures h >= 1 && h == |img|
  {
    |img|
  }

  /** getWidth: the length of the first row, which every row shares. */
  function Width(img: Image): (w: nat)
    ensures w >= 1
    ensures forall i :: 0 <= i < |img| ==> |img[i]| == w
  {
    |img[0]|
  }

  /** Two images with the same dimensions and the same pixels are the same image. */
  lemma SameImage(a: Image, b: Image)
    requires Height(a) == Height(b) && Width(a) == Width(b)
    requires forall i, j :: 0 <= i < Height(a) && 0 <= j < Width(a) ==> a[i][j] == b[i][j]
    ensures a == b
  {
    forall i | 0 <= i < Height(a)
      ensures a[i] == b[i]
    {
      assert |a[i]| == |b[i]| == Width(a);
    }
  }

  /** The image of the given size whose every pixel is the transparent white Blank. */
  function BlankImage(height: int, width: int): (img: Image)
    requires height >= 1 && width >= 1
    ensures Height(img) == height && Width(img) == width
    ensures forall i, j :: 0 <= i < height && 0 <= j < width ==> img[i][j] == Blank
  {
    seq(height, _ => seq(width, _ => Blank))
  }

  /** Every cell of an array holds a pixel. */
  predicate AllSet(a: array2<Option<Pixel>>)
    reads a
  {
    forall i, j :: 0 <= i < a.Length0 && 0 <= j < a.Length1 ==> a[i, j].Some?
  }

  /** The image an array of pixels describes, read row by row. */
  method Freeze(a: array2<Option<Pixel>>) returns (img: Image)
    requires a.Length0 >= 1 && a.Length1 >= 1 && AllSet(a)
    ensures Height(img) == a.Length0 && Width(img) == a.Length1
    ensures forall i, j :: 0 <= i < a.Length0 && 0 <= j < a.Length1 ==> a[i, j] == Some(img[i][j])
  {
    var rows: seq<seq<Pixel>> := [];
    for i := 0 to a.Length0
      invariant |rows| == i
      invariant forall p :: 0 <= p < i ==> |rows[p]| == a.Length1
      invariant forall p, q :: 0 <= p < i && 0 <= q < a.Length1 ==> a[p, q] == Some(rows[p][q])
    {
      var row: seq<Pixel> := [];
      for j := 0 to a.Length1
        invariant |row| == j
        invariant forall q :: 0 <= q < j ==> a[i, q] == Some(row[q])
      {
        row := row + [a[i, j].value];
      }
      rows := rows + [row];
    }
    img := rows;
  }

  /** new RGBALayerImage(height, width): IllegalArgumentException when either
      dimension is below 1; otherwise a fresh grid filled with Blank. */
  method NewBlank(height: int, width: int) returns (r: Result<Image>)
    ensures r.Err? <==> height < 1 || width < 1
    ensures r.Err? ==> r.error == IllegalArgument
    ensures r.Ok? ==> r.value == BlankImage(height, width)
  {
    if height < 1 {
      return Err(IllegalArgument);
    }
    if width < 1 {
      return Err(IllegalArgument);
    }
    var pixels := new Option<Pixel>[height, width]((_, _) => None);
    for i := 0 to height
      invariant forall p, q :: 0 <= p < height && 0 <= q < width ==>
                  pixels[p, q] == (if p < i then Some(Blank) else None)
    {
      for j := 0 to width
        invariant forall p, q :: 0 <= p < height && 0 <= q < width ==>
                    pixels[p, q] == (if p < i || (p == i && q < j) then Some(Blank) else None)
      {
        pixels[i, j] := Some(Make(255, 255, 255, 0));
      }
    }
    var img := Freeze(pixels);
    SameImage(img, BlankImage(height, width));
    return Ok(img);
  }

  /** new RGBALayerImage(pixels): IllegalArgumentException when there is no row,
      no column or a missing (null) pixel; otherwise the image of exactly those
      pixels. */
  method FromPixels(a: array2<Option<Pixel>>) returns (r: Result<Image>)
    ensures r.Err? <==> a.Length0 < 1 || a.Length1 < 1 || !AllSet(a)
    ensures r.Err? ==> r.error == IllegalArgument
    ensures r.Ok? ==> Height(r.value) == a.Length0 && Width(r.value) == a.Length1
    ensures r.Ok? ==> forall i, j :: 0 <= i < a.Length0 && 0 <= j < a.Length1 ==> a[i, j] == Some(r.value[i][j])
  {
    if a.Length0 < 1 {
      return Err(IllegalArgument);
    }
    if a.Length1 < 1 {
      return Err(IllegalArgument);
    }
    for i := 0 to a.Length0
      invariant forall p, q :: 0 <= p < i && 0 <= q < a.Length1 ==> a[p, q].Some?
    {
      for j := 0 to a.Length1
        invariant forall p, q :: 0 <= p < i && 0 <= q < a.Length1 ==> a[p, q].Some?
        invariant forall q :: 0 <= q < j ==> a[i, q].Some?
      {
        if a[i, j].None? {
          return Err(IllegalArgument);
        }
      }
    }
    var img := Freeze(a);
    return Ok(img);
  }

  /** getPixels: a fresh array holding the image's pixels. */
  method GetPixels(img: Image) returns (a: array2<Pixel>)
    ensures fresh(a)
    ensures a.Length0 == Height(img) && a.Length1 == Width(img)
    ensures forall i, j :: 0 <= i < Height(img) && 0 <= j < Width(img) ==> a[i, j] == img[i][j]
  {
    a := new Pixel[Height(img), Width(img)];
    for i := 0 to Height(img)
      invariant forall p, q :: 0 <= p < i && 0 <= q < Width(img) ==> a[p, q] == img[p][q]
    {
      for j := 0 to Width(img)
        invariant forall p, q :: 0 <= p < i && 0 <= q < Width(img) ==> a[p, q] == img[p][q]
        invariant forall q :: 0 <= q < j ==> a[i, q] == img[i][q]
      {
        a[i, j] := img[i][j];
      }
    }
  }

  /** new RGBALayerImage(img.getPixels()): a fresh copy, equal to the image. */
  method CopyImage(img: Image) returns (r: Image)
    ensures r == img
  {
    var pixels := GetPixels(img);
    var cells := new Option<Pixel>[pixels.Length0, pixels.Length1](
      (i, j) reads pixels requires 0 <= i < pixels.Length0 && 0 <= j < pixels.Length1 => Some(pixels[i, j]));
    var made := FromPixels(cells);
    assert made.Ok?;
    r := made.value;
    SameImage(r, img);
  }

  // ---------------------------------------------------------------------------
  // combine

  /** The overlaid image lies entirely inside the base image. */
  predicate Fits(base: Image, top: Image, startY: int, startX: int) {
    && 0 <= startY && startY + Height(top) <= Height(base)
    && 0 <= startX && startX + Width(top) <= Width(base)
  }

  /** Position (i, j) of the base lies under the overlaid image. */
  predicate InRegion(top: Image, startY: int, startX: int, i: int, j: int) {
    startY <= i < startY + Height(top) && startX <= j < startX + Width(top)
  }

  /** The pixel at (i, j) of the combined image. */
  function OverlayCell(base: Image, top: Image, startY: int, startX: int, i: int, j: int): Pixel
    requires Fits(base, top, startY, startX)
    requires 0 <= i < Height(base) && 0 <= j < Width(base)
  {
    if InRegion(top, startY, startX, i, j) then Combine(base[i][j], top[i - startY][j - startX])
    else base[i][j]
  }

  /** `top` composited over `base` with its corner at row startY, column startX:
      inside the region every pixel is the base pixel combined with the top one
      above it, and outside it the base pixel is kept. */
  function Overlay(base: Image, top: Image, startY: int, startX: int): (r: Image)
    requires Fits(base, top, startY, startX)
    ensures Height(r) == Height(base) && Width(r) == Width(base)
    ensures forall i, j :: 0 <= i < Height(base) && 0 <= j < Width(base) && InRegion(top, startY, startX, i, j) ==>
              r[i][j] == Combine(base[i][j], top[i - startY][j - startX])
    ensures forall i, j :: 0 <= i < Height(base) && 0 <= j < Width(base) && !InRegion(top, startY, startX, i, j) ==>
              r[i][j] == base[i][j]
  {
    seq(Height(base), i requires 0 <= i < Height(base) =>
      seq(Width(base), j requires 0 <= j < Width(base) => OverlayCell(base, top, startY, startX, i, j)))
  }

  /** The first pass of combine: every cell of the overlay region receives the
      base pixel combined with the top pixel above it; the other cells stay empty. */
  method PaintRegion(resultPixels: array2<Option<Pixel>>, base: Image, thatPixels: array2<Pixel>,
                     ghost top: Image, startY: int, startX: int)
    requires Fits(base, top, startY, startX)
    requires resultPixels.Length0 == Height(base) && resultPixels.Length1 == Width(base)
    requires thatPixels.Length0 == Height(top) && thatPixels.Length1 == Width(top)
    requires forall i, j :: 0 <= i < Height(top) && 0 <= j < Width(top) ==> thatPixels[i, j] == top[i][j]
    requires forall p, q :: 0 <= p < Height(base) && 0 <= q < Width(base) ==> resultPixels[p, q].None?
    modifies resultPixels
    ensures forall p, q :: 0 <= p < Height(base) && 0 <= q < Width(base) ==>
              resultPixels[p, q] == (if InRegion(top, startY, startX, p, q)
                                     then Some(Combine(base[p][q], top[p - startY][q - startX])) else None)
  {
    for i := 0 to thatPixels.Length0
      invariant forall p, q :: 0 <= p < Height(base) && 0 <= q < Width(base) ==>
                  resultPixels[p, q] ==
                    (if startY <= p < startY + i && startX <= q < startX + Width(top)
                     then Some(Combine(base[p][q], top[p - startY][q - startX])) else None)
    {
      for j := 0 to thatPixels.Length1
        invariant forall p, q :: 0 <= p < Height(base) && 0 <= q < Width(base) ==>
                    resultPixels[p, q] ==
                      (if (startY <= p < startY + i && startX <= q < startX + Width(top))
                          || (p == startY + i && startX <= q < startX + j)
                       then Some(Combine(base[p][q], top[p - startY][q - startX])) else None)
      {
        resultPixels[i + startY, j + startX] := Some(Combine(base[i + startY][j + startX], thatPixels[i, j]));
      }
    }
  }

  /** The second pass of combine: every cell still empty receives the base pixel. */
  method FillRest(resultPixels: array2<Option<Pixel>>, base: Image)
    requires resultPixels.Length0 == Height(base) && resultPixels.Length1 == Width(base)
    modifies resultPixels
    ensures forall p, q :: 0 <= p < Height(base) && 0 <= q < Width(base) ==>
              resultPixels[p, q] == (if old(resultPixels[p, q]).Some? then old(resultPixels[p, q])
                                     else Some(base[p][q]))
  {
    for i := 0 to Height(base)
      invariant forall p, q :: 0 <= p < Height(base) && 0 <= q < Width(base) ==>
                  resultPixels[p, q] ==
                    (if p < i && old(resultPixels[p, q]).None? then Some(base[p][q])
                     else old(resultPixels[p, q]))
    {
      for j := 0 to Width(base)
        invariant forall p, q :: 0 <= p < Height(base) && 0 <= q < Width(base) ==>
                    resultPixels[p, q] ==
                      (if (p < i || (p == i && q < j)) && old(resultPixels[p, q]).None? then Some(base[p][q])
                       else old(resultPixels[p, q]))
      {
        if resultPixels[i, j].None? {
          resultPixels[i, j] := Some(base[i][j]);
        }
      }
    }
  }

  /** combine(that, startY, startX): IllegalArgumentException unless `that` fits
      inside this image at the offset; otherwise the overlaid image. The overlay
      region is written first, and a second pass copies the base pixel into every
      cell still empty. */
  method CombineImages(base: Image, top: Image, startY: int, startX: int) returns (r: Result<Image>)
    ensures r.Err? <==> !Fits(base, top, startY, startX)
    ensures r.Err? ==> r.error == IllegalArgument
    ensures r.Ok? ==> r.value == Overlay(base, top, startY, startX)
  {
    var thatPixels := GetPixels(top);
    var resultPixels := new Option<Pixel>[Height(base), Width(base)]((_, _) => None);
    if startY < 0 || startY + thatPixels.Length0 > Height(base) {
      return Err(IllegalArgument);
    }
    if startX < 0 || startX + thatPixels.Length1 > Width(base) {
      return Err(IllegalArgument);
    }
    PaintRegion(resultPixels, base, thatPixels, top, startY, startX);
    FillRest(resultPixels, base);
    var made := FromPixels(resultPixels);
    assert made.Ok?;
    SameImage(made.value, Overlay(base, top, startY, startX));
    return made;
  }

  // ---------------------------------------------------------------------------
  // Properties of combine

  /** An opaque image placed over any base shows exactly its own colours in the
      region it covers. */
  lemma OverlayOpaqueCovers(base: Image, top: Image, startY: int, startX: int)
    requires Fits(base, top, startY, startX)
    requires forall i, j :: 0 <= i < Height(top) && 0 <= j < Width(top) ==> top[i][j].alpha == MAX
    ensures forall i, j :: 0 <= i < Height(top) && 0 <= j < Width(top) ==>
              Overlay(base, top, startY, startX)[i + startY][j + startX] == top[i][j]
  {
    var r := Overlay(base, top, startY, startX);
    forall i, j | 0 <= i < Height(top) && 0 <= j < Width(top)
      ensures r[i + startY][j + startX] == top[i][j]
    {
      assert InRegion(top, startY, startX, i + startY, j + startX);
    }
  }

  /** Combining onto a blank image: the result shows every pixel of `top` that is
      not fully transparent, turns the fully transparent ones into (0, 0, 0, 0),
      and keeps Blank outside the region. */
  lemma OverlayOnBlank(height: int, width: int, top: Image, startY: int, startX: int)
    requires height >= 1 && width >= 1
    requires Fits(BlankImage(height, width), top, startY, startX)
    ensures var r := Overlay(BlankImage(height, width), top, startY, startX);
            forall i, j :: 0 <= i < height && 0 <= j < width ==>
              r[i][j] == (if !InRegion(top, startY, startX, i, j) then Blank
                          else if top[i - startY][j - startX].alpha == 0 then Pixel(0, 0, 0, 0)
                          else top[i - startY][j - startX])
  {
    var r := Overlay(BlankImage(height, width), top, startY, startX);
    forall i, j | 0 <= i < height && 0 <= j < width && InRegion(top, startY, startX, i, j)
      ensures r[i][j] == (if top[i - startY][j - startX].alpha == 0 then Pixel(0, 0, 0, 0)
                          else top[i - startY][j - startX])
    {
      CombineOverTransparent(Blank, top[i - startY][j - startX]);
    }
  }

  /** The combine vector of the image tests: a 2 x 2 image placed at (1, 1) on a
      3 x 3 blank image. */
  lemma CombineExample()
    ensures var small := [[Pixel(255, 255, 255, 255), Pixel(134, 122, 3, 5)],
                          [Pixel(0, 0, 0, 0), Pixel(10, 220, 40, 65)]];
            Overlay(BlankImage(3, 3), small, 1, 1) ==
              [[Blank, Blank, Blank],
               [Blank, Pixel(255, 255, 255, 255), Pixel(134, 122, 3, 5)],
               [Blank, Pixel(0, 0, 0, 0), Pixel(10, 220, 40, 65)]]
  {
    var small: Image := [[Pixel(255, 255, 255, 255), Pixel(134, 122, 3, 5)],
                         [Pixel(0, 0, 0, 0), Pixel(10, 220, 40, 65)]];
    var expected: Image := [[Blank, Blank, Blank],
                            [Blank, Pixel(255, 255, 255, 255), Pixel(134, 122, 3, 5)],
                            [Blank, Pixel(0, 0, 0, 0), Pixel(10, 220, 40, 65)]];
    OverlayOnBlank(3, 3, small, 1, 1);
    SameImage(Overlay(BlankImage(3, 3), small, 1, 1), expected);
  }
}
