/** The two text parsers of src/model/RGBACollager.java: the "C1" project text
    read by loadProject and the "P3" image text read by addImage(String). Both
    read tokens from a Scanner one at a time; the scanner's state is the list of
    tokens not yet read. The token-level functions say what the nested loops
    compute, and the methods are those loops. */
module Readers {
  import opened Wrappers
  import opened Pixels
  import opened Images
  import opened Tokens

  /** How a pixel is written: how many ints it takes and the constructor they
      are given to. */
  datatype Format = Format(arity: nat, make: seq<int> -> Result<Pixel>)

  /** Project text: four ints through the five-argument constructor with the
      file's maximum value. */
  function Quadruple(maxValue: int): Format {
    Format(4, (c: seq<int>) => if |c| == 4 then FromScaled(c[0], c[1], c[2], c[3], maxValue) else Err(Malformed))
  }

  /** Image text: three ints through the four-argument constructor. */
  function Triple(maxValue: int): Format {
    Format(3, (c: seq<int>) => if |c| == 3 then FromRGB(c[0], c[1], c[2], maxValue) else Err(Malformed))
  }

  /** k nextInt calls in a row. */
  function ReadInts(rest: seq<string>, k: nat): (r: Result<(seq<int>, seq<string>)>)
    ensures r.Ok? ==> |r.value.0| == k && k <= |rest| && r.value.1 == rest[k..]
    ensures r.Err? ==> r.error == Malformed
  {
    if k == 0 then Ok(([], rest))
    else
      var first :- NextInt(rest);
      var more :- ReadInts(first.1, k - 1);
      Ok(([first.0] + more.0, more.1))
  }

  /** Reading one pixel: its ints, then the constructor. */
  function ReadPixel(fmt: Format, rest: seq<string>): (r: Result<(Pixel, seq<string>)>)
    ensures r.Ok? ==> fmt.arity <= |rest| && r.value.1 == rest[fmt.arity..]
  {
    var ints :- ReadInts(rest, fmt.arity);
    var p :- fmt.make(ints.0);
    Ok((p, ints.1))
  }

  /** One pixel read from the tokens not yet read, and the tokens left after it. */
  type PixelReader = seq<string> -> Result<(Pixel, seq<string>)>

  /** The reader of a format: ReadPixel with that format. */
  function Reader(fmt: Format): (read: PixelReader)
    ensures forall rest :: read(rest) == ReadPixel(fmt, rest)
  {
    rest => ReadPixel(fmt, rest)
  }

  /** The inner loop: n pixels of one row, read left to right. */
  function ReadRow(read: PixelReader, rest: seq<string>, n: nat): (r: Result<(seq<Pixel>, seq<string>)>)
    ensures r.Ok? ==> |r.value.0| == n
  {
    if n == 0 then Ok(([], rest))
    else
      var prev :- ReadRow(read, rest, n - 1);
      var p :- read(prev.1);
      Ok((prev.0 + [p.0], p.1))
  }

  /** The outer loop: h rows of w pixels, read top to bottom. */
  function ReadGrid(read: PixelReader, rest: seq<string>, h: nat, w: nat): (r: Result<(seq<seq<Pixel>>, seq<string>)>)
    ensures r.Ok? ==> |r.value.0| == h
    ensures r.Ok? ==> forall i :: 0 <= i < h ==> |r.value.0[i]| == w
  {
    if h == 0 then Ok(([], rest))
    else
      var prev :- ReadGrid(read, rest, h - 1, w);
      var row :- ReadRow(read, prev.1, w);
      Ok((prev.0 + [row.0], row.1))
  }

  /** Reading a row with a format's reader consumes its tokens from the front. */
  lemma {:induction false} RowShrinks(fmt: Format, rest: seq<string>, n: nat)
    ensures ReadRow(Reader(fmt), rest, n).Ok? ==> |ReadRow(Reader(fmt), rest, n).value.1| <= |rest|
  {
    if n > 0 {
      RowShrinks(fmt, rest, n - 1);
    }
  }

  /** So does reading a grid. */
  lemma {:induction false} GridShrinks(fmt: Format, rest: seq<string>, h: nat, w: nat)
    ensures ReadGrid(Reader(fmt), rest, h, w).Ok? ==> |ReadGrid(Reader(fmt), rest, h, w).value.1| <= |rest|
  {
    if h > 0 {
      GridShrinks(fmt, rest, h - 1, w);
      var prev := ReadGrid(Reader(fmt), rest, h - 1, w);
      if prev.Ok? {
        RowShrinks(fmt, prev.value.1, w);
      }
    }
  }

  /** The first failing pixel decides: once a row fails, reading more of it
      fails with the same error. */
  lemma {:induction false} RowFailureSticks(read: PixelReader, rest: seq<string>, m: nat, n: nat)
    requires m <= n && ReadRow(read, rest, m).Err?
    ensures ReadRow(read, rest, n) == ReadRow(read, rest, m)
    decreases n - m
  {
    if m < n {
      RowFailureSticks(read, rest, m, n - 1);
      var prev := ReadRow(read, rest, n - 1);
      assert prev.Err?;
      assert ReadRow(read, rest, n) == Err(prev.error);
    }
  }

  /** Likewise for rows: once a row fails the grid fails with its error. */
  lemma {:induction false} GridFailureSticks(read: PixelReader, rest: seq<string>, m: nat, n: nat, w: nat)
    requires m <= n && ReadGrid(read, rest, m, w).Err?
    ensures ReadGrid(read, rest, n, w) == ReadGrid(read, rest, m, w)
    decreases n - m
  {
    if m < n {
      GridFailureSticks(read, rest, m, n - 1, w);
    }
  }

  /** The nested pixel loops of loadProject and addImage(String), filling the
      array `new Pixel[height][width]` row by row. On success every cell holds
      the pixel the grid specification reads; on failure the error is that of
      the first pixel that fails. */
  method ReadGridInto(cells: array2<Option<Pixel>>, read: PixelReader, tokens: seq<string>)
    returns (r: Result<seq<string>>)
    modifies cells
    ensures var g := ReadGrid(read, tokens, cells.Length0, cells.Length1);
            && (r.Ok? <==> g.Ok?)
            && (r.Err? ==> r.error == g.error)
            && (r.Ok? ==> r.value == g.value.1 &&
                          forall i, j :: 0 <= i < cells.Length0 && 0 <= j < cells.Length1 ==>
                            cells[i, j] == Some(g.value.0[i][j]))
  {
    var rest := tokens;
    ghost var rows: seq<seq<Pixel>> := [];
    for i := 0 to cells.Length0
      invariant ReadGrid(read, tokens, i, cells.Length1) == Ok((rows, rest))
      invariant Stored(cells, rows, i)
    {
      var next, row := ReadRowInto(cells, i, read, rest);
      if next.Err? {
        GridFailureSticks(read, tokens, i + 1, cells.Length0, cells.Length1);
        return Err(next.error);
      }
      rows := rows + [row];
      rest := next.value;
    }
    return Ok(rest);
  }

  /** The first n rows of `cells` hold the pixels of `rows`. */
  ghost predicate Stored(cells: array2<Option<Pixel>>, rows: seq<seq<Pixel>>, n: nat)
    reads cells
  {
    && n <= |rows| && n <= cells.Length0
    && forall p, q :: 0 <= p < n && 0 <= q < cells.Length1 ==> q < |rows[p]| && cells[p, q] == Some(rows[p][q])
  }

  /** The inner loop of ReadGridInto: row i of `cells` receives the pixels read
      from `rowStart`, left to right; the other rows keep what they held. On
      failure the error is that of the first pixel that fails. */
  method ReadRowInto(cells: array2<Option<Pixel>>, i: nat, read: PixelReader, rowStart: seq<string>)
    returns (r: Result<seq<string>>, ghost row: seq<Pixel>)
    requires i < cells.Length0
    modifies cells
    ensures var g := ReadRow(read, rowStart, cells.Length1);
            && (r.Ok? <==> g.Ok?)
            && (r.Err? ==> r.error == g.error)
            && (r.Ok? ==> g.value == (row, r.value) &&
                          forall q :: 0 <= q < cells.Length1 ==> cells[i, q] == Some(row[q]))
    ensures forall p, q :: 0 <= p < cells.Length0 && p != i && 0 <= q < cells.Length1 ==>
              cells[p, q] == old(cells[p, q])
  {
    var rest := rowStart;
    row := [];
    for j := 0 to cells.Length1
      invariant ReadRow(read, rowStart, j) == Ok((row, rest))
      invariant forall q :: 0 <= q < j ==> cells[i, q] == Some(row[q])
      invariant forall p, q :: 0 <= p < cells.Length0 && p != i && 0 <= q < cells.Length1 ==>
                  cells[p, q] == old(cells[p, q])
    {
      var px := read(rest);
      if px.Err? {
        RowFailureSticks(read, rowStart, j + 1, cells.Length1);
        return Err(px.error), row;
      }
      cells[i, j] := Some(px.value.0);
      row := row + [px.value.0];
      rest := px.value.1;
    }
    return Ok(rest), row;
  }

  // ---------------------------------------------------------------------------
  // The project text

  /** One layer as the project text gives it: a name, a filter name (not yet
      looked up) and the pixels. */
  datatype LayerEntry = LayerEntry(name: string, filter: string, image: Image)

  /** A parsed project text: the canvas size and the layers in file order. */
  datatype Collage = Collage(height: int, width: int, layers: seq<LayerEntry>)

  /** One pass of the `while (sc.hasNext())` loop of loadProject, once the
      pixel array `new Pixel[height][width]` exists: the layer name, the filter
      name, height x width pixels, and the image built from them (an empty grid is
      rejected). */
  function ReadEntry(rest: seq<string>, height: nat, width: nat, fmt: Format): (r: Result<(LayerEntry, seq<string>)>)
    requires rest != []
    ensures r.Ok? ==> |r.value.1| < |rest|
    ensures r.Ok? ==> Height(r.value.0.image) == height && Width(r.value.0.image) == width
    ensures r.Ok? ==> r.value.0.name == rest[0]
  {
    var filter :- Next(rest[1..]);
    var grid :- ReadGrid(Reader(fmt), filter.1, height, width);
    GridShrinks(fmt, filter.1, height, width);
    if height == 0 || width == 0 then Err(IllegalArgument)
    else
      assert Rectangular(grid.0);
      Ok((LayerEntry(rest[0], filter.0, grid.0), grid.1))
  }

  /** The whole loop: while a token is left, allocate the pixel array (a negative
      size fails) and read one layer. */
  function ReadLayers(rest: seq<string>, height: int, width: int, fmt: Format): (r: Result<seq<LayerEntry>>)
    ensures r.Ok? ==> forall k :: 0 <= k < |r.value| ==>
                        Height(r.value[k].image) == height && Width(r.value[k].image) == width
    decreases |rest|
  {
    if rest == [] then Ok([])
    else if height < 0 || width < 0 then Err(Malformed)
    else
      var entry :- ReadEntry(rest, height, width, fmt);
      var more :- ReadLayers(entry.1, height, width, fmt);
      Ok([entry.0] + more)
  }

  /** What loadProject reads before it touches the project: the token "C1", the
      width, the height and the maximum value, then the layers. */
  function ParseCollage(tokens: seq<string>): (r: Result<Collage>)
    ensures r.Ok? ==> forall k :: 0 <= k < |r.value.layers| ==>
                        Height(r.value.layers[k].image) == r.value.height &&
                        Width(r.value.layers[k].image) == r.value.width
    ensures |tokens| >= 1 && tokens[0] != "C1" ==> r == Err(IllegalArgument)
  {
    var magic :- Next(tokens);
    if magic.0 != "C1" then Err(IllegalArgument)
    else
      var width :- NextInt(magic.1);
      var height :- NextInt(width.1);
      var maxValue :- NextInt(height.1);
      var layers :- ReadLayers(maxValue.1, height.0, width.0, Quadruple(maxValue.0));
      Ok(Collage(height.0, width.0, layers))
  }

  /** Layers read so far, in front of the outcome of reading the rest. */
  function Glue(done: seq<LayerEntry>, r: Result<seq<LayerEntry>>): Result<seq<LayerEntry>> {
    match r
    case Ok(more) => Ok(done + more)
    case Err(e) => Err(e)
  }

  /** Gluing in two steps is gluing once. */
  lemma GlueTwice(done: seq<LayerEntry>, entry: LayerEntry, r: Result<seq<LayerEntry>>)
    ensures Glue(done, Glue([entry], r)) == Glue(done + [entry], r)
  {
    if r.Ok? {
      assert done + ([entry] + r.value) == (done + [entry]) + r.value;
    }
  }

  /** The body of the loop of loadProject: one layer read into a fresh array. */
  method ReadLayerEntry(rest: seq<string>, height: nat, width: nat, fmt: Format)
    returns (r: Result<(LayerEntry, seq<string>)>)
    requires rest != []
    ensures r == ReadEntry(rest, height, width, fmt)
  {
    var cells := new Option<Pixel>[height, width]((i, j) => None);
    var name := rest[0];
    var filter :- Next(rest[1..]);
    var after :- ReadGridInto(cells, Reader(fmt), filter.1);
    var img :- FromPixels(cells);
    SameImage(img, ReadGrid(Reader(fmt), filter.1, height, width).value.0);
    return Ok((LayerEntry(name, filter.0, img), after));
  }

  /** The `while (sc.hasNext())` loop of loadProject (src/model/RGBACollager.java:103-123). */
  method ReadLayerLoop(tokens: seq<string>, height: int, width: int, fmt: Format)
    returns (r: Result<seq<LayerEntry>>)
    ensures r == ReadLayers(tokens, height, width, fmt)
  {
    var rest := tokens;
    var layers: seq<LayerEntry> := [];
    if ReadLayers(tokens, height, width, fmt).Ok? {
      assert [] + ReadLayers(tokens, height, width, fmt).value == ReadLayers(tokens, height, width, fmt).value;
    }
    while rest != []
      invariant ReadLayers(tokens, height, width, fmt) == Glue(layers, ReadLayers(rest, height, width, fmt))
      decreases |rest|
    {
      if height < 0 || width < 0 {
        return Err(Malformed);
      }
      var entry :- ReadLayerEntry(rest, height, width, fmt);
      GlueTwice(layers, entry.0, ReadLayers(entry.1, height, width, fmt));
      layers := layers + [entry.0];
      rest := entry.1;
    }
    assert layers + [] == layers;
    return Ok(layers);
  }

  /** The parsing half of loadProject (src/model/RGBACollager.java:87-123). */
  method ReadCollage(contents: string) returns (r: Result<Collage>)
    ensures r == ParseCollage(Tokenize(contents))
  {
    var tokens := Tokenize(contents);
    var magic :- Next(tokens);
    if magic.0 != "C1" {
      return Err(IllegalArgument);
    }
    var width :- NextInt(magic.1);
    var height :- NextInt(width.1);
    var maxValue :- NextInt(height.1);
    var layers :- ReadLayerLoop(maxValue.1, height.0, width.0, Quadruple(maxValue.0));
    return Ok(Collage(height.0, width.0, layers));
  }

  // ---------------------------------------------------------------------------
  // The image text

  /** What addImage(String) reads: the token "P3", the width, the height and the
      maximum value, then height x width triples; an empty grid is rejected when
      the image is built. Tokens after the last triple are ignored. */
  function ParsePpm(tokens: seq<string>): (r: Result<Image>)
    ensures |tokens| >= 1 && tokens[0] != "P3" ==> r == Err(IllegalArgument)
  {
    var magic :- Next(tokens);
    if magic.0 != "P3" then Err(IllegalArgument)
    else
      var width :- NextInt(magic.1);
      var height :- NextInt(width.1);
      var maxValue :- NextInt(height.1);
      if height.0 < 0 || width.0 < 0 then Err(Malformed)
      else
        var grid :- ReadGrid(Reader(Triple(maxValue.0)), maxValue.1, height.0, width.0);
        if height.0 == 0 || width.0 == 0 then Err(IllegalArgument)
        else
          assert Rectangular(grid.0);
          Ok(grid.0)
  }

  /** The image text has no alpha channel: every pixel read from it is opaque. */
  lemma PpmOpaque(tokens: seq<string>)
    ensures ParsePpm(tokens).Ok? ==>
              var img := ParsePpm(tokens).value;
              forall i, j :: 0 <= i < Height(img) && 0 <= j < Width(img) ==> img[i][j].alpha == MAX
  {
    var r := ParsePpm(tokens);
    if r.Ok? {
      var magic := Next(tokens).value;
      var width := NextInt(magic.1).value;
      var height := NextInt(width.1).value;
      var maxValue := NextInt(height.1).value;
      TripleMakesOpaque(maxValue.0);
      ReaderOpaque(Triple(maxValue.0));
      GridOpaque(Reader(Triple(maxValue.0)), maxValue.1, height.0, width.0);
      assert r.value == ReadGrid(Reader(Triple(maxValue.0)), maxValue.1, height.0, width.0).value.0;
    }
  }

  /** Every pixel the format's constructor builds is opaque. */
  ghost predicate MakesOpaque(fmt: Format) {
    forall c :: fmt.make(c).Ok? ==> fmt.make(c).value.alpha == MAX
  }

  /** The four-argument constructor builds opaque pixels. */
  lemma TripleMakesOpaque(maxValue: int)
    ensures MakesOpaque(Triple(maxValue))
  {
  }

  /** Every pixel the reader reads is opaque. */
  ghost predicate ReadsOpaque(read: PixelReader) {
    forall rest :: read(rest).Ok? ==> read(rest).value.0.alpha == MAX
  }

  /** The reader of a format whose constructor builds opaque pixels reads
      opaque pixels. */
  lemma ReaderOpaque(fmt: Format)
    requires MakesOpaque(fmt)
    ensures ReadsOpaque(Reader(fmt))
  {
  }

  /** A row read by such a reader is opaque. */
  lemma {:induction false} RowOpaque(read: PixelReader, rest: seq<string>, n: nat)
    requires ReadsOpaque(read)
    ensures ReadRow(read, rest, n).Ok? ==> forall j :: 0 <= j < n ==> ReadRow(read, rest, n).value.0[j].alpha == MAX
  {
    if n > 0 {
      RowOpaque(read, rest, n - 1);
    }
  }

  /** So is a grid. */
  lemma {:induction false} GridOpaque(read: PixelReader, rest: seq<string>, h: nat, w: nat)
    requires ReadsOpaque(read)
    ensures ReadGrid(read, rest, h, w).Ok? ==>
              forall i, j :: 0 <= i < h && 0 <= j < w ==> ReadGrid(read, rest, h, w).value.0[i][j].alpha == MAX
  {
    if h > 0 {
      GridOpaque(read, rest, h - 1, w);
      var prev := ReadGrid(read, rest, h - 1, w);
      var r := ReadGrid(read, rest, h, w);
      if r.Ok? {
        assert prev.Ok?;
        var row := ReadRow(read, prev.value.1, w);
        assert row.Ok?;
        RowOpaque(read, prev.value.1, w);
        assert r.value.0 == prev.value.0 + [row.value.0];
        forall i, j | 0 <= i < h && 0 <= j < w
          ensures r.value.0[i][j].alpha == MAX
        {
          if i < h - 1 {
            assert r.value.0[i] == prev.value.0[i];
            assert prev.value.0[i][j].alpha == MAX;
          } else {
            assert r.value.0[i] == row.value.0;
            assert row.value.0[j].alpha == MAX;
          }
        }
      }
    }
  }

  /** The parsing half of addImage(String) (src/model/RGBACollager.java:188-216). */
  method ReadPpm(contents: string) returns (r: Result<Image>)
    ensures r == ParsePpm(Tokenize(contents))
  {
    var tokens := Tokenize(contents);
    var magic :- Next(tokens);
    if magic.0 != "P3" {
      return Err(IllegalArgument);
    }
    var width :- NextInt(magic.1);
    var height :- NextInt(width.1);
    var maxValue :- NextInt(height.1);
    var h, w, max := height.0, width.0, maxValue.0;
    if h < 0 || w < 0 {
      return Err(Malformed);
    }
    var cells := new Option<Pixel>[h, w]((i, j) => None);
    var after :- ReadGridInto(cells, Reader(Triple(max)), maxValue.1);
    r := FromPixels(cells);
    if r.Ok? {
      SameImage(r.value, ReadGrid(Reader(Triple(max)), maxValue.1, h, w).value.0);
    }
  }
}
