/** What the writers of src/controller/utils/ImageUtil.java and the readers of
    src/model/RGBACollager.java promise each other: the text saveImage writes
    for an opaque image is read back by addImage(String) as that image, and the
    text saveCollage writes for a project is read back by loadProject as that
    project. The proofs go through the tokens a Scanner sees in each text. */
module RoundTrips {
  import opened Wrappers
  import opened Pixels
  import opened Images
  import opened Tokens
  import opened FilterNames
  import opened Layers
  import opened Readers
  import opened Codec
  import opened Collagers

  // ---------------------------------------------------------------------------
  // Tokens of written text

  /** The tokens of the elements of a list, one after the other. */
  function Flat<T>(xs: seq<T>, toks: T -> seq<string>): seq<string> {
    if xs == [] then [] else toks(xs[0]) + Flat(xs[1..], toks)
  }

  /** The token list of a list grows by the tokens of one element at a time. */
  lemma {:induction false} FlatSnoc<T>(xs: seq<T>, toks: T -> seq<string>, i: nat)
    requires i < |xs|
    ensures Flat(xs[..i + 1], toks) == Flat(xs[..i], toks) + toks(xs[i])
  {
    if i == 0 {
      assert xs[..1] == [xs[0]];
      assert Flat([xs[0]], toks) == toks(xs[0]) + Flat([], toks);
    } else {
      var tail := xs[1..];
      FlatSnoc(tail, toks, i - 1);
      assert xs[..i + 1][1..] == tail[..i];
      assert xs[..i][1..] == tail[..i - 1];
      assert tail[i - 1] == xs[i];
    }
  }

  /** A text after which the next token starts afresh: empty, or ending in
      whitespace. */
  predicate EndsOpen(s: string) {
    s == [] || IsWhitespace(s[|s| - 1])
  }

  /** A piece of text ending in whitespace splits the same wherever it stands. */
  lemma {:induction false} TokenizeConcat<T>(xs: seq<T>, text: T -> string, toks: T -> seq<string>)
    requires forall k :: 0 <= k < |xs| ==> EndsOpen(text(xs[k])) && Tokenize(text(xs[k])) == toks(xs[k])
    ensures EndsOpen(Concat(xs, text))
    ensures Tokenize(Concat(xs, text)) == Flat(xs, toks)
  {
    if xs != [] {
      var rest := Concat(xs[1..], text);
      TokenizeConcat(xs[1..], text, toks);
      TokenizeAppend(text(xs[0]), rest);
      assert Concat(xs, text) == text(xs[0]) + rest;
    }
  }

  /** A token and a whitespace character in front of a text add that one token
      in front of the text's tokens. */
  lemma TokenizeLead(t: string, sep: char, rest: string)
    requires IsToken(t) && IsWhitespace(sep)
    ensures Tokenize(t + [sep] + rest) == [t] + Tokenize(rest)
  {
    TokenizeAppend(t + [sep], rest);
    TokenizeWord(t, sep);
  }

  /** The numerals of a list of numbers, as tokens. */
  function Numerals(ns: seq<nat>): (ts: seq<string>)
    ensures |ts| == |ns|
  {
    seq(|ns|, k requires 0 <= k < |ns| => NatToString(ns[k]))
  }

  /** nextInt, called once per number, reads back the numerals of numbers in the
      int range. */
  lemma {:induction false} ReadNumerals(ns: seq<nat>, tail: seq<string>)
    requires forall k :: 0 <= k < |ns| ==> ns[k] <= INT_MAX
    ensures ReadInts(Numerals(ns) + tail, |ns|) == Ok((ns, tail))
  {
    if ns != [] {
      var ts := Numerals(ns) + tail;
      var rest := Numerals(ns[1..]) + tail;
      assert ts[1..] == rest;
      ParseIntOfNat(ns[0]);
      assert NextInt(ts) == Ok((ns[0], rest));
      ReadNumerals(ns[1..], tail);
      assert ReadInts(rest, |ns| - 1) == Ok((ns[1..], tail));
      assert [ns[0]] + ns[1..] == ns;
    }
  }

  // ---------------------------------------------------------------------------
  // The project text

  /** The tokens of a pixel line of the project text: its four channels. */
  function QuadTokens(p: Pixel): seq<string> {
    Numerals([p.red, p.green, p.blue, p.alpha])
  }

  /** Four tokens, separated by spaces and ended by a line break, split back
      into those four. */
  lemma TokenizeFour(a: string, b: string, c: string, d: string)
    requires IsToken(a) && IsToken(b) && IsToken(c) && IsToken(d)
    ensures var line := a + " " + (b + " " + (c + " " + (d + "\n")));
            EndsOpen(line) && Tokenize(line) == [a, b, c, d]
  {
    var r3 := d + "\n";
    var r2 := c + " " + r3;
    var r1 := b + " " + r2;
    TokenizeWord(d, '\n');
    TokenizeLead(c, ' ', r3);
    TokenizeLead(b, ' ', r2);
    TokenizeLead(a, ' ', r1);
  }

  /** A pixel line of the project text splits into its four channels. */
  lemma QuadLineTokens(p: Pixel)
    ensures EndsOpen(QuadLine(p))
    ensures Tokenize(QuadLine(p)) == QuadTokens(p)
  {
    var a, b, c, d := NatToString(p.red), NatToString(p.green), NatToString(p.blue), NatToString(p.alpha);
    NatToStringIsToken(p.red);
    NatToStringIsToken(p.green);
    NatToStringIsToken(p.blue);
    NatToStringIsToken(p.alpha);
    TokenizeFour(a, b, c, d);
    FourFields(a, b, c, d);
    assert QuadTokens(p) == [a, b, c, d];
  }

  /** Four fields joined by spaces and ended by a line break, grouped from the
      right. */
  lemma FourFields(a: string, b: string, c: string, d: string)
    ensures a + " " + b + " " + c + " " + d + "\n" == a + " " + (b + " " + (c + " " + (d + "\n")))
  {
    AppendAssoc(a + " " + b + " " + c + " ", d, "\n");
    AppendAssoc(a + " " + b + " " + c, " ", d + "\n");
    AppendAssoc(a + " " + b + " ", c, " " + (d + "\n"));
    AppendAssoc(a + " " + b, " ", c + " " + (d + "\n"));
    AppendAssoc(a + " ", b, " " + (c + " " + (d + "\n")));
    AppendAssoc(a, " ", b + " " + (c + " " + (d + "\n")));
    AppendAssoc(c, " ", d + "\n");
    AppendAssoc(b, " ", c + " " + (d + "\n"));
  }

  /** The four channels of a pixel, read with the maximum value 255, give the
      pixel back. */
  lemma ReadQuad(p: Pixel, tail: seq<string>)
    ensures ReadPixel(Quadruple(MAX), QuadTokens(p) + tail) == Ok((p, tail))
  {
    ReadNumerals([p.red, p.green, p.blue, p.alpha], tail);
    FromScaledAt255(p.red, p.green, p.blue, p.alpha);
  }

  /** The tokens of the pixel lines of a row: its pixels' channels, left to
      right. */
  function RowToks(row: seq<Pixel>): seq<string> {
    Flat(row, QuadTokens)
  }

  /** The pixel lines of a row split into the channels of its pixels. */
  lemma RowQuadsTokens(row: seq<Pixel>)
    ensures EndsOpen(RowQuads(row))
    ensures Tokenize(RowQuads(row)) == RowToks(row)
  {
    forall k | 0 <= k < |row|
      ensures EndsOpen(QuadLine(row[k])) && Tokenize(QuadLine(row[k])) == QuadTokens(row[k])
    {
      QuadLineTokens(row[k]);
    }
    TokenizeConcat(row, QuadLine, QuadTokens);
  }

  /** Reading k pixels from the tokens of the cells of a row, when each cell's
      tokens are read as the pixel `dst` holds for it, takes the first k of
      those pixels and leaves the tokens of the other cells. */
  lemma {:induction false} ReadRowOf<T>(read: PixelReader, toks: T -> seq<string>, src: seq<T>, dst: seq<Pixel>,
                                        tail: seq<string>, k: nat)
    requires k <= |src| == |dst|
    requires forall q, rest :: 0 <= q < |src| ==> read(toks(src[q]) + rest) == Ok((dst[q], rest))
    ensures ReadRow(read, Flat(src, toks) + tail, k) == Ok((dst[..k], Flat(src[k..], toks) + tail))
  {
    if k == 0 {
      assert src[0..] == src;
    } else {
      ReadRowOf(read, toks, src, dst, tail, k - 1);
      var rest := Flat(src[k..], toks) + tail;
      assert src[k - 1..][1..] == src[k..];
      assert Flat(src[k - 1..], toks) + tail == toks(src[k - 1]) + rest;
      assert dst[..k - 1] + [dst[k - 1]] == dst[..k];
    }
  }

  /** Reading a whole row from the tokens of its cells. */
  lemma ReadWholeRow<T>(read: PixelReader, toks: T -> seq<string>, src: seq<T>, dst: seq<Pixel>, tail: seq<string>)
    requires |src| == |dst|
    requires forall q, rest :: 0 <= q < |src| ==> read(toks(src[q]) + rest) == Ok((dst[q], rest))
    ensures ReadRow(read, Flat(src, toks) + tail, |src|) == Ok((dst, tail))
  {
    ReadRowOf(read, toks, src, dst, tail, |src|);
    assert src[|src|..] == [];
    assert Flat(src[|src|..], toks) + tail == tail;
    assert dst[..|src|] == dst;
  }

  /** One more row of a grid: the rows read so far, then the row read from the
      tokens that remain. */
  lemma ReadGridStep(read: PixelReader, toks: seq<string>, k: nat, w: nat, rows: seq<seq<Pixel>>,
                     rest: seq<string>, row: seq<Pixel>, after: seq<string>)
    requires k > 0
    requires ReadGrid(read, toks, k - 1, w) == Ok((rows, rest))
    requires ReadRow(read, rest, w) == Ok((row, after))
    ensures ReadGrid(read, toks, k, w) == Ok((rows + [row], after))
  {
  }

  /** Reading k rows of width w from the tokens of the rows of a grid, when each
      row's tokens are read as the row `dst` holds for it, takes the first k of
      those rows and leaves the tokens of the others. */
  lemma {:induction false} ReadGridOf<T>(read: PixelReader, rowToks: T -> seq<string>, src: seq<T>,
                                         dst: seq<seq<Pixel>>, w: nat, tail: seq<string>, k: nat)
    requires k <= |src| == |dst|
    requires forall i, rest :: 0 <= i < |src| ==> ReadRow(read, rowToks(src[i]) + rest, w) == Ok((dst[i], rest))
    ensures ReadGrid(read, Flat(src, rowToks) + tail, k, w) == Ok((dst[..k], Flat(src[k..], rowToks) + tail))
  {
    if k == 0 {
      assert src[0..] == src;
    } else {
      ReadGridOf(read, rowToks, src, dst, w, tail, k - 1);
      ReadGridOfNext(read, rowToks, src, dst, w, tail, k);
    }
  }

  /** The step of ReadGridOf: the k-th row read from the tokens the first k - 1
      rows leave. */
  lemma ReadGridOfNext<T>(read: PixelReader, rowToks: T -> seq<string>, src: seq<T>,
                          dst: seq<seq<Pixel>>, w: nat, tail: seq<string>, k: nat)
    requires 0 < k <= |src| == |dst|
    requires ReadGrid(read, Flat(src, rowToks) + tail, k - 1, w) == Ok((dst[..k - 1], Flat(src[k - 1..], rowToks) + tail))
    requires ReadRow(read, rowToks(src[k - 1]) + (Flat(src[k..], rowToks) + tail), w)
             == Ok((dst[k - 1], Flat(src[k..], rowToks) + tail))
    ensures ReadGrid(read, Flat(src, rowToks) + tail, k, w) == Ok((dst[..k], Flat(src[k..], rowToks) + tail))
  {
    var rest := Flat(src[k..], rowToks) + tail;
    assert src[k - 1..][1..] == src[k..];
    assert Flat(src[k - 1..], rowToks) + tail == rowToks(src[k - 1]) + rest;
    ReadGridStep(read, Flat(src, rowToks) + tail, k, w, dst[..k - 1], rowToks(src[k - 1]) + rest, dst[k - 1], rest);
    assert dst[..k - 1] + [dst[k - 1]] == dst[..k];
  }

  /** Reading a whole grid from the tokens of its rows. */
  lemma ReadWholeGrid<T>(read: PixelReader, rowToks: T -> seq<string>, src: seq<T>, dst: seq<seq<Pixel>>, w: nat,
                         tail: seq<string>)
    requires |src| == |dst|
    requires forall i, rest :: 0 <= i < |src| ==> ReadRow(read, rowToks(src[i]) + rest, w) == Ok((dst[i], rest))
    ensures ReadGrid(read, Flat(src, rowToks) + tail, |src|, w) == Ok((dst, tail))
  {
    ReadGridOf(read, rowToks, src, dst, w, tail, |src|);
    assert src[|src|..] == [];
    assert Flat(src[|src|..], rowToks) + tail == tail;
    assert dst[..|src|] == dst;
  }

  /** The project reader reads a row back from the tokens of its pixel lines. */
  lemma ReadQuadRow(row: seq<Pixel>, rest: seq<string>)
    ensures ReadRow(Reader(Quadruple(MAX)), RowToks(row) + rest, |row|) == Ok((row, rest))
  {
    forall q, more | 0 <= q < |row|
      ensures Reader(Quadruple(MAX))(QuadTokens(row[q]) + more) == Ok((row[q], more))
    {
      ReadQuad(row[q], more);
    }
    ReadWholeRow(Reader(Quadruple(MAX)), QuadTokens, row, row, rest);
  }

  /** The project reader reads an image back from the tokens of its pixel
      lines. */
  lemma ReadQuadImage(img: Image, rest: seq<string>)
    ensures ReadGrid(Reader(Quadruple(MAX)), Flat(img, RowToks) + rest, Height(img), Width(img)) == Ok((img, rest))
  {
    forall i, more | 0 <= i < |img|
      ensures ReadRow(Reader(Quadruple(MAX)), RowToks(img[i]) + more, Width(img)) == Ok((img[i], more))
    {
      ReadQuadRow(img[i], more);
    }
    ReadWholeGrid(Reader(Quadruple(MAX)), RowToks, img, img, Width(img), rest);
  }

  /** Two texts that each end open end open together. */
  lemma EndsOpenAppend(a: string, b: string)
    requires EndsOpen(a) && EndsOpen(b)
    ensures EndsOpen(a + b)
  {
    if b == [] {
      assert a + b == a;
    }
  }

  /** A printable ASCII character other than the space. */
  predicate Visible(c: char) {
    '!' <= c <= '~'
  }

  /** A non-empty run of printable ASCII characters is a token. */
  lemma VisibleIsToken(t: string)
    requires |t| >= 1 && forall i :: 0 <= i < |t| ==> Visible(t[i])
    ensures IsToken(t)
  {
    assert forall i :: 0 <= i < |t| ==> !IsWhitespace(t[i]);
  }

  /** A lower-case ASCII letter or an underscore, the characters of the
      catalog names. */
  predicate NameChar(c: char) {
    'a' <= c <= 'z' || c == '_'
  }

  /** Every catalog name is a non-empty run of lower-case letters and
      underscores. */
  lemma FilterNameChars(f: FilterName)
    ensures |Name(f)| >= 1 && forall i :: 0 <= i < |Name(f)| ==> NameChar(Name(f)[i])
  {
    if f.Normal? || f.RedFilter? || f.BlueFilter? || f.GreenFilter? {
      ChannelNameChars(f);
    } else if f.Multiply? || f.Screen? || f.Difference? {
      BlendNameChars(f);
    } else {
      BrightnessNameChars(f);
    }
  }

  /** So every catalog name is a single token. */
  lemma FilterNameIsToken(f: FilterName)
    ensures IsToken(Name(f))
  {
    FilterNameChars(f);
    var n := Name(f);
    assert forall i :: 0 <= i < |n| ==> Visible(n[i]);
    VisibleIsToken(n);
  }

  /** And no catalog name holds a '#'. */
  lemma FilterNameWithoutHash(f: FilterName)
    ensures '#' !in Name(f)
  {
    FilterNameChars(f);
    var n := Name(f);
    assert forall i :: 0 <= i < |n| ==> n[i] != '#';
  }

  /** The names of the identity and the channel filters. */
  lemma ChannelNameChars(f: FilterName)
    requires f.Normal? || f.RedFilter? || f.BlueFilter? || f.GreenFilter?
    ensures |Name(f)| >= 1 && forall i :: 0 <= i < |Name(f)| ==> NameChar(Name(f)[i])
  {
  }

  /** The names of the blending filters. */
  lemma BlendNameChars(f: FilterName)
    requires f.Multiply? || f.Screen? || f.Difference?
    ensures |Name(f)| >= 1 && forall i :: 0 <= i < |Name(f)| ==> NameChar(Name(f)[i])
  {
  }

  /** The names of the brightening and darkening filters. */
  lemma BrightnessNameChars(f: FilterName)
    requires !(f.Normal? || f.RedFilter? || f.BlueFilter? || f.GreenFilter?)
    requires !(f.Multiply? || f.Screen? || f.Difference?)
    ensures |Name(f)| >= 1 && forall i :: 0 <= i < |Name(f)| ==> NameChar(Name(f)[i])
  {
  }

  /** Texts that end open split piece by piece. */
  lemma TokenizeThree(x: string, y: string, z: string)
    requires EndsOpen(x) && EndsOpen(y)
    ensures Tokenize(x + y + z) == Tokenize(x) + Tokenize(y) + Tokenize(z)
  {
    TokenizeAppend(x, y);
    EndsOpenAppend(x, y);
    TokenizeAppend(x + y, z);
  }

  /** Two tokens, separated by a space and ended by a line break, split back
      into those two. */
  lemma TokenizeTwo(a: string, b: string)
    requires IsToken(a) && IsToken(b)
    ensures EndsOpen(a + " " + b + "\n") && Tokenize(a + " " + b + "\n") == [a, b]
  {
    TokenizeWord(b, '\n');
    TokenizeLead(a, ' ', b + "\n");
    AppendAssoc(a + " ", b, "\n");
  }

  /** The three header lines of both formats: a magic word, the width and the
      height, and the maximum value 255. */
  lemma HeaderTokens(magic: string, height: nat, width: nat)
    requires IsToken(magic)
    ensures var text := magic + "\n" + (NatToString(width) + " " + NatToString(height) + "\n") + "255\n";
            EndsOpen(text) && Tokenize(text) == [magic, NatToString(width), NatToString(height), "255"]
  {
    var wd, ht := NatToString(width), NatToString(height);
    NatToStringIsToken(width);
    NatToStringIsToken(height);
    TokenizeWord(magic, '\n');
    TokenizeTwo(wd, ht);
    VisibleIsToken("255");
    TokenizeWord("255", '\n');
    assert "255" + ['\n'] == "255\n";
    TokenizeThree(magic + "\n", wd + " " + ht + "\n", "255\n");
  }

  /** Reading the header tokens back: the magic word, then the width, the
      height and 255 as ints. */
  lemma ReadHeader(magic: string, height: nat, width: nat, body: seq<string>)
    requires height <= INT_MAX && width <= INT_MAX
    ensures var ts := [magic, NatToString(width), NatToString(height), "255"] + body;
            && Next(ts) == Ok((magic, ts[1..]))
            && NextInt(ts[1..]) == Ok((width, ts[2..]))
            && NextInt(ts[2..]) == Ok((height, ts[3..]))
            && NextInt(ts[3..]) == Ok((255, body))
  {
    var ts := [magic, NatToString(width), NatToString(height), "255"] + body;
    ParseIntOfNat(width);
    ParseIntOfNat(height);
    ParseIntExamples();
    assert ts[1..][0] == NatToString(width);
    assert ts[2..][0] == NatToString(height);
    assert ts[3..][0] == "255";
  }

  /** The tokens of a layer in the project text: its name, its filter name and
      the channels of its pixels. */
  function BlockToks(l: LayerValue): seq<string> {
    [l.name, Name(l.filter)] + Flat(l.image, RowToks)
  }

  /** A layer whose name is one token splits into the tokens of its block. */
  lemma LayerBlockTokens(l: LayerValue)
    requires IsToken(l.name)
    ensures EndsOpen(LayerBlock(l)) && Tokenize(LayerBlock(l)) == BlockToks(l)
  {
    var n, f := l.name, Name(l.filter);
    FilterNameIsToken(l.filter);
    forall k | 0 <= k < |l.image|
      ensures EndsOpen(RowQuads(l.image[k])) && Tokenize(RowQuads(l.image[k])) == RowToks(l.image[k])
    {
      RowQuadsTokens(l.image[k]);
    }
    var body := Concat(l.image, RowQuads);
    TokenizeConcat(l.image, RowQuads, RowToks);
    var head := n + " " + f + "\n";
    TokenizeTwo(n, f);
    TokenizeAppend(head, body);
    EndsOpenAppend(head, body);
  }

  /** What loadProject reads for a layer: its name, its filter name and its
      image. */
  function EntryOf(l: LayerValue): LayerEntry {
    LayerEntry(l.name, Name(l.filter), l.image)
  }

  /** The entries of a list of layers, in order. */
  function Entries(ls: seq<LayerValue>): (es: seq<LayerEntry>)
    ensures |es| == |ls|
  {
    seq(|ls|, k requires 0 <= k < |ls| => EntryOf(ls[k]))
  }

  /** The layer loop of loadProject reads back the entries of layers from the
      tokens of their blocks. */
  lemma {:induction false} ReadBlocks(ls: seq<LayerValue>, height: nat, width: nat)
    requires height >= 1 && width >= 1 && Sized(ls, height, width)
    ensures ReadLayers(Flat(ls, BlockToks), height, width, Quadruple(MAX)) == Ok(Entries(ls))
  {
    if ls != [] {
      ReadBlocks(ls[1..], height, width);
      ReadBlocksStep(ls, height, width);
    }
  }

  /** The step of ReadBlocks: the first block, then the blocks after it. */
  lemma ReadBlocksStep(ls: seq<LayerValue>, height: nat, width: nat)
    requires ls != [] && height >= 1 && width >= 1 && Sized(ls, height, width)
    requires ReadLayers(Flat(ls[1..], BlockToks), height, width, Quadruple(MAX)) == Ok(Entries(ls[1..]))
    ensures ReadLayers(Flat(ls, BlockToks), height, width, Quadruple(MAX)) == Ok(Entries(ls))
  {
    var more := Flat(ls[1..], BlockToks);
    var ts := Flat(ls, BlockToks);
    assert ts == BlockToks(ls[0]) + more;
    ReadBlock(ls[0], more);
    assert ReadEntry(ts, height, width, Quadruple(MAX)) == Ok((EntryOf(ls[0]), more));
    EntriesCons(ls);
  }

  /** One pass of that loop reads back the entry of one layer. */
  lemma ReadBlock(l: LayerValue, more: seq<string>)
    ensures ReadEntry(BlockToks(l) + more, Height(l.image), Width(l.image), Quadruple(MAX)) == Ok((EntryOf(l), more))
  {
    var ts := BlockToks(l) + more;
    var pixels := Flat(l.image, RowToks) + more;
    assert ts[1..] == [Name(l.filter)] + pixels;
    ReadQuadImage(l.image, more);
  }

  /** Every layer name is a single token. */
  predicate TokenNames(ls: seq<LayerValue>) {
    forall k :: 0 <= k < |ls| ==> IsToken(ls[k].name)
  }

  /** The project text splits into the header tokens and the tokens of the
      layers. */
  lemma CollageTokens(height: nat, width: nat, ls: seq<LayerValue>)
    requires TokenNames(ls)
    ensures Tokenize(CollageText(height, width, ls))
            == ["C1", NatToString(width), NatToString(height), "255"] + Flat(ls, BlockToks)
  {
    VisibleIsToken("C1");
    HeaderTokens("C1", height, width);
    assert "C1" + "\n" == "C1\n";
    forall k | 0 <= k < |ls|
      ensures EndsOpen(LayerBlock(ls[k])) && Tokenize(LayerBlock(ls[k])) == BlockToks(ls[k])
    {
      LayerBlockTokens(ls[k]);
    }
    TokenizeConcat(ls, LayerBlock, BlockToks);
    TokenizeAppend(CollageHeader(height, width), Concat(ls, LayerBlock));
  }

  /** loadProject's reading half takes the project text saveCollage writes
      back to the canvas size and the entries of the layers, in order. */
  lemma ParseSavedCollage(height: int, width: int, ls: seq<LayerValue>)
    requires 1 <= height <= INT_MAX && 1 <= width <= INT_MAX
    requires Sized(ls, height, width) && TokenNames(ls)
    ensures ParseCollage(Tokenize(CollageText(height, width, ls))) == Ok(Collage(height, width, Entries(ls)))
  {
    CollageTokens(height, width, ls);
    ReadHeader("C1", height, width, Flat(ls, BlockToks));
    ReadBlocks(ls, height, width);
  }

  // ---------------------------------------------------------------------------
  // Replaying the project read

  /** A pixel that placing onto a blank layer keeps: one that is not fully
      transparent, or the (0, 0, 0, 0) that combine makes of a fully
      transparent one. */
  predicate Settled(p: Pixel) {
    p.alpha != 0 || p == Pixel(0, 0, 0, 0)
  }

  /** Every pixel of the image is settled. */
  predicate SettledImage(img: Image) {
    forall i, j :: 0 <= i < Height(img) && 0 <= j < Width(img) ==> Settled(img[i][j])
  }

  /** Every layer image is settled. */
  predicate SettledLayers(ls: seq<LayerValue>) {
    forall k :: 0 <= k < |ls| ==> SettledImage(ls[k].image)
  }

  /** addImage at (0, 0) onto a blank layer of the same size leaves a settled
      image as it is. */
  lemma PlaceOnBlank(img: Image)
    requires SettledImage(img)
    ensures Overlay(BlankImage(Height(img), Width(img)), img, 0, 0) == img
  {
    var r := Overlay(BlankImage(Height(img), Width(img)), img, 0, 0);
    OverlayOnBlank(Height(img), Width(img), img, 0, 0);
    forall i, j | 0 <= i < Height(img) && 0 <= j < Width(img)
      ensures r[i][j] == img[i][j]
    {
      assert InRegion(img, 0, 0, i, j);
    }
    SameImage(r, img);
  }

  /** A name that is not yet taken is found at the end once it is appended. */
  lemma IndexOfAppended(names: seq<string>, name: string)
    requires name !in names
    ensures IndexOf(names + [name], name) == Some(|names|)
  {
    var all := names + [name];
    forall k | 0 <= k < |names|
      ensures all[k] != name
    {
      assert all[k] == names[k];
    }
  }

  /** What addImage at (0, 0) makes of a saved layer's image on a blank layer of
      its size: the image composited over Blank. */
  function OnBlank(l: LayerValue): (r: LayerValue)
    ensures r.name == l.name && r.filter == l.filter
    ensures Height(r.image) == Height(l.image) && Width(r.image) == Width(l.image)
  {
    LayerValue(l.name, l.filter, Overlay(BlankImage(Height(l.image), Width(l.image)), l.image, 0, 0))
  }

  /** OnBlank of every layer, in order. */
  function OnBlankAll(ls: seq<LayerValue>): (r: seq<LayerValue>)
    ensures |r| == |ls| && Names(r) == Names(ls)
  {
    seq(|ls|, k requires 0 <= k < |ls| => OnBlank(ls[k]))
  }

  /** A settled layer comes back from the blank layer unchanged. */
  lemma OnBlankSettled(ls: seq<LayerValue>)
    requires SettledLayers(ls)
    ensures OnBlankAll(ls) == ls
  {
    forall k | 0 <= k < |ls|
      ensures OnBlankAll(ls)[k] == ls[k]
    {
      PlaceOnBlank(ls[k].image);
    }
  }

  /** One pass of the replay for the entry of a layer whose name is new: the
      layer is added at the top, with its filter and its image placed on a
      blank layer. */
  lemma ReplayStepOf(ls: seq<LayerValue>, l: LayerValue, height: int, width: int)
    requires height >= 1 && width >= 1
    requires l.name !in Names(ls)
    requires Height(l.image) == height && Width(l.image) == width
    ensures ReplayStep(ls, EntryOf(l), height, width) == Ok(ls + [OnBlank(l)])
  {
    var blank := BlankImage(height, width);
    var added := ls + [LayerValue(l.name, Normal, blank)];
    assert AppendLayer(ls, l.name, height, width) == Ok(added);
    assert Names(added) == Names(ls) + [l.name];
    IndexOfAppended(Names(ls), l.name);
    LookupName(l.filter);
    var filtered := added[|ls| := LayerValue(l.name, l.filter, blank)];
    assert SetLayerFilter(added, l.name, Name(l.filter)) == Ok(filtered);
    assert Names(filtered) == Names(added);
    assert filtered[|ls| := LayerValue(l.name, l.filter, Overlay(blank, l.image, 0, 0))] == ls + [OnBlank(l)];
  }

  /** The replay of the entries of layers with distinct names and images of the
      canvas size adds exactly those layers, in order, each placed on a blank
      layer. */
  lemma {:induction false} ReplayOf(done: seq<LayerValue>, rest: seq<LayerValue>, height: int, width: int)
    requires height >= 1 && width >= 1
    requires Distinct(Names(done + rest)) && Sized(rest, height, width)
    ensures Replay(done, Entries(rest), height, width) == Ok(done + OnBlankAll(rest))
    decreases |rest|
  {
    if rest == [] {
      assert done + OnBlankAll(rest) == done;
    } else {
      var l := rest[0];
      FreshName(done, rest);
      ReplayStepOf(done, l, height, width);
      EntriesCons(rest);
      MoveFirstNames(done, rest);
      MoveFirst(done, rest);
      ReplayOf(done + [OnBlank(l)], rest[1..], height, width);
    }
  }

  /** With distinct names, the first layer still to be replayed has a name the
      replayed ones do not. */
  lemma FreshName(done: seq<LayerValue>, rest: seq<LayerValue>)
    requires rest != [] && Distinct(Names(done + rest))
    ensures rest[0].name !in Names(done)
  {
    var all := done + rest;
    assert all[|done|] == rest[0];
    forall k | 0 <= k < |done|
      ensures Names(done)[k] != rest[0].name
    {
      assert all[k] == done[k];
    }
  }

  /** The entries of a non-empty list: that of its first layer, then those of
      the others. */
  lemma EntriesCons(ls: seq<LayerValue>)
    requires ls != []
    ensures Entries(ls) == [EntryOf(ls[0])] + Entries(ls[1..])
  {
  }

  /** Moving the first layer still to be replayed, placed on a blank layer, to
      the replayed ones keeps the names. */
  lemma MoveFirstNames(done: seq<LayerValue>, rest: seq<LayerValue>)
    requires rest != []
    ensures Names((done + [OnBlank(rest[0])]) + rest[1..]) == Names(done + rest)
  {
    var moved := (done + [OnBlank(rest[0])]) + rest[1..];
    var all := done + rest;
    forall k | 0 <= k < |all|
      ensures moved[k].name == all[k].name
    {
      if k < |done| {
        assert moved[k] == done[k] == all[k];
      } else if k == |done| {
        assert moved[k] == OnBlank(rest[0]) && all[k] == rest[0];
      } else {
        assert moved[k] == rest[1..][k - |done| - 1] == all[k];
      }
    }
    assert Names(moved) == Names(all);
  }

  /** OnBlankAll of a non-empty list: the first layer placed on a blank layer,
      then the others. */
  lemma OnBlankAllCons(rest: seq<LayerValue>)
    requires rest != []
    ensures OnBlankAll(rest) == [OnBlank(rest[0])] + OnBlankAll(rest[1..])
  {
    var tail := OnBlankAll(rest[1..]);
    forall k | 0 < k < |rest|
      ensures tail[k - 1] == OnBlankAll(rest)[k]
    {
      assert rest[1..][k - 1] == rest[k];
    }
  }

  /** Moving the first layer still to be replayed to the replayed ones keeps
      the layers the replay ends with. */
  lemma MoveFirst(done: seq<LayerValue>, rest: seq<LayerValue>)
    requires rest != []
    ensures (done + [OnBlank(rest[0])]) + OnBlankAll(rest[1..]) == done + OnBlankAll(rest)
  {
    OnBlankAllCons(rest);
    var first := OnBlank(rest[0]);
    var tail := OnBlankAll(rest[1..]);
    assert (done + [first]) + tail == done + ([first] + tail);
  }

  /** loadProject, once the saved text is read, rebuilds the project: the
      same layers, in order, with their names and filters, each image placed
      on a blank layer; settled layers come back unchanged. */
  lemma LoadSaved(height: int, width: int, ls: seq<LayerValue>)
    requires height >= 1 && width >= 1
    requires Distinct(Names(ls)) && Sized(ls, height, width)
    ensures Load(Collage(height, width, Entries(ls))) == Ok(OnBlankAll(ls))
    ensures SettledLayers(ls) ==> Load(Collage(height, width, Entries(ls))) == Ok(ls)
  {
    assert [] + ls == ls;
    assert [] + OnBlankAll(ls) == OnBlankAll(ls);
    ReplayOf([], ls, height, width);
    if SettledLayers(ls) {
      OnBlankSettled(ls);
    }
  }

  /** The project round trip: saveCollage, then loadProject on the text it
      wrote, gives back the project with each image placed on a blank layer,
      for a canvas inside the int range and layer names that are single
      tokens; settled layers come back unchanged. */
  lemma SaveThenLoad(height: int, width: int, ls: seq<LayerValue>)
    requires 1 <= height <= INT_MAX && 1 <= width <= INT_MAX
    requires Distinct(Names(ls)) && Sized(ls, height, width) && TokenNames(ls)
    ensures var read := ParseCollage(Tokenize(CollageText(height, width, ls)));
            read.Ok? && Load(read.value) == Ok(OnBlankAll(ls))
    ensures var read := ParseCollage(Tokenize(CollageText(height, width, ls)));
            SettledLayers(ls) ==> read.Ok? && Load(read.value) == Ok(ls)
  {
    ParseSavedCollage(height, width, ls);
    LoadSaved(height, width, ls);
  }

  // ---------------------------------------------------------------------------
  // The image text

  /** What the image text keeps of a pixel: its asRGB colour, which is the
      pixel shown over black, read back as an opaque pixel. */
  function OverBlack(p: Pixel): (q: Pixel)
    ensures q.alpha == MAX
    ensures p.alpha == MAX ==> q == p
    ensures p.alpha == 0 ==> q == Pixel(0, 0, 0, MAX)
  {
    var c := AsRGB(p);
    Pixel(c.r, c.g, c.b, MAX)
  }

  /** Every pixel of an image shown over black. */
  function OverBlackImage(img: Image): (r: Image)
    ensures Height(r) == Height(img) && Width(r) == Width(img)
    ensures forall i, j :: 0 <= i < Height(img) && 0 <= j < Width(img) ==> r[i][j] == OverBlack(img[i][j])
  {
    seq(Height(img), i requires 0 <= i < Height(img) =>
      seq(Width(img), j requires 0 <= j < Width(img) => OverBlack(img[i][j])))
  }

  /** An opaque image shown over black is itself. */
  lemma OverBlackOpaque(img: Image)
    requires forall i, j :: 0 <= i < Height(img) && 0 <= j < Width(img) ==> img[i][j].alpha == MAX
    ensures OverBlackImage(img) == img
  {
    SameImage(OverBlackImage(img), img);
  }

  /** The tokens of a cell of the image text: its three asRGB channels. */
  function RgbTokens(p: Pixel): seq<string> {
    var c := AsRGB(p);
    Numerals([c.r, c.g, c.b])
  }

  /** Three tokens separated by spaces and ended by whitespace split back into
      those three. */
  lemma TokenizeThreeFields(a: string, b: string, c: string, sep: char)
    requires IsToken(a) && IsToken(b) && IsToken(c) && IsWhitespace(sep)
    ensures Tokenize(a + " " + (b + " " + (c + [sep]))) == [a, b, c]
  {
    var r2 := c + [sep];
    var r1 := b + " " + r2;
    TokenizeWord(c, sep);
    TokenizeLead(b, ' ', r2);
    TokenizeLead(a, ' ', r1);
  }

  /** Three numbers separated by spaces and followed by whitespace split into
      their numerals. */
  lemma FieldTokens(r: nat, g: nat, b: nat, sep: char)
    requires IsWhitespace(sep)
    ensures Tokenize(NatToString(r) + " " + NatToString(g) + " " + NatToString(b) + [sep]) == Numerals([r, g, b])
  {
    var x, y, z := NatToString(r), NatToString(g), NatToString(b);
    NatToStringIsToken(r);
    NatToStringIsToken(g);
    NatToStringIsToken(b);
    TokenizeThreeFields(x, y, z, sep);
    AppendAssoc(x + " " + y + " ", z, [sep]);
    AppendAssoc(x + " " + y, " ", z + [sep]);
    AppendAssoc(x + " ", y, " " + (z + [sep]));
    AppendAssoc(y, " ", z + [sep]);
    assert Numerals([r, g, b]) == [x, y, z];
  }

  /** A cell of the image text followed by whitespace splits into its three
      channels. */
  lemma RgbFieldTokens(p: Pixel, sep: char)
    requires IsWhitespace(sep)
    ensures Tokenize(RgbField(p) + [sep]) == RgbTokens(p)
  {
    var c := AsRGB(p);
    FieldTokens(c.r, c.g, c.b, sep);
  }

  /** The tokens of a line of the image text: the channels of its cells, left
      to right. */
  function LineToks(row: seq<Pixel>): seq<string> {
    Flat(row, RgbTokens)
  }

  /** The line saveImage writes for a row splits into the channels of its
      cells. */
  lemma RowLineTokens(row: seq<Pixel>)
    requires |row| >= 1
    ensures EndsOpen(RowLine(row)) && Tokenize(RowLine(row)) == LineToks(row)
  {
    var n := |row| - 1;
    var front := Concat(row[..n], SpacedField);
    SpacedTokens(row[..n]);
    RgbFieldTokens(row[n], '\n');
    AppendAssoc(front, RgbField(row[n]), "\n");
    assert RowLine(row) == front + (RgbField(row[n]) + "\n");
    TokenizeAppend(front, RgbField(row[n]) + "\n");
    FlatSnoc(row, RgbTokens, n);
    assert row[..n + 1] == row;
  }

  /** The cells of a row that are followed by a space split into their
      channels. */
  lemma SpacedTokens(cells: seq<Pixel>)
    ensures EndsOpen(Concat(cells, SpacedField)) && Tokenize(Concat(cells, SpacedField)) == Flat(cells, RgbTokens)
  {
    forall k | 0 <= k < |cells|
      ensures EndsOpen(SpacedField(cells[k])) && Tokenize(SpacedField(cells[k])) == RgbTokens(cells[k])
    {
      RgbFieldTokens(cells[k], ' ');
    }
    TokenizeConcat(cells, SpacedField, RgbTokens);
  }

  /** The image text splits into the header tokens and the channels of the
      cells, row by row. */
  lemma PpmTokens(img: Image)
    ensures Tokenize(PpmText(img)) == ["P3", NatToString(Width(img)), NatToString(Height(img)), "255"] + Flat(img, LineToks)
  {
    VisibleIsToken("P3");
    HeaderTokens("P3", Height(img), Width(img));
    assert "P3" + "\n" == "P3\n";
    forall k | 0 <= k < |img|
      ensures EndsOpen(RowLine(img[k])) && Tokenize(RowLine(img[k])) == LineToks(img[k])
    {
      RowLineTokens(img[k]);
    }
    TokenizeConcat(img, RowLine, LineToks);
    TokenizeAppend(PpmHeader(Height(img), Width(img)), Concat(img, RowLine));
  }

  /** The three channels of a cell, read with the maximum value 255, give the
      pixel shown over black. */
  lemma ReadRgb(p: Pixel, tail: seq<string>)
    ensures ReadPixel(Triple(MAX), RgbTokens(p) + tail) == Ok((OverBlack(p), tail))
  {
    var c := AsRGB(p);
    ReadNumerals([c.r, c.g, c.b], tail);
    FromRGBAt255(c.r, c.g, c.b);
  }

  /** The image reader reads the cells of an image text back as the image shown
      over black. */
  lemma ReadRgbImage(img: Image, rest: seq<string>)
    ensures ReadGrid(Reader(Triple(MAX)), Flat(img, LineToks) + rest, Height(img), Width(img))
            == Ok((OverBlackImage(img), rest))
  {
    var dst := OverBlackImage(img);
    forall i, more | 0 <= i < |img|
      ensures ReadRow(Reader(Triple(MAX)), LineToks(img[i]) + more, Width(img)) == Ok((dst[i], more))
    {
      forall q, r | 0 <= q < |img[i]|
        ensures Reader(Triple(MAX))(RgbTokens(img[i][q]) + r) == Ok((dst[i][q], r))
      {
        ReadRgb(img[i][q], r);
      }
      ReadWholeRow(Reader(Triple(MAX)), RgbTokens, img[i], dst[i], more);
    }
    ReadWholeGrid(Reader(Triple(MAX)), LineToks, img, dst, Width(img), rest);
  }

  /** The image round trip: addImage(String) on the text saveImage wrote reads
      the image shown over black, for dimensions inside the int range. */
  lemma SaveThenReadImage(img: Image)
    requires Height(img) <= INT_MAX && Width(img) <= INT_MAX
    ensures ParsePpm(Tokenize(PpmText(img))) == Ok(OverBlackImage(img))
  {
    var body := Flat(img, LineToks);
    assert body + [] == body;
    ReadRgbImage(img, []);
    PpmTokens(img);
    ReadHeader("P3", Height(img), Width(img), body);
  }

  /** So an opaque image comes back as itself. */
  lemma SaveThenReadOpaque(img: Image)
    requires Height(img) <= INT_MAX && Width(img) <= INT_MAX
    requires forall i, j :: 0 <= i < Height(img) && 0 <= j < Width(img) ==> img[i][j].alpha == MAX
    ensures ParsePpm(Tokenize(PpmText(img))) == Ok(img)
  {
    SaveThenReadImage(img);
    OverBlackOpaque(img);
  }

  // ---------------------------------------------------------------------------
  // Comment lines

  /** Whitespace after a text does not change its first word. */
  lemma {:induction false} WordSnoc(a: string, c: char)
    requires IsWhitespace(c)
    ensures Word(a + [c]) == Word(a)
  {
    if a != [] && !IsWhitespace(a[0]) {
      assert (a + [c])[1..] == a[1..] + [c];
      WordSnoc(a[1..], c);
    }
  }

  /** Nor does it change the tokens of the text. */
  lemma {:induction false} TokenizeSnoc(a: string, c: char)
    requires IsWhitespace(c)
    ensures Tokenize(a + [c]) == Tokenize(a)
    decreases |a|
  {
    if a == [] {
      assert Tokenize([c]) == Tokenize([]);
    } else if IsWhitespace(a[0]) {
      assert (a + [c])[1..] == a[1..] + [c];
      TokenizeSnoc(a[1..], c);
    } else {
      var w := Word(a);
      WordSnoc(a, c);
      assert (a + [c])[|w|..] == a[|w|..] + [c];
      TokenizeSnoc(a[|w|..], c);
    }
  }

  /** A line separator made of whitespace. */
  predicate Separator(eol: string) {
    |eol| >= 1 && forall i :: 0 <= i < |eol| ==> IsWhitespace(eol[i])
  }

  /** A run of whitespace after a text does not change its tokens. */
  lemma {:induction false} TokenizeTrailing(a: string, e: string)
    requires forall i :: 0 <= i < |e| ==> IsWhitespace(e[i])
    ensures Tokenize(a + e) == Tokenize(a)
    decreases |e|
  {
    if e == [] {
      assert a + e == a;
    } else {
      var front := e[..|e| - 1];
      TokenizeTrailing(a, front);
      assert a + e == (a + front) + [e[|e| - 1]];
      TokenizeSnoc(a + front, e[|e| - 1]);
    }
  }

  /** The tokens of each line, one line after the other. */
  function LineTokens(lines: seq<string>): seq<string> {
    if lines == [] then [] else Tokenize(lines[0]) + LineTokens(lines[1..])
  }

  /** A text splits into the tokens of its lines, in order. */
  lemma {:induction false} TokenizeLines(s: string)
    ensures Tokenize(s) == LineTokens(Lines(s))
    decreases |s|
  {
    if s != [] {
      var k := LineLength(s);
      var line := s[..k];
      if k == |s| {
        assert line == s;
        assert Lines(s) == [s];
        assert LineTokens([s]) == Tokenize(s) + LineTokens([]);
      } else {
        var rest := s[k + 1..];
        assert s == (line + "\n") + rest;
        TokenizeAppend(line + "\n", rest);
        TokenizeSnoc(line, '\n');
        TokenizeLines(rest);
        assert Lines(s) == [line] + Lines(rest);
        assert Lines(s)[1..] == Lines(rest);
      }
    }
  }

  /** The lines that are not comments, in order. */
  function Uncommented(lines: seq<string>): (r: seq<string>)
    ensures forall i :: 0 <= i < |r| ==> !IsComment(r[i])
  {
    if lines == [] then []
    else (if IsComment(lines[0]) then [] else [lines[0]]) + Uncommented(lines[1..])
  }

  /** The stripped text splits into the tokens of the lines that are not
      comments: the separator put after each kept line adds no token. */
  lemma {:induction false} KeptTokens(lines: seq<string>, eol: string)
    requires Separator(eol)
    ensures Tokenize(Kept(lines, eol)) == LineTokens(Uncommented(lines))
  {
    if lines != [] {
      var rest := Kept(lines[1..], eol);
      KeptTokens(lines[1..], eol);
      var un := Uncommented(lines[1..]);
      if IsComment(lines[0]) {
        assert Kept(lines, eol) == [] + rest == rest;
        assert Uncommented(lines) == [] + un == un;
      } else {
        var line := lines[0];
        assert Kept(lines, eol) == (line + eol) + rest;
        assert (line + eol)[|line + eol| - 1] == eol[|eol| - 1];
        TokenizeAppend(line + eol, rest);
        TokenizeTrailing(line, eol);
        assert Uncommented(lines) == [line] + un;
        assert Uncommented(lines)[1..] == un;
      }
    }
  }

  /** A character absent from a text is absent from each of its lines. */
  lemma {:induction false} LinesWithout(s: string, c: char)
    requires c !in s
    ensures forall i :: 0 <= i < |Lines(s)| ==> c !in Lines(s)[i]
    decreases |s|
  {
    if s != [] {
      var k := LineLength(s);
      forall i | 0 <= i < k
        ensures s[..k][i] != c
      {
        assert s[..k][i] == s[i];
      }
      if k < |s| {
        var rest := s[k + 1..];
        forall i | 0 <= i < |rest|
          ensures rest[i] != c
        {
          assert rest[i] == s[k + 1 + i];
        }
        LinesWithout(rest, c);
        assert Lines(s) == [s[..k]] + Lines(rest);
      }
    }
  }

  /** Lines that are not comments all stay. */
  lemma {:induction false} UncommentedKeepsAll(lines: seq<string>)
    requires forall i :: 0 <= i < |lines| ==> !IsComment(lines[i])
    ensures Uncommented(lines) == lines
  {
    if lines != [] {
      UncommentedKeepsAll(lines[1..]);
      assert [lines[0]] + lines[1..] == lines;
    }
  }

  /** The loop of readPPM and readCollage, through its result the stripped
      text, keeps the tokens of a text that holds no '#'. */
  lemma StripKeepsTokens(text: string, eol: string)
    requires Separator(eol) && '#' !in text
    ensures Tokenize(Kept(Lines(text), eol)) == Tokenize(text)
  {
    var lines := Lines(text);
    LinesWithout(text, '#');
    forall i | 0 <= i < |lines|
      ensures !IsComment(lines[i])
    {
      if |lines[i]| >= 1 {
        assert lines[i][0] in lines[i];
      }
    }
    UncommentedKeepsAll(lines);
    KeptTokens(lines, eol);
    TokenizeLines(text);
  }

  /** A number is printed without any character other than a digit. */
  lemma NumeralWithout(n: nat, c: char)
    requires !IsDigit(c)
    ensures c !in NatToString(n)
  {
    var s := NatToString(n);
    assert forall i :: 0 <= i < |s| ==> s[i] != c;
  }

  /** A text made of pieces without the character c has none. */
  lemma {:induction false} ConcatWithout<T>(xs: seq<T>, text: T -> string, c: char)
    requires forall k :: 0 <= k < |xs| ==> c !in text(xs[k])
    ensures c !in Concat(xs, text)
  {
    if xs != [] {
      ConcatWithout(xs[1..], text, c);
    }
  }

  /** Every layer name is free of '#'. */
  predicate HashFreeNames(ls: seq<LayerValue>) {
    forall k :: 0 <= k < |ls| ==> '#' !in ls[k].name
  }

  /** The project text of layers whose names hold no '#' holds none, so it has
      no comment line. */
  lemma CollageTextWithoutHash(height: nat, width: nat, ls: seq<LayerValue>)
    requires HashFreeNames(ls)
    ensures '#' !in CollageText(height, width, ls)
  {
    NumeralWithout(height, '#');
    NumeralWithout(width, '#');
    forall k | 0 <= k < |ls|
      ensures '#' !in LayerBlock(ls[k])
    {
      LayerBlockWithoutHash(ls[k]);
    }
    ConcatWithout(ls, LayerBlock, '#');
  }

  /** A layer's block holds no '#' when its name holds none. */
  lemma LayerBlockWithoutHash(l: LayerValue)
    requires '#' !in l.name
    ensures '#' !in LayerBlock(l)
  {
    FilterNameWithoutHash(l.filter);
    forall i | 0 <= i < |l.image|
      ensures '#' !in RowQuads(l.image[i])
    {
      forall j | 0 <= j < |l.image[i]|
        ensures '#' !in QuadLine(l.image[i][j])
      {
        QuadLineWithoutHash(l.image[i][j]);
      }
      ConcatWithout(l.image[i], QuadLine, '#');
    }
    ConcatWithout(l.image, RowQuads, '#');
  }

  /** A pixel line of the project text holds no '#'. */
  lemma QuadLineWithoutHash(p: Pixel)
    ensures '#' !in QuadLine(p)
  {
    NumeralWithout(p.red, '#');
    NumeralWithout(p.green, '#');
    NumeralWithout(p.blue, '#');
    NumeralWithout(p.alpha, '#');
  }

  /** A line of the image text holds no '#'. */
  lemma RowLineWithoutHash(row: seq<Pixel>)
    ensures '#' !in RowLine(row)
  {
    if row != [] {
      RowFieldsWithout(row, '#');
    }
  }

  /** A line of the image text before its break holds only digits and spaces. */
  lemma RowFieldsWithout(row: seq<Pixel>, c: char)
    requires |row| >= 1 && c != ' ' && !IsDigit(c)
    ensures c !in Concat(row[..|row| - 1], SpacedField) + RgbField(row[|row| - 1])
  {
    forall j | 0 <= j < |row|
      ensures c !in RgbField(row[j]) && c !in SpacedField(row[j])
    {
      var col := AsRGB(row[j]);
      NumeralWithout(col.r, c);
      NumeralWithout(col.g, c);
      NumeralWithout(col.b, c);
    }
    ConcatWithout(row[..|row| - 1], SpacedField, c);
  }

  /** The image text holds no '#', so it has no comment line. */
  lemma PpmTextWithoutHash(img: Image)
    ensures '#' !in PpmText(img)
  {
    NumeralWithout(Height(img), '#');
    NumeralWithout(Width(img), '#');
    forall i | 0 <= i < |img|
      ensures '#' !in RowLine(img[i])
    {
      RowLineWithoutHash(img[i]);
    }
    ConcatWithout(img, RowLine, '#');
  }

  // ---------------------------------------------------------------------------
  // No empty line: the as-written stripping loop reads the saved texts whole

  /** A text that is empty or ends with a line break. */
  predicate Terminated(s: string) {
    s == [] || s[|s| - 1] == '\n'
  }

  /** A text of whole lines, none of them empty. */
  predicate WholeLines(s: string) {
    Terminated(s) && [] !in Lines(s)
  }

  /** What follows a line break does not change the line before it. */
  lemma {:induction false} LineLengthAppend(a: string, b: string)
    requires LineLength(a) < |a|
    ensures LineLength(a + b) == LineLength(a)
    decreases |a|
  {
    if a[0] != '\n' {
      assert (a + b)[1..] == a[1..] + b;
      LineLengthAppend(a[1..], b);
    }
  }

  /** A text whose first line ends with a break: that line, then the lines
      after the break. */
  lemma FirstLine(s: string, k: nat)
    requires k == LineLength(s) < |s|
    ensures Lines(s) == [s[..k]] + Lines(s[k + 1..])
  {
  }

  /** A text whose first line ends with a break, followed by more text: that
      first line, then the lines of the rest and what follows it. */
  lemma FirstLineAppend(a: string, b: string, k: nat)
    requires k == LineLength(a) < |a|
    ensures Lines(a + b) == [a[..k]] + Lines(a[k + 1..] + b)
  {
    LineLengthAppend(a, b);
    FirstLine(a + b, k);
    SliceAppend(a, b, k);
  }

  /** Slices of a + b that cut inside a. */
  lemma SliceAppend(a: string, b: string, k: nat)
    requires k < |a|
    ensures (a + b)[..k] == a[..k]
    ensures (a + b)[k + 1..] == a[k + 1..] + b
  {
  }

  /** The step of LinesAppend: the first line of a, then the rest. */
  lemma LinesAppendStep(a: string, b: string, k: nat)
    requires k == LineLength(a) < |a|
    requires Lines(a[k + 1..] + b) == Lines(a[k + 1..]) + Lines(b)
    ensures Lines(a + b) == Lines(a) + Lines(b)
  {
    FirstLine(a, k);
    FirstLineAppend(a, b, k);
    ConsAppend(a[..k], Lines(a[k + 1..]), Lines(b));
  }

  lemma ConsAppend<T>(x: T, p: seq<T>, q: seq<T>)
    ensures ([x] + p) + q == [x] + (p + q)
  {
  }

  /** The lines of a text that ends with a line break, then those of the next. */
  lemma {:induction false} LinesAppend(a: string, b: string)
    requires Terminated(a)
    ensures Lines(a + b) == Lines(a) + Lines(b)
    decreases |a|
  {
    if a == [] {
      assert a + b == b;
    } else {
      var k := LineLength(a);
      assert k < |a| by {
        assert a[|a| - 1] == '\n';
      }
      var rest := a[k + 1..];
      assert Terminated(rest) by {
        if rest != [] {
          assert rest[|rest| - 1] == a[|a| - 1];
        }
      }
      LinesAppend(rest, b);
      LinesAppendStep(a, b, k);
    }
  }

  /** One non-empty line and its break. */
  lemma OneLine(t: string)
    requires |t| >= 1 && '\n' !in t
    ensures Lines(t + "\n") == [t]
    ensures WholeLines(t + "\n")
  {
    var s := t + "\n";
    assert forall i :: 0 <= i < |t| ==> s[i] == t[i] && s[i] != '\n';
    assert s[|t|] == '\n';
    assert LineLength(s) == |t|;
    assert s[..|t|] == t;
    assert s[|t| + 1..] == [];
  }

  /** Whole lines followed by whole lines. */
  lemma WholeLinesAppend(a: string, b: string)
    requires WholeLines(a) && WholeLines(b)
    ensures WholeLines(a + b)
  {
    LinesAppend(a, b);
    if b == [] {
      assert a + b == a;
    }
  }

  /** A text made of pieces of whole lines is made of whole lines. */
  lemma {:induction false} ConcatWholeLines<T>(xs: seq<T>, text: T -> string)
    requires forall k :: 0 <= k < |xs| ==> WholeLines(text(xs[k]))
    ensures WholeLines(Concat(xs, text))
  {
    if xs != [] {
      ConcatWholeLines(xs[1..], text);
      WholeLinesAppend(text(xs[0]), Concat(xs[1..], text));
    }
  }

  /** A text of one non-empty line and its break. */
  lemma BrokenLineWhole(t: string)
    requires |t| >= 2 && t[|t| - 1] == '\n' && '\n' !in t[..|t| - 1]
    ensures WholeLines(t)
  {
    assert t == t[..|t| - 1] + "\n";
    OneLine(t[..|t| - 1]);
  }

  /** The size line that follows the magic number. */
  lemma SizeLineWhole(height: nat, width: nat)
    ensures WholeLines(NatToString(width) + " " + NatToString(height) + "\n")
  {
    NumeralWithout(width, '\n');
    NumeralWithout(height, '\n');
    OneLine(NatToString(width) + " " + NatToString(height));
  }

  /** A pixel line of the project text. */
  lemma QuadLineWhole(p: Pixel)
    ensures WholeLines(QuadLine(p))
  {
    NumeralWithout(p.red, '\n');
    NumeralWithout(p.green, '\n');
    NumeralWithout(p.blue, '\n');
    NumeralWithout(p.alpha, '\n');
    OneLine(NatToString(p.red) + " " + NatToString(p.green) + " " + NatToString(p.blue) + " " + NatToString(p.alpha));
  }

  /** A layer's block: its name line and its pixel lines. */
  lemma LayerBlockWhole(l: LayerValue)
    requires IsToken(l.name)
    ensures WholeLines(LayerBlock(l))
  {
    var t := l.name + " " + Name(l.filter);
    FilterNameIsToken(l.filter);
    assert forall i :: 0 <= i < |t| ==> t[i] != '\n' by {
      forall i | 0 <= i < |t|
        ensures t[i] != '\n'
      {
        if i >= |l.name| + 1 {
          assert t[i] == Name(l.filter)[i - |l.name| - 1];
        }
      }
    }
    OneLine(t);
    forall i | 0 <= i < |l.image|
      ensures WholeLines(RowQuads(l.image[i]))
    {
      forall j | 0 <= j < |l.image[i]|
        ensures WholeLines(QuadLine(l.image[i][j]))
      {
        QuadLineWhole(l.image[i][j]);
      }
      ConcatWholeLines(l.image[i], QuadLine);
    }
    ConcatWholeLines(l.image, RowQuads);
    WholeLinesAppend(t + "\n", Concat(l.image, RowQuads));
  }

  /** The project text saveCollage writes has no empty line. */
  lemma CollageTextWhole(height: nat, width: nat, ls: seq<LayerValue>)
    requires TokenNames(ls)
    ensures WholeLines(CollageText(height, width, ls))
  {
    BrokenLineWhole("C1\n");
    BrokenLineWhole("255\n");
    SizeLineWhole(height, width);
    var size := NatToString(width) + " " + NatToString(height) + "\n";
    WholeLinesAppend("C1\n", size);
    WholeLinesAppend("C1\n" + size, "255\n");
    forall k | 0 <= k < |ls|
      ensures WholeLines(LayerBlock(ls[k]))
    {
      LayerBlockWhole(ls[k]);
    }
    ConcatWholeLines(ls, LayerBlock);
    WholeLinesAppend(CollageHeader(height, width), Concat(ls, LayerBlock));
  }

  /** A line of the image text. */
  lemma RowLineWhole(row: seq<Pixel>)
    ensures WholeLines(RowLine(row))
  {
    if row != [] {
      RowFieldsWithout(row, '\n');
      OneLine(Concat(row[..|row| - 1], SpacedField) + RgbField(row[|row| - 1]));
    }
  }

  /** The image text saveImage writes has no empty line. */
  lemma PpmTextWhole(img: Image)
    ensures WholeLines(PpmText(img))
  {
    BrokenLineWhole("P3\n");
    BrokenLineWhole("255\n");
    SizeLineWhole(Height(img), Width(img));
    var size := NatToString(Width(img)) + " " + NatToString(Height(img)) + "\n";
    WholeLinesAppend("P3\n", size);
    WholeLinesAppend("P3\n" + size, "255\n");
    forall i | 0 <= i < |img|
      ensures WholeLines(RowLine(img[i]))
    {
      RowLineWhole(img[i]);
    }
    ConcatWholeLines(img, RowLine);
    WholeLinesAppend(PpmHeader(Height(img), Width(img)), Concat(img, RowLine));
  }

  /** The whole project round trip through a file: saveCollage writes the
      text, readCollage drops its comment lines (it has none) and hands the rest
      to loadProject, which rebuilds the project, each image placed on a blank layer. */
  lemma SaveThenReadCollage(height: int, width: int, ls: seq<LayerValue>, eol: string)
    requires 1 <= height <= INT_MAX && 1 <= width <= INT_MAX && Separator(eol)
    requires Distinct(Names(ls)) && Sized(ls, height, width)
    requires TokenNames(ls) && HashFreeNames(ls)
    ensures var read := ParseCollage(Tokenize(Kept(Lines(CollageText(height, width, ls)), eol)));
            read.Ok? && Load(read.value) == Ok(OnBlankAll(ls))
    ensures var read := ParseCollage(Tokenize(Kept(Lines(CollageText(height, width, ls)), eol)));
            SettledLayers(ls) ==> read.Ok? && Load(read.value) == Ok(ls)
    ensures [] !in Lines(CollageText(height, width, ls))
  {
    CollageTextWhole(height, width, ls);
    CollageTextWithoutHash(height, width, ls);
    StripKeepsTokens(CollageText(height, width, ls), eol);
    SaveThenLoad(height, width, ls);
  }

  /** Reading a saved project file and saving the project again writes the
      same text: the project read back has the saved canvas size and layers. */
  lemma ReadThenResave(height: int, width: int, ls: seq<LayerValue>, eol: string)
    requires 1 <= height <= INT_MAX && 1 <= width <= INT_MAX && Separator(eol)
    requires Distinct(Names(ls)) && Sized(ls, height, width) && SettledLayers(ls)
    requires TokenNames(ls) && HashFreeNames(ls)
    ensures var read := ParseCollage(Tokenize(Kept(Lines(CollageText(height, width, ls)), eol)));
            && read.Ok? && read.value.height == height && read.value.width == width
            && Load(read.value).Ok?
            && CollageText(height, width, Load(read.value).value) == CollageText(height, width, ls)
    ensures [] !in Lines(CollageText(height, width, ls))
  {
    CollageTextWhole(height, width, ls);
    CollageTextWithoutHash(height, width, ls);
    StripKeepsTokens(CollageText(height, width, ls), eol);
    ParseSavedCollage(height, width, ls);
    LoadSaved(height, width, ls);
  }

  /** The whole image round trip through a file: saveImage writes the text,
      readPPM drops its comment lines (it has none), and addImage(String) reads
      the image shown over black. */
  lemma SaveThenReadImageFile(img: Image, eol: string)
    requires Height(img) <= INT_MAX && Width(img) <= INT_MAX && Separator(eol)
    ensures ParsePpm(Tokenize(Kept(Lines(PpmText(img)), eol))) == Ok(OverBlackImage(img))
    ensures [] !in Lines(PpmText(img))
  {
    PpmTextWhole(img);
    PpmTextWithoutHash(img);
    StripKeepsTokens(PpmText(img), eol);
    SaveThenReadImage(img);
  }

  /** readCollage as written, on the file saveCollage wrote: the stripping
      loop meets no empty line, so it keeps the whole text, and loadProject's
      parse gives back a project whose replay places each image on a blank
      layer. */
  method ReadSavedCollage(height: int, width: int, ls: seq<LayerValue>, eol: string) returns (read: Result<Collage>)
    requires 1 <= height <= INT_MAX && 1 <= width <= INT_MAX && Separator(eol)
    requires Distinct(Names(ls)) && Sized(ls, height, width)
    requires TokenNames(ls) && HashFreeNames(ls)
    ensures read.Ok? && Load(read.value) == Ok(OnBlankAll(ls))
    ensures SettledLayers(ls) ==> Load(read.value) == Ok(ls)
  {
    SaveThenReadCollage(height, width, ls, eol);
    var stripped := StripCommentsAsWritten(CollageText(height, width, ls), eol);
    read := ReadCollage(stripped.value);
  }

  /** readPPM as written, on the file saveImage wrote, then addImage(String)'s
      parse: the image shown over black. */
  method ReadSavedImage(img: Image, eol: string) returns (read: Result<Image>)
    requires Height(img) <= INT_MAX && Width(img) <= INT_MAX && Separator(eol)
    ensures read == Ok(OverBlackImage(img))
  {
    SaveThenReadImageFile(img, eol);
    var stripped := StripCommentsAsWritten(PpmText(img), eol);
    read := ReadPpm(stripped.value);
  }

  /** The image text after its magic number's line. */
  function PpmBody(img: Image): string {
    (NatToString(Width(img)) + " " + NatToString(Height(img)) + "\n") + "255\n" + Concat(img, RowLine)
  }

  /** The image text with an empty line inserted after its magic number. */
  function WithBlankLine(img: Image): string {
    "P3\n" + ("\n" + PpmBody(img))
  }

  /** The image text is its magic number's line and the body. */
  lemma PpmTextBody(img: Image)
    ensures PpmText(img) == "P3" + ['\n'] + PpmBody(img)
  {
    var x := NatToString(Width(img)) + " " + NatToString(Height(img)) + "\n";
    var c := Concat(img, RowLine);
    AppendAssoc("P3\n", x, "255\n");
    AppendAssoc("P3\n", x + "255\n", c);
    assert "P3" + ['\n'] == "P3\n";
  }

  /** The second line of a text that starts with the magic number's line and
      a line break is empty. */
  lemma BlankSecondLine(body: string)
    ensures [] in Lines("P3\n" + ("\n" + body))
  {
    var text := "P3\n" + ("\n" + body);
    var rest := "\n" + body;
    assert text[2..] == "\n" + rest;
    assert LineLength(text[2..]) == 0;
    assert text[1..][1..] == text[2..];
    assert LineLength(text[1..]) == 1;
    assert LineLength(text) == 2;
    assert text[3..] == rest;
    assert LineLength(rest) == 0;
    assert Lines(rest) == [[]] + Lines(body);
    assert Lines(text) == [text[..2]] + Lines(rest);
    assert Lines(text)[1] == [];
  }

  /** The empty line changes no token. */
  lemma BlankLineTokens(img: Image)
    ensures Tokenize(WithBlankLine(img)) == Tokenize(PpmText(img))
  {
    var body := PpmBody(img);
    PpmTextBody(img);
    assert IsToken("P3");
    assert WithBlankLine(img) == "P3" + ['\n'] + ("\n" + body);
    TokenizeLead("P3", '\n', "\n" + body);
    assert ("\n" + body)[1..] == body;
    TokenizeLead("P3", '\n', body);
  }

  /** Inserting the empty line adds no '#'. */
  lemma BlankSecondLineWithoutHash(body: string)
    requires '#' !in "P3" + ['\n'] + body
    ensures '#' !in "P3\n" + ("\n" + body)
  {
    var saved := "P3" + ['\n'] + body;
    var text := "P3\n" + ("\n" + body);
    forall i | 0 <= i < |text|
      ensures text[i] != '#'
    {
      if i >= 4 {
        assert text[i] == saved[i - 1];
      }
    }
  }

  /** An image file with an empty line still holds the tokens of the image;
      the stripping loop as written meets that empty line and rejects the
      file, while the corrected loop keeps every token and the image reads
      back. */
  lemma EmptyLineInImageFile(img: Image, eol: string)
    requires Height(img) <= INT_MAX && Width(img) <= INT_MAX && Separator(eol)
    ensures [] in Lines(WithBlankLine(img))
    ensures ParsePpm(Tokenize(Kept(Lines(WithBlankLine(img)), eol))) == Ok(OverBlackImage(img))
  {
    BlankSecondLine(PpmBody(img));
    BlankLineTokens(img);
    PpmTextBody(img);
    PpmTextWithoutHash(img);
    BlankSecondLineWithoutHash(PpmBody(img));
    StripKeepsTokens(WithBlankLine(img), eol);
    SaveThenReadImage(img);
  }
}
