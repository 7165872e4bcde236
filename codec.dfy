/** The text side of src/controller/utils/ImageUtil.java: the project text
    saveCollage builds, the image text saveImage builds, and the loop of readPPM
    and readCollage that drops comment lines before the text is handed to the
    parsers. The strings are modelled; the files they are written to and read
    from are not. Each writer builds its text in a StringBuilder, which is a
    string variable here that the loops extend. */
module Codec {
  import opened Wrappers
  import opened Pixels
  import opened Images
  import opened Tokens
  import opened FilterNames
  import opened Layers

  /** The texts of the elements of a list, one after the other. */
  function Concat<T>(xs: seq<T>, text: T -> string): string {
    if xs == [] then [] else text(xs[0]) + Concat(xs[1..], text)
  }

  /** The text of a list grows by the text of one element at a time. */
  lemma {:induction false} ConcatSnoc<T>(xs: seq<T>, text: T -> string, i: nat)
    requires i < |xs|
    ensures Concat(xs[..i + 1], text) == Concat(xs[..i], text) + text(xs[i])
  {
    if i == 0 {
      assert xs[..1] == [xs[0]];
      assert Concat([xs[0]], text) == text(xs[0]) + Concat([], text);
    } else {
      var tail := xs[1..];
      ConcatSnoc(tail, text, i - 1);
      assert xs[..i + 1][1..] == tail[..i];
      assert xs[..i][1..] == tail[..i - 1];
      assert tail[i - 1] == xs[i];
    }
  }

  /** Appending to a text piece by piece gives the text of the pieces. */
  lemma AppendAssoc(a: string, b: string, c: string)
    ensures (a + b) + c == a + (b + c)
  {
  }

  // ---------------------------------------------------------------------------
  // The project text

  /** The line saveCollage writes for a pixel: its asRGBA channels. */
  function QuadLine(p: Pixel): string {
    NatToString(p.red) + " " + NatToString(p.green) + " " + NatToString(p.blue) + " " + NatToString(p.alpha) + "\n"
  }

  /** The lines of a row, left to right. */
  function RowQuads(row: seq<Pixel>): string {
    Concat(row, QuadLine)
  }

  /** A layer in the project text: its name and filter name on one line, then
      the lines of its rows, top to bottom. */
  function LayerBlock(l: LayerValue): string {
    l.name + " " + Name(l.filter) + "\n" + Concat(l.image, RowQuads)
  }

  /** The first three lines: the magic word, the width before the height, and
      the maximum value 255. */
  function CollageHeader(height: nat, width: nat): string {
    "C1\n" + (NatToString(width) + " " + NatToString(height) + "\n") + "255\n"
  }

  /** The whole project text: the header, then the layers in list order. */
  function CollageText(height: nat, width: nat, ls: seq<LayerValue>): string {
    CollageHeader(height, width) + Concat(ls, LayerBlock)
  }

  /** saveCollage without the file: IllegalArgumentException for a height or
      width below 1; otherwise the project text of the layers, which are given
      as their contents (name, filter and image). */
  method SaveCollage(height: int, width: int, layers: seq<LayerValue>) returns (r: Result<string>)
    ensures r.Err? <==> height < 1 || width < 1
    ensures r.Err? ==> r.error == IllegalArgument
    ensures r.Ok? ==> r.value == CollageText(height, width, layers)
  {
    if height < 1 || width < 1 {
      return Err(IllegalArgument);
    }
    var contents := "C1\n";
    contents := contents + (NatToString(width) + " " + NatToString(height) + "\n");
    contents := contents + "255\n";
    ghost var header := contents;
    for i := 0 to |layers|
      invariant contents == header + Concat(layers[..i], LayerBlock)
    {
      var layer := layers[i];
      ghost var before := contents;
      contents := contents + (layer.name + " " + Name(layer.filter) + "\n");
      contents := AppendRows(contents, layer.image);
      AppendAssoc(before, layer.name + " " + Name(layer.filter) + "\n", Concat(layer.image, RowQuads));
      ConcatSnoc(layers, LayerBlock, i);
      AppendAssoc(header, Concat(layers[..i], LayerBlock), LayerBlock(layer));
    }
    assert layers[..|layers|] == layers;
    return Ok(contents);
  }

  /** The outer pixel loop of saveCollage: the lines of each row, top to bottom. */
  method AppendRows(contents: string, rows: seq<seq<Pixel>>) returns (out: string)
    ensures out == contents + Concat(rows, RowQuads)
  {
    out := contents;
    for i := 0 to |rows|
      invariant out == contents + Concat(rows[..i], RowQuads)
    {
      ghost var before := out;
      out := AppendQuads(out, rows[i]);
      ConcatSnoc(rows, RowQuads, i);
      AppendAssoc(contents, Concat(rows[..i], RowQuads), RowQuads(rows[i]));
    }
    assert rows[..|rows|] == rows;
  }

  /** The inner pixel loop of saveCollage: one line of asRGBA channels per
      pixel, left to right. */
  method AppendQuads(contents: string, row: seq<Pixel>) returns (out: string)
    ensures out == contents + RowQuads(row)
  {
    out := contents;
    for j := 0 to |row|
      invariant out == contents + Concat(row[..j], QuadLine)
    {
      var rgba := AsRGBA(row[j]);
      var line := NatToString(rgba[0]) + " " + NatToString(rgba[1]) + " " + NatToString(rgba[2]) + " "
                  + NatToString(rgba[3]) + "\n";
      assert line == QuadLine(row[j]);
      out := out + line;
      ConcatSnoc(row, QuadLine, j);
      AppendAssoc(contents, Concat(row[..j], QuadLine), line);
    }
    assert row[..|row|] == row;
  }

  // ---------------------------------------------------------------------------
  // The image text

  /** The asRGB channels of a pixel, space separated. */
  function RgbField(p: Pixel): string {
    var c := AsRGB(p);
    NatToString(c.r) + " " + NatToString(c.g) + " " + NatToString(c.b)
  }

  /** A cell that is not the last of its row: its channels and a space. */
  function SpacedField(p: Pixel): string {
    RgbField(p) + " "
  }

  /** The line saveImage writes for a row: every cell but the last followed by a
      space, the last by a line break. */
  function PpmLine(row: seq<Pixel>): string
    requires |row| >= 1
  {
    Concat(row[..|row| - 1], SpacedField) + RgbField(row[|row| - 1]) + "\n"
  }

  /** The whole image text: the magic word, the width before the height, the
      maximum value 255, then one line per row, top to bottom. */
  function PpmText(img: Image): string {
    PpmHeader(Height(img), Width(img)) + Concat(img, RowLine)
  }

  /** The first three lines of the image text. */
  function PpmHeader(height: nat, width: nat): string {
    "P3\n" + (NatToString(width) + " " + NatToString(height) + "\n") + "255\n"
  }

  /** The line of a row of an image; an image row is never empty. */
  function RowLine(row: seq<Pixel>): string {
    if row == [] then [] else PpmLine(row)
  }

  /** saveImage without the file: the image text of the image. */
  method SaveImage(img: Image) returns (text: string)
    ensures text == PpmText(img)
  {
    var contents := "P3\n";
    contents := contents + (NatToString(Width(img)) + " " + NatToString(Height(img)) + "\n");
    contents := contents + "255\n";
    ghost var header := contents;
    var pixels := CopyImage(img);
    for i := 0 to Height(img)
      invariant contents == header + Concat(img[..i], RowLine)
    {
      contents := AppendLine(contents, pixels[i], Width(img));
      ConcatSnoc(img, RowLine, i);
      AppendAssoc(header, Concat(img[..i], RowLine), RowLine(img[i]));
    }
    assert img[..Height(img)] == img;
    text := contents;
  }

  /** The inner loop of saveImage over a row of the given width. */
  method AppendLine(contents: string, row: seq<Pixel>, width: nat) returns (out: string)
    requires |row| == width >= 1
    ensures out == contents + RowLine(row)
  {
    out := contents;
    for j := 0 to width
      invariant j < width ==> out == contents + Concat(row[..j], SpacedField)
      invariant j == width ==> out == contents + PpmLine(row)
    {
      var rgb := AsRGB(row[j]);
      var field := NatToString(rgb.r) + " " + NatToString(rgb.g) + " " + NatToString(rgb.b);
      assert field == RgbField(row[j]);
      ghost var before := out;
      out := out + field;
      if j < width - 1 {
        out := out + " ";
        ConcatSnoc(row, SpacedField, j);
        AppendAssoc(before, field, " ");
        AppendAssoc(contents, Concat(row[..j], SpacedField), field + " ");
      } else {
        out := out + "\n";
        assert row[..|row| - 1] == row[..j];
        AppendAssoc(contents, Concat(row[..j], SpacedField), field);
        AppendAssoc(contents, Concat(row[..j], SpacedField) + field, "\n");
      }
    }
  }

  // ---------------------------------------------------------------------------
  // Comment lines

  /** The length of the first line of a text: the characters before the first
      line break, or the whole text when it has none. */
  function LineLength(s: string): (k: nat)
    ensures k <= |s|
    ensures k < |s| ==> s[k] == '\n'
    ensures forall i :: 0 <= i < k ==> s[i] != '\n'
  {
    if s == [] || s[0] == '\n' then 0 else 1 + LineLength(s[1..])
  }

  /** What nextLine returns while hasNextLine holds: the lines between line
      breaks, the last one also when no break ends it. An empty text has no
      lines. */
  function Lines(s: string): (lines: seq<string>)
    ensures forall i :: 0 <= i < |lines| ==> '\n' !in lines[i]
    decreases |s|
  {
    if s == [] then []
    else
      var k := LineLength(s);
      [s[..k]] + (if k < |s| then Lines(s[k + 1..]) else [])
  }

  /** A line whose first character is '#'. */
  predicate IsComment(line: string) {
    |line| >= 1 && line[0] == '#'
  }

  /** The text the stripping loop builds: every line that is not a comment,
      followed by the line separator, in order. */
  function Kept(lines: seq<string>, eol: string): string {
    if lines == [] then []
    else (if IsComment(lines[0]) then [] else lines[0] + eol) + Kept(lines[1..], eol)
  }

  /** The stripped text grows by one kept line at a time. */
  lemma {:induction false} KeptSnoc(lines: seq<string>, i: nat, eol: string)
    requires i < |lines|
    ensures Kept(lines[..i + 1], eol) == Kept(lines[..i], eol) + (if IsComment(lines[i]) then [] else lines[i] + eol)
  {
    if i == 0 {
      assert lines[..1] == [lines[0]];
      assert Kept([lines[0]], eol) == (if IsComment(lines[0]) then [] else lines[0] + eol) + Kept([], eol);
    } else {
      var tail := lines[1..];
      KeptSnoc(tail, i - 1, eol);
      assert lines[..i + 1][1..] == tail[..i];
      assert lines[..i][1..] == tail[..i - 1];
      assert tail[i - 1] == lines[i];
    }
  }

  /** The loop of readPPM and readCollage as written: s.charAt(0) on an empty
      line throws, so a text with an empty line is not read at all; otherwise
      the lines that are not comments are kept. */
  method StripCommentsAsWritten(text: string, eol: string) returns (r: Result<string>)
    ensures r.Err? <==> [] in Lines(text)
    ensures r.Err? ==> r.error == Malformed
    ensures r.Ok? ==> r.value == Kept(Lines(text), eol)
  {
    var lines := Lines(text);
    var builder := "";
    for i := 0 to |lines|
      invariant [] !in lines[..i]
      invariant builder == Kept(lines[..i], eol)
    {
      var s := lines[i];
      if |s| == 0 {
        assert s in lines;
        return Err(Malformed);
      }
      if s[0] != '#' {
        builder := builder + (s + eol);
      }
      KeptSnoc(lines, i, eol);
      assert lines[..i + 1] == lines[..i] + [s];
    }
    assert lines[..|lines|] == lines;
    return Ok(builder);
  }

  /** The same loop with the evident intent: an empty line is not a comment and
      is kept. */
  method StripComments(text: string, eol: string) returns (stripped: string)
    ensures stripped == Kept(Lines(text), eol)
  {
    var lines := Lines(text);
    stripped := "";
    for i := 0 to |lines|
      invariant stripped == Kept(lines[..i], eol)
    {
      var s := lines[i];
      if |s| == 0 || s[0] != '#' {
        stripped := stripped + (s + eol);
      }
      KeptSnoc(lines, i, eol);
    }
    assert lines[..|lines|] == lines;
  }
}
