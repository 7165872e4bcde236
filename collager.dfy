/** src/model/RGBACollager.java: a project of a fixed canvas size holding an
    ordered list of uniquely named layers. The bottom layer comes first; the
    image of the project at a layer is built by filtering every layer up to it
    and overlaying each on the ones below.

    The first half states the project as values: the list of layer contents
    and what every public operation makes of it. The class Collager keeps the
    layers as objects, as the source does, and each of its methods is proved
    against those value transitions. */
module Collagers {
  import opened Wrappers
  import opened Pixels
  import opened Images
  import opened Filters
  import opened FilterNames
  import opened Layers
  import opened Tokens
  import opened Readers

  // ---------------------------------------------------------------------------
  // The project as values

  /** The layer names, bottom first. */
  function Names(ls: seq<LayerValue>): (names: seq<string>)
    ensures |names| == |ls|
    ensures forall i :: 0 <= i < |ls| ==> names[i] == ls[i].name
  {
    seq(|ls|, i requires 0 <= i < |ls| => ls[i].name)
  }

  /** No name occurs twice. */
  predicate Distinct(names: seq<string>) {
    forall i, j :: 0 <= i < j < |names| ==> names[i] != names[j]
  }

  /** Every layer image has the canvas size. */
  predicate Sized(ls: seq<LayerValue>, height: int, width: int) {
    forall i :: 0 <= i < |ls| ==> Height(ls[i].image) == height && Width(ls[i].image) == width
  }

  /** The position a scan from the bottom finds a name at: the first one. */
  function IndexOf(names: seq<string>, name: string): (r: Option<nat>)
    ensures r.None? <==> name !in names
    ensures r.Some? ==> r.value < |names| && names[r.value] == name
    ensures r.Some? ==> forall k :: 0 <= k < r.value ==> names[k] != name
  {
    if names == [] then None
    else if names[0] == name then Some(0)
    else match IndexOf(names[1..], name)
      case None => None
      case Some(k) => Some(k + 1)
  }

  /** With distinct names the position of a name is the only one holding it. */
  lemma IndexOfDistinct(names: seq<string>, k: nat)
    requires Distinct(names) && k < |names|
    ensures IndexOf(names, names[k]) == Some(k)
  {
  }

  /** addLayer on the values: IllegalArgumentException for a name that is
      taken; otherwise a blank layer with the normal filter on top. */
  function AppendLayer(ls: seq<LayerValue>, name: string, height: int, width: int): (r: Result<seq<LayerValue>>)
    requires height >= 1 && width >= 1
    ensures r.Err? <==> name in Names(ls)
    ensures r.Err? ==> r.error == IllegalArgument
    ensures r.Ok? ==> && |r.value| == |ls| + 1 && r.value[..|ls|] == ls
                      && r.value[|ls|] == LayerValue(name, Normal, BlankImage(height, width))
  {
    if name in Names(ls) then Err(IllegalArgument)
    else Ok(ls + [LayerValue(name, Normal, BlankImage(height, width))])
  }

  /** setFilter on the values: IllegalArgumentException for a name no layer
      has or a filter name no catalog constant has; otherwise the first layer
      with that name takes the constant, and nothing else changes. */
  function SetLayerFilter(ls: seq<LayerValue>, name: string, filterName: string): (r: Result<seq<LayerValue>>)
    ensures r.Err? <==> name !in Names(ls) || Lookup(filterName).None?
    ensures r.Err? ==> r.error == IllegalArgument
    ensures r.Ok? ==> && |r.value| == |ls| && Names(r.value) == Names(ls)
                      && var k := IndexOf(Names(ls), name).value;
                         && r.value[k].filter == Lookup(filterName).value
                         && r.value[k].image == ls[k].image
                         && forall i :: 0 <= i < |ls| && i != k ==> r.value[i] == ls[i]
  {
    match IndexOf(Names(ls), name)
    case None => Err(IllegalArgument)
    case Some(k) =>
      match Lookup(filterName)
      case None => Err(IllegalArgument)
      case Some(f) => Ok(ls[k := LayerValue(ls[k].name, f, ls[k].image)])
  }

  /** addImage on the values: IllegalArgumentException for a name no layer has
      or an image that does not fit at the offset; otherwise the first layer
      with that name has the image overlaid, and nothing else changes. */
  function PlaceImage(ls: seq<LayerValue>, name: string, img: Image, startY: int, startX: int): (r: Result<seq<LayerValue>>)
    ensures r.Err? <==> name !in Names(ls) || !Fits(ls[IndexOf(Names(ls), name).value].image, img, startY, startX)
    ensures r.Err? ==> r.error == IllegalArgument
    ensures r.Ok? ==> && |r.value| == |ls| && Names(r.value) == Names(ls)
                      && var k := IndexOf(Names(ls), name).value;
                         && r.value[k].filter == ls[k].filter
                         && r.value[k].image == Overlay(ls[k].image, img, startY, startX)
                         && forall i :: 0 <= i < |ls| && i != k ==> r.value[i] == ls[i]
  {
    match IndexOf(Names(ls), name)
    case None => Err(IllegalArgument)
    case Some(k) =>
      if !Fits(ls[k].image, img, startY, startX) then Err(IllegalArgument)
      else Ok(ls[k := LayerValue(ls[k].name, ls[k].filter, Overlay(ls[k].image, img, startY, startX))])
  }

  /** The transitions keep the names distinct and every image at the canvas
      size. */
  lemma TransitionsKeepShape(ls: seq<LayerValue>, height: int, width: int, name: string, filterName: string,
                             img: Image, startY: int, startX: int)
    requires height >= 1 && width >= 1
    requires Distinct(Names(ls)) && Sized(ls, height, width)
    ensures AppendLayer(ls, name, height, width).Ok? ==>
              var r := AppendLayer(ls, name, height, width).value; Distinct(Names(r)) && Sized(r, height, width)
    ensures SetLayerFilter(ls, name, filterName).Ok? ==>
              var r := SetLayerFilter(ls, name, filterName).value; Distinct(Names(r)) && Sized(r, height, width)
    ensures PlaceImage(ls, name, img, startY, startX).Ok? ==>
              var r := PlaceImage(ls, name, img, startY, startX).value; Distinct(Names(r)) && Sized(r, height, width)
  {
    var a := AppendLayer(ls, name, height, width);
    if a.Ok? {
      assert Names(a.value) == Names(ls) + [name];
    }
  }

  /** One pass of the replay loop of loadProject for one layer read. */
  function ReplayStep(ls: seq<LayerValue>, e: LayerEntry, height: int, width: int): (r: Result<seq<LayerValue>>)
    requires height >= 1 && width >= 1
  {
    var added :- AppendLayer(ls, e.name, height, width);
    var filtered :- SetLayerFilter(added, e.name, e.filter);
    PlaceImage(filtered, e.name, e.image, 0, 0)
  }

  /** The replay at the end of loadProject: for every layer read, addLayer,
      then setFilter with the filter name read, then addImage of the image read
      at (0, 0). The first failure ends the replay. */
  function Replay(ls: seq<LayerValue>, entries: seq<LayerEntry>, height: int, width: int): (r: Result<seq<LayerValue>>)
    requires height >= 1 && width >= 1
    decreases |entries|
  {
    if entries == [] then Ok(ls)
    else
      var next :- ReplayStep(ls, entries[0], height, width);
      Replay(next, entries[1..], height, width)
  }

  /** loadProject once the text is read: createProject with the size read
      (IllegalArgumentException unless both are positive), then the replay on
      an empty project. */
  function Load(c: Collage): (r: Result<seq<LayerValue>>)
    ensures c.height < 1 || c.width < 1 ==> r == Err(IllegalArgument)
  {
    if c.height < 1 || c.width < 1 then Err(IllegalArgument)
    else Replay([], c.layers, c.height, c.width)
  }

  /** A replay that succeeds leaves a project whose names are distinct and
      whose images have the canvas size, whatever the text held. */
  lemma {:induction false} ReplayKeepsShape(ls: seq<LayerValue>, entries: seq<LayerEntry>, height: int, width: int)
    requires height >= 1 && width >= 1
    requires Distinct(Names(ls)) && Sized(ls, height, width)
    ensures Replay(ls, entries, height, width).Ok? ==>
              var r := Replay(ls, entries, height, width).value; Distinct(Names(r)) && Sized(r, height, width)
    decreases |entries|
  {
    if entries != [] && ReplayStep(ls, entries[0], height, width).Ok? {
      var e := entries[0];
      var added := AppendLayer(ls, e.name, height, width);
      if added.Ok? {
        TransitionsKeepShape(ls, height, width, e.name, e.filter, e.image, 0, 0);
        var filtered := SetLayerFilter(added.value, e.name, e.filter);
        if filtered.Ok? {
          TransitionsKeepShape(added.value, height, width, e.name, e.filter, e.image, 0, 0);
          var placed := PlaceImage(filtered.value, e.name, e.image, 0, 0);
          if placed.Ok? {
            TransitionsKeepShape(filtered.value, height, width, e.name, e.filter, e.image, 0, 0);
            ReplayKeepsShape(placed.value, entries[1..], height, width);
          }
        }
      }
    }
  }

  // ---------------------------------------------------------------------------
  // The image of a project at a layer

  /** Every layer image has the size of the bottom one. */
  predicate Uniform(ls: seq<LayerValue>) {
    forall i :: 0 <= i < |ls| ==>
      Height(ls[i].image) == Height(ls[0].image) && Width(ls[i].image) == Width(ls[0].image)
  }

  /** One pass of the loop of makeImageAt for a layer over the image built so
      far: a layer with a two-image filter first blends its image over that
      image, then the layer's image under its filter's one-image form is
      overlaid at (0, 0). */
  function Composite(layer: LayerValue, below: Image): (r: Image)
    requires Height(layer.image) == Height(below) && Width(layer.image) == Width(below)
    ensures Height(r) == Height(below) && Width(r) == Width(below)
  {
    var under := if Type(layer.filter) == Two
                 then TwoApply(GetTwoFilter(layer.filter).value, layer.image, below).value
                 else below;
    Overlay(under, ApplyOne(GetFilter(layer.filter), layer.image), 0, 0)
  }

  /** makeImageAt(k): the bottom layer under its filter, then every layer up
      to k composited over the result in order. */
  function Flatten(ls: seq<LayerValue>, k: nat): (r: Image)
    requires k < |ls|
    requires Uniform(ls)
    ensures Height(r) == Height(ls[0].image) && Width(r) == Width(ls[0].image)
  {
    if k == 0 then ApplyOne(GetFilter(ls[0].filter), ls[0].image)
    else Composite(ls[k], Flatten(ls, k - 1))
  }

  /** The image at a layer depends only on the layers up to it: it is the final
      image of the project cut above that layer. */
  lemma {:induction false} FlattenPrefix(ls: seq<LayerValue>, k: nat, n: nat)
    requires k < n <= |ls|
    requires Uniform(ls)
    ensures Flatten(ls[..n], k) == Flatten(ls, k)
  {
    var p := ls[..n];
    assert p[0] == ls[0] && p[k] == ls[k];
    if k > 0 {
      FlattenPrefix(ls, k - 1, n);
      assert Flatten(p, k) == Composite(p[k], Flatten(p, k - 1));
      assert Flatten(ls, k) == Composite(ls[k], Flatten(ls, k - 1));
    } else {
      assert Flatten(p, 0) == ApplyOne(GetFilter(ls[0].filter), ls[0].image);
    }
  }

  /** Plain overlaying from the bottom up: what the image of a project whose
      layers all have the normal filter reduces to (FlattenNormal). Its own
      contract only keeps the canvas size, which the recursion needs. */
  function Stack(ls: seq<LayerValue>, k: nat): (r: Image)
    requires k < |ls|
    requires Uniform(ls)
    ensures Height(r) == Height(ls[0].image) && Width(r) == Width(ls[0].image)
  {
    if k == 0 then ls[0].image else Overlay(Stack(ls, k - 1), ls[k].image, 0, 0)
  }

  /** With the normal filter everywhere, the image at a layer is the layers up
      to it overlaid in order. */
  lemma {:induction false} FlattenNormal(ls: seq<LayerValue>, k: nat)
    requires k < |ls|
    requires Uniform(ls)
    requires forall i :: 0 <= i <= k ==> ls[i].filter == Normal
    ensures Flatten(ls, k) == Stack(ls, k)
  {
    if k > 0 {
      FlattenNormal(ls, k - 1);
    }
  }

  /** A layer with the normal filter is overlaid as it is on the image below
      it. */
  lemma NormalStep(ls: seq<LayerValue>, k: nat)
    requires 0 < k < |ls| && Uniform(ls) && ls[k].filter == Normal
    ensures Flatten(ls, k) == Overlay(Flatten(ls, k - 1), ls[k].image, 0, 0)
  {
  }

  /** A one-image filter keeps every pixel's alpha. */
  lemma OneFilterKeepsAlpha(f: FilterName, p: Pixel)
    requires Type(f) == One
    ensures ResultPixel(GetFilter(f), p).alpha == p.alpha
  {
  }

  /** A fully opaque layer whose filter works on one image hides everything
      below it: the image at that layer is that layer alone under its filter. */
  lemma OpaqueLayerCovers(ls: seq<LayerValue>, k: nat)
    requires k < |ls|
    requires Uniform(ls)
    requires Type(ls[k].filter) == One
    requires forall i, j :: 0 <= i < Height(ls[k].image) && 0 <= j < Width(ls[k].image) ==> ls[k].image[i][j].alpha == MAX
    ensures Flatten(ls, k) == ApplyOne(GetFilter(ls[k].filter), ls[k].image)
  {
    var top := ApplyOne(GetFilter(ls[k].filter), ls[k].image);
    forall i, j | 0 <= i < Height(top) && 0 <= j < Width(top)
      ensures top[i][j].alpha == MAX
    {
      OneFilterKeepsAlpha(ls[k].filter, ls[k].image[i][j]);
    }
    if k > 0 {
      var below := Flatten(ls, k - 1);
      var r := Overlay(below, top, 0, 0);
      OverlayOpaqueCovers(below, top, 0, 0);
      forall i, j | 0 <= i < Height(top) && 0 <= j < Width(top)
        ensures r[i][j] == top[i][j]
      {
        assert r[i + 0][j + 0] == top[i][j];
      }
      SameImage(r, top);
    }
  }

  // ---------------------------------------------------------------------------
  // The three-layer project of the source's tests

  /** A layer of the scenario: a blank 2 x 2 image with one opaque pixel placed
      at (y, x). */
  function Dot(p: Pixel, y: int, x: int): (img: Image)
    requires 0 <= y < 2 && 0 <= x < 2
  {
    seq(2, i => seq(2, j => if i == y && j == x then p else Blank))
  }

  /** Placing a one-pixel opaque image on a blank 2 x 2 image gives that dot. */
  lemma PlaceDot(p: Pixel, y: int, x: int)
    requires p.alpha == MAX && 0 <= y < 2 && 0 <= x < 2
    ensures Fits(BlankImage(2, 2), [[p]], y, x)
    ensures Overlay(BlankImage(2, 2), [[p]], y, x) == Dot(p, y, x)
  {
    var top: Image := [[p]];
    OverlayOnBlank(2, 2, top, y, x);
    SameImage(Overlay(BlankImage(2, 2), top, y, x), Dot(p, y, x));
  }

  /** The layers bottom, middle and top of the tests, all with the normal
      filter: a dot of colour `a` at (0, 0), `b` at (1, 0) and `c` at (0, 1). */
  function ThreeLayers(a: Pixel, b: Pixel, c: Pixel): (ls: seq<LayerValue>)
    ensures Uniform(ls) && |ls| == 3
  {
    [LayerValue("bottom", Normal, Dot(a, 0, 0)),
     LayerValue("middle", Normal, Dot(b, 1, 0)),
     LayerValue("top", Normal, Dot(c, 0, 1))]
  }

  /** The layer names of the scenario and where the middle one is found. */
  lemma ThreeLayerNames(a: Pixel, b: Pixel, c: Pixel)
    ensures Names(ThreeLayers(a, b, c)) == ["bottom", "middle", "top"]
    ensures IndexOf(Names(ThreeLayers(a, b, c)), "middle") == Some(1)
  {
    assert Names(ThreeLayers(a, b, c))[1] == "middle";
  }

  /** Placing the three dots one layer at a time. */
  lemma PlaceThreeDots(a: Pixel, b: Pixel, c: Pixel)
    requires a.alpha == MAX && b.alpha == MAX && c.alpha == MAX
    ensures PlaceImage(ThreeLayers(Blank, Blank, Blank), "bottom", [[a]], 0, 0) == Ok(ThreeLayers(a, Blank, Blank))
    ensures PlaceImage(ThreeLayers(a, Blank, Blank), "middle", [[b]], 1, 0) == Ok(ThreeLayers(a, b, Blank))
    ensures PlaceImage(ThreeLayers(a, b, Blank), "top", [[c]], 0, 1) == Ok(ThreeLayers(a, b, c))
  {
    var blank := BlankImage(2, 2);
    SameImage(blank, Dot(Blank, 0, 0));
    SameImage(blank, Dot(Blank, 1, 0));
    SameImage(blank, Dot(Blank, 0, 1));
    PlaceDot(a, 0, 0);
    PlaceDot(b, 1, 0);
    PlaceDot(c, 0, 1);
    var ls0 := ThreeLayers(Blank, Blank, Blank);
    ThreeLayerNames(Blank, Blank, Blank);
    assert IndexOf(Names(ls0), "bottom") == Some(0);
    assert ls0[0 := LayerValue("bottom", Normal, Dot(a, 0, 0))] == ThreeLayers(a, Blank, Blank);
    var ls1 := ThreeLayers(a, Blank, Blank);
    ThreeLayerNames(a, Blank, Blank);
    assert IndexOf(Names(ls1), "middle") == Some(1);
    assert ls1[1 := LayerValue("middle", Normal, Dot(b, 1, 0))] == ThreeLayers(a, b, Blank);
    var ls2 := ThreeLayers(a, b, Blank);
    ThreeLayerNames(a, b, Blank);
    assert IndexOf(Names(ls2), "top") == Some(2);
    assert ls2[2 := LayerValue("top", Normal, Dot(c, 0, 1))] == ThreeLayers(a, b, c);
  }

  /** The image the tests expect at the middle layer for opaque dots: the
      first two dots with transparent black elsewhere. */
  lemma MiddleLayerImage(a: Pixel, b: Pixel, c: Pixel)
    requires a.alpha == MAX && b.alpha == MAX
    ensures Flatten(ThreeLayers(a, b, c), 1) == [[a, Pixel(0, 0, 0, 0)], [b, Pixel(0, 0, 0, 0)]]
  {
    var ls := ThreeLayers(a, b, c);
    FlattenNormal(ls, 1);
    var two: Image := [[a, Pixel(0, 0, 0, 0)], [b, Pixel(0, 0, 0, 0)]];
    var bottom := Dot(a, 0, 0);
    var middle := Dot(b, 1, 0);
    OverlaySquare(bottom, middle);
    assert bottom[0][0] == a && bottom[0][1] == Blank && bottom[1][0] == Blank && bottom[1][1] == Blank;
    assert middle[0][0] == Blank && middle[0][1] == Blank && middle[1][0] == b && middle[1][1] == Blank;
  }

  /** Overlaying one 2 x 2 image on another at (0, 0) combines them cell by
      cell. */
  lemma OverlaySquare(base: Image, top: Image)
    requires Height(base) == 2 && Width(base) == 2 && Height(top) == 2 && Width(top) == 2
    ensures Overlay(base, top, 0, 0) == [[Combine(base[0][0], top[0][0]), Combine(base[0][1], top[0][1])],
                                         [Combine(base[1][0], top[1][0]), Combine(base[1][1], top[1][1])]]
  {
    var r := Overlay(base, top, 0, 0);
    assert r[0] == [Combine(base[0][0], top[0][0]), Combine(base[0][1], top[0][1])];
    assert r[1] == [Combine(base[1][0], top[1][0]), Combine(base[1][1], top[1][1])];
  }

  /** The final image the tests expect for opaque dots: all three dots with
      transparent black in the corner none covers. */
  lemma FinalImage(a: Pixel, b: Pixel, c: Pixel)
    requires a.alpha == MAX && b.alpha == MAX && c.alpha == MAX
    ensures Flatten(ThreeLayers(a, b, c), 2) == [[a, c], [b, Pixel(0, 0, 0, 0)]]
  {
    var ls := ThreeLayers(a, b, c);
    MiddleLayerImage(a, b, c);
    NormalStep(ls, 2);
    var three: Image := [[a, c], [b, Pixel(0, 0, 0, 0)]];
    var top := Dot(c, 0, 1);
    OverlaySquare([[a, Pixel(0, 0, 0, 0)], [b, Pixel(0, 0, 0, 0)]], top);
    assert top[0][0] == Blank && top[0][1] == c && top[1][0] == Blank && top[1][1] == Blank;
  }

  // ---------------------------------------------------------------------------
  // The collager object

  class Collager {
    var layers: seq<Layer>
    var height: int
    var width: int

    /** Either no project (a 0 x 0 canvas without layers) or a positive canvas
        whose layers have its size and distinct names. */
    predicate Valid()
      reads this
    {
      && ((height == 0 && width == 0) || (height >= 1 && width >= 1))
      && (height == 0 ==> layers == [])
      && (forall i :: 0 <= i < |layers| ==>
            layers[i].Valid() && layers[i].height == height && layers[i].width == width)
      && (forall i, j :: 0 <= i < j < |layers| ==> layers[i].layerName != layers[j].layerName)
    }

    /** The layers' contents, bottom first. */
    function Model(): (m: seq<LayerValue>)
      reads this, layers
      ensures |m| == |layers|
      ensures forall i :: 0 <= i < |layers| ==> m[i] == layers[i].Value()
    {
      seq(|layers|, i reads this, layers requires 0 <= i < |layers| => layers[i].Value())
    }

    /** What Valid says about the contents. */
    lemma ValidModel()
      requires Valid()
      ensures Distinct(Names(Model())) && Sized(Model(), height, width) && Uniform(Model())
      ensures forall i :: 0 <= i < |layers| ==> Names(Model())[i] == layers[i].layerName
    {
    }

    /** RGBACollager(): no project. */
    constructor()
      ensures Valid() && height == 0 && width == 0 && layers == []
    {
      height := 0;
      width := 0;
      layers := [];
    }

    /** RGBACollager(height, width): a project of that size without layers, or
        IllegalArgumentException from createProject. */
    static method WithProject(height: int, width: int) returns (r: Result<Collager>)
      ensures r.Err? <==> height <= 0 || width <= 0
      ensures r.Err? ==> r.error == IllegalArgument
      ensures r.Ok? ==> && fresh(r.value) && r.value.Valid()
                        && r.value.height == height && r.value.width == width && r.value.layers == []
    {
      var c := new Collager();
      var o := c.CreateProject(height, width);
      if o.Fail? {
        return Err(o.error);
      }
      return Ok(c);
    }

    /** createProject: IllegalArgumentException for a size that is not
        positive, leaving everything as it was; otherwise the canvas takes the
        size and every layer is dropped. */
    method CreateProject(height: int, width: int) returns (o: Outcome)
      modifies this
      ensures o.Fail? <==> height <= 0 || width <= 0
      ensures o.Fail? ==> o.error == IllegalArgument && unchanged(this)
      ensures o.Pass? ==> Valid() && this.height == height && this.width == width && layers == []
    {
      if height <= 0 || width <= 0 {
        return Fail(IllegalArgument);
      }
      this.height := height;
      this.width := width;
      layers := [];
      return Pass;
    }

    /** addLayer: IllegalStateException without a project,
        IllegalArgumentException for a missing name or one that is taken, and
        otherwise a blank normal layer of the canvas size on top. */
    method AddLayer(name: Option<string>) returns (o: Outcome)
      requires Valid()
      modifies this
      ensures Valid() && height == old(height) && width == old(width)
      ensures forall l :: l in layers ==> l in old(layers) || fresh(l)
      ensures old(height) == 0 ==> o == Fail(IllegalState)
      ensures old(height) != 0 && name.None? ==> o == Fail(IllegalArgument)
      ensures old(height) != 0 && name.Some? ==>
                && (o.Fail? <==> AppendLayer(old(Model()), name.value, height, width).Err?)
                && (o.Fail? ==> o.error == IllegalArgument)
                && (o.Pass? ==> Model() == AppendLayer(old(Model()), name.value, height, width).value)
      ensures o.Fail? ==> unchanged(this)
    {
      if height == 0 || width == 0 {
        return Fail(IllegalState);
      }
      if name.None? {
        return Fail(IllegalArgument);
      }
      ghost var before := Model();
      for i := 0 to |layers|
        invariant forall k :: 0 <= k < i ==> layers[k].layerName != name.value
      {
        if layers[i].layerName == name.value {
          assert Names(before)[i] == name.value;
          return Fail(IllegalArgument);
        }
      }
      assert name.value !in Names(before);
      var made := Layer.New(name, Some(Normal), height, width);
      var layer := made.value;
      layers := layers + [layer];
      assert Model() == before + [layer.Value()];
      return Pass;
    }

    /** setFilter: IllegalStateException without a project;
        IllegalArgumentException for a missing layer or filter name, for a name
        no layer has and, from updateFilter, for an unknown filter name;
        otherwise the first layer with that name takes the filter. The list of
        layer objects stays as it is; only that layer changes. */
    method SetFilter(layerName: Option<string>, filterName: Option<string>) returns (o: Outcome)
      requires Valid()
      modifies layers
      ensures Valid() && layers == old(layers)
      ensures height == 0 ==> o == Fail(IllegalState)
      ensures height != 0 && (layerName.None? || filterName.None?) ==> o == Fail(IllegalArgument)
      ensures height != 0 && layerName.Some? && filterName.Some? ==>
                && (o.Fail? <==> SetLayerFilter(old(Model()), layerName.value, filterName.value).Err?)
                && (o.Fail? ==> o.error == IllegalArgument)
                && (o.Pass? ==> Model() == SetLayerFilter(old(Model()), layerName.value, filterName.value).value)
      ensures o.Fail? ==> Model() == old(Model())
    {
      if height == 0 || width == 0 {
        return Fail(IllegalState);
      }
      if layerName.None? {
        return Fail(IllegalArgument);
      }
      if filterName.None? {
        return Fail(IllegalArgument);
      }
      ghost var before := Model();
      for i := 0 to |layers|
        invariant forall k :: 0 <= k < i ==> layers[k].layerName != layerName.value
        invariant Model() == before
      {
        if layers[i].layerName == layerName.value {
          IndexOfDistinct(Names(before), i);
          o := UpdateLayerFilter(i, filterName.value);
          return;
        }
      }
      assert layerName.value !in Names(before);
      return Fail(IllegalArgument);
    }

    /** layers.get(i).updateFilter(filterName): the layer object at i takes the
        filter the name looks up, or IllegalArgumentException leaves it as it
        was; no other layer object is affected. */
    method UpdateLayerFilter(i: nat, filterName: string) returns (o: Outcome)
      requires Valid() && i < |layers|
      modifies layers[i]
      ensures Valid() && layers == old(layers)
      ensures o.Fail? <==> Lookup(filterName).None?
      ensures o.Fail? ==> o.error == IllegalArgument && Model() == old(Model())
      ensures o.Pass? ==> Model() == old(Model())[i := LayerValue(old(Model())[i].name, Lookup(filterName).value,
                                                                  old(Model())[i].image)]
    {
      ghost var before := Model();
      var layer := layers[i];
      o := layer.UpdateFilter(Some(filterName));
      forall k | 0 <= k < |layers| && k != i
        ensures layers[k] != layer
      {
        assert layers[k].layerName != layer.layerName;
      }
      if o.Pass? {
        assert Model() == before[i := LayerValue(layer.layerName, layer.filterName, layer.image)];
      } else {
        assert Model() == before;
      }
    }

    /** layers.set(i, layer) for a layer of the same name and size. */
    method SetLayer(i: nat, layer: Layer)
      requires Valid() && i < |layers|
      requires layer.Valid() && layer.height == height && layer.width == width
      requires layer.layerName == layers[i].layerName
      modifies this
      ensures Valid() && height == old(height) && width == old(width)
      ensures layers == old(layers)[i := layer]
      ensures Model() == old(Model())[i := layer.Value()]
    {
      layers := layers[i := layer];
    }

    /** addImage with an image: IllegalStateException without a project;
        IllegalArgumentException for a missing name or image, a negative
        offset, a name no layer has, or an image that does not fit; otherwise
        the first layer with that name is replaced by its combination with the
        image. */
    method AddImage(layerName: Option<string>, img: Option<Image>, startY: int, startX: int) returns (o: Outcome)
      requires Valid()
      modifies this
      ensures Valid() && height == old(height) && width == old(width)
      ensures forall l :: l in layers ==> l in old(layers) || fresh(l)
      ensures old(height) == 0 ==> o == Fail(IllegalState)
      ensures old(height) != 0 && (layerName.None? || img.None? || startY < 0 || startX < 0) ==>
                o == Fail(IllegalArgument)
      ensures old(height) != 0 && layerName.Some? && img.Some? && startY >= 0 && startX >= 0 ==>
                && (o.Fail? <==> PlaceImage(old(Model()), layerName.value, img.value, startY, startX).Err?)
                && (o.Fail? ==> o.error == IllegalArgument)
                && (o.Pass? ==> Model() == PlaceImage(old(Model()), layerName.value, img.value, startY, startX).value)
      ensures o.Fail? ==> unchanged(this)
    {
      if height == 0 || width == 0 {
        return Fail(IllegalState);
      }
      if layerName.None? || img.None? {
        return Fail(IllegalArgument);
      }
      if startY < 0 || startX < 0 {
        return Fail(IllegalArgument);
      }
      ghost var before := Model();
      for i := 0 to |layers|
        invariant forall k :: 0 <= k < i ==> layers[k].layerName != layerName.value
      {
        if layers[i].layerName == layerName.value {
          IndexOfDistinct(Names(before), i);
          var combined := layers[i].Combine(img.value, startY, startX);
          if combined.Err? {
            return Fail(combined.error);
          }
          SetLayer(i, combined.value);
          return Pass;
        }
      }
      assert layerName.value !in Names(before);
      return Fail(IllegalArgument);
    }

    /** addImage with the text of a plain PPM file: IllegalStateException
        without a project; IllegalArgumentException for missing contents (this
        is checked first), a missing name or a negative offset; then the text is
        read, and its errors are reported; then the image is added as above. */
    method AddImageText(layerName: Option<string>, contents: Option<string>, startY: int, startX: int)
      returns (o: Outcome)
      requires Valid()
      modifies this
      ensures Valid() && height == old(height) && width == old(width)
      ensures forall l :: l in layers ==> l in old(layers) || fresh(l)
      ensures old(height) == 0 ==> o == Fail(IllegalState)
      ensures old(height) != 0 && (contents.None? || layerName.None? || startY < 0 || startX < 0) ==>
                o == Fail(IllegalArgument)
      ensures old(height) != 0 && contents.Some? && layerName.Some? && startY >= 0 && startX >= 0 ==>
                && (ParsePpm(Tokenize(contents.value)).Err? ==> o == Fail(ParsePpm(Tokenize(contents.value)).error))
                && (ParsePpm(Tokenize(contents.value)).Ok? ==>
                      && (o.Fail? <==> PlaceImage(old(Model()), layerName.value, ParsePpm(Tokenize(contents.value)).value,
                                                  startY, startX).Err?)
                      && (o.Fail? ==> o.error == IllegalArgument)
                      && (o.Pass? ==> Model() == PlaceImage(old(Model()), layerName.value,
                                                            ParsePpm(Tokenize(contents.value)).value, startY, startX).value))
      ensures o.Fail? ==> unchanged(this)
    {
      if height == 0 || width == 0 {
        return Fail(IllegalState);
      }
      if contents.None? {
        return Fail(IllegalArgument);
      }
      if layerName.None? {
        return Fail(IllegalArgument);
      }
      if startY < 0 || startX < 0 {
        return Fail(IllegalArgument);
      }
      var read := ReadPpm(contents.value);
      if read.Err? {
        return Fail(read.error);
      }
      o := AddImage(layerName, Some(read.value), startY, startX);
    }

    /** One pass of the replay loop of loadProject: addLayer, setFilter and
        addImage at (0, 0) for one layer read, stopping at the first error. */
    method ReplayEntry(e: LayerEntry) returns (o: Outcome)
      requires Valid() && height >= 1
      modifies this, set l | l in layers
      ensures Valid() && height == old(height) && width == old(width)
      ensures forall l :: l in layers ==> l in old(layers) || fresh(l)
      ensures o.Pass? <==> ReplayStep(old(Model()), e, height, width).Ok?
      ensures o.Fail? ==> o.error == IllegalArgument
      ensures o.Pass? ==> Model() == ReplayStep(old(Model()), e, height, width).value
    {
      o := AddLayer(Some(e.name));
      if o.Fail? {
        return;
      }
      o := SetFilter(Some(e.name), Some(e.filter));
      if o.Fail? {
        return;
      }
      o := AddImage(Some(e.name), Some(e.image), 0, 0);
    }

    /** loadProject: IllegalArgumentException for missing contents; then the
        text is read and its errors are reported with nothing changed; then the
        project read is loaded. */
    method LoadProject(contents: Option<string>) returns (o: Outcome)
      requires Valid()
      modifies this
      ensures Valid()
      ensures contents.None? ==> o == Fail(IllegalArgument) && unchanged(this)
      ensures contents.Some? && ParseCollage(Tokenize(contents.value)).Err? ==>
                o == Fail(ParseCollage(Tokenize(contents.value)).error) && unchanged(this)
      ensures contents.Some? && ParseCollage(Tokenize(contents.value)).Ok? ==>
                var c := ParseCollage(Tokenize(contents.value)).value;
                && (o.Pass? <==> Load(c).Ok?)
                && (o.Fail? ==> o.error == IllegalArgument)
                && (c.height < 1 || c.width < 1 ==> unchanged(this))
                && (o.Pass? ==> height == c.height && width == c.width && Model() == Load(c).value)
    {
      if contents.None? {
        return Fail(IllegalArgument);
      }
      var read := ReadCollage(contents.value);
      if read.Err? {
        return Fail(read.error);
      }
      o := LoadCollage(read.value);
    }

    /** The end of loadProject once the text is read: createProject with the
        size read, then addLayer, setFilter and addImage at (0, 0) for every
        layer read, in file order. */
    method LoadCollage(c: Collage) returns (o: Outcome)
      requires Valid()
      modifies this
      ensures Valid()
      ensures o.Pass? <==> Load(c).Ok?
      ensures o.Fail? ==> o.error == IllegalArgument
      ensures c.height < 1 || c.width < 1 ==> unchanged(this)
      ensures o.Pass? ==> height == c.height && width == c.width && Model() == Load(c).value
    {
      o := CreateProject(c.height, c.width);
      if o.Fail? {
        return;
      }
      assert c.layers[0..] == c.layers;
      var i := 0;
      while i < |c.layers|
        invariant 0 <= i <= |c.layers|
        invariant Valid() && height == c.height && width == c.width
        invariant forall l :: l in layers ==> fresh(l)
        invariant Load(c) == Replay(Model(), c.layers[i..], height, width)
      {
        assert c.layers[i..][0] == c.layers[i] && c.layers[i..][1..] == c.layers[i + 1..];
        o := ReplayEntry(c.layers[i]);
        if o.Fail? {
          return;
        }
        i := i + 1;
      }
      return Pass;
    }

    /** getLayerNames: IllegalStateException without a project or without
        layers; otherwise the names, bottom first. */
    method GetLayerNames() returns (r: Result<seq<string>>)
      requires Valid()
      ensures height == 0 || layers == [] ==> r == Err(IllegalState)
      ensures height != 0 && layers != [] ==> r == Ok(Names(Model()))
    {
      if height == 0 || width == 0 {
        return Err(IllegalState);
      }
      if |layers| == 0 {
        return Err(IllegalState);
      }
      var names: seq<string> := [];
      for i := 0 to |layers|
        invariant names == Names(Model())[..i]
      {
        names := names + [layers[i].layerName];
      }
      assert Names(Model())[..|layers|] == Names(Model());
      return Ok(names);
    }

    /** One pass of the loop of makeImageAt: `layer` over the layer built so
        far. */
    static method CompositeLayer(layer: Layer, below: Layer) returns (r: Layer)
      requires layer.Valid() && below.Valid()
      requires layer.height == below.height && layer.width == below.width
      ensures fresh(r) && r.Valid() && r.height == below.height && r.width == below.width
      ensures r.image == Composite(layer.Value(), below.image)
    {
      r := below;
      var twoed := layer.ApplyTwoFilterLayer(below);
      if twoed.Ok? {
        r := twoed.value;
      }
      var top := layer.ApplyFilter();
      var combined := r.CombineLayer(top, 0, 0);
      r := combined.value;
    }

    /** makeImageAt: IllegalStateException without a project or without layers;
        otherwise the bottom layer under its filter, with every layer up to the
        index composited over it in turn. A layer whose filter works on one
        image makes applyTwoFilter throw IllegalStateException, which the loop
        ignores. */
    method MakeImageAt(index: int) returns (r: Result<Image>)
      requires Valid() && index < |layers|
      ensures height == 0 || layers == [] ==> r == Err(IllegalState)
      ensures height != 0 && layers != [] ==> Uniform(Model()) && r == Ok(Flatten(Model(), if index < 0 then 0 else index))
    {
      if height == 0 || width == 0 {
        return Err(IllegalState);
      }
      if |layers| == 0 {
        return Err(IllegalState);
      }
      ValidModel();
      var img := FlattenLayers(layers, if index < 0 then 0 else index, Model());
      return Ok(img);
    }

    /** The loop of makeImageAt over layer objects whose contents are `m`. */
    static method FlattenLayers(ls: seq<Layer>, index: nat, ghost m: seq<LayerValue>) returns (img: Image)
      requires index < |ls| == |m| && Uniform(m)
      requires forall k :: 0 <= k < |ls| ==> ls[k].Valid() && ls[k].Value() == m[k]
      ensures img == Flatten(m, index)
    {
      var result := ls[0].ApplyFilter();
      for i := 1 to index + 1
        invariant result.Valid() && result.height == ls[0].height && result.width == ls[0].width
        invariant result.image == Flatten(m, i - 1)
      {
        assert ls[i].Valid() && ls[i].Value() == m[i];
        result := CompositeLayer(ls[i], result);
        assert Flatten(m, i) == Composite(m[i], Flatten(m, i - 1));
      }
      img := result.GetImage();
    }

    /** getFinalImage: the image at the top layer. */
    method GetFinalImage() returns (r: Result<Image>)
      requires Valid()
      ensures height == 0 || layers == [] ==> r == Err(IllegalState)
      ensures height != 0 && layers != [] ==> Uniform(Model()) && r == Ok(Flatten(Model(), |layers| - 1))
    {
      r := MakeImageAt(|layers| - 1);
    }

    /** getImageAtLayer: IllegalStateException without a project or without
        layers; IllegalArgumentException for a missing name or one no layer
        has; otherwise the image at the first layer with that name. */
    method GetImageAtLayer(layerName: Option<string>) returns (r: Result<Image>)
      requires Valid()
      ensures height == 0 || layers == [] ==> r == Err(IllegalState)
      ensures height != 0 && layers != [] && layerName.None? ==> r == Err(IllegalArgument)
      ensures height != 0 && layers != [] && layerName.Some? ==>
                && (r.Err? <==> layerName.value !in Names(Model()))
                && (r.Err? ==> r.error == IllegalArgument)
                && (r.Ok? ==> Uniform(Model()) && r.value == Flatten(Model(), IndexOf(Names(Model()), layerName.value).value))
    {
      if height == 0 || width == 0 {
        return Err(IllegalState);
      }
      if |layers| == 0 {
        return Err(IllegalState);
      }
      if layerName.None? {
        return Err(IllegalArgument);
      }
      ghost var names := Names(Model());
      var index := -1;
      for i := 0 to |layers|
        invariant forall k :: 0 <= k < i ==> layers[k].layerName != layerName.value
      {
        if layers[i].layerName == layerName.value {
          index := i;
          break;
        }
      }
      if index == -1 {
        assert layerName.value !in names;
        return Err(IllegalArgument);
      }
      ValidModel();
      IndexOfDistinct(names, index);
      r := MakeImageAt(index);
    }

    /** getHeight: IllegalStateException without a project, else the height. */
    method GetHeight() returns (r: Result<int>)
      requires Valid()
      ensures height == 0 ==> r == Err(IllegalState)
      ensures height != 0 ==> r == Ok(height) && height >= 1
    {
      if height == 0 {
        return Err(IllegalState);
      }
      return Ok(height);
    }

    /** getWidth: IllegalStateException without a project, else the width. */
    method GetWidth() returns (r: Result<int>)
      requires Valid()
      ensures width == 0 ==> r == Err(IllegalState)
      ensures width != 0 ==> r == Ok(width) && width >= 1
    {
      if width == 0 {
        return Err(IllegalState);
      }
      return Ok(width);
    }

    /** getLayers: IllegalStateException without a project; otherwise the layer
        objects themselves, bottom first. */
    method GetLayers() returns (r: Result<seq<Layer>>)
      requires Valid()
      ensures height == 0 ==> r == Err(IllegalState)
      ensures height != 0 ==> r == Ok(layers)
    {
      if height == 0 || width == 0 {
        return Err(IllegalState);
      }
      return Ok(layers);
    }

    /** getFilterNames: the catalog names in declaration order (CatalogOrder
        gives them). */
    method GetFilterNames() returns (names: seq<string>)
      ensures names == CatalogNames()
    {
      var filters := Values;
      names := [];
      for i := 0 to |filters|
        invariant |names| == i && forall k :: 0 <= k < i ==> names[k] == Name(filters[k])
      {
        names := names + [Name(filters[i])];
      }
      assert names == CatalogNames();
    }
  }

  /** The start of the scenario of the source's tests: a 2 x 2 project with
      the blank layers bottom, middle and top. */
  method BlankThreeLayers() returns (collager: Collager)
    ensures fresh(collager) && collager.Valid() && collager.height == 2 && collager.width == 2
    ensures collager.Model() == ThreeLayers(Blank, Blank, Blank)
  {
    var blank := BlankImage(2, 2);
    SameImage(blank, Dot(Blank, 0, 0));
    SameImage(blank, Dot(Blank, 1, 0));
    SameImage(blank, Dot(Blank, 0, 1));
    collager := new Collager();
    var o := collager.CreateProject(2, 2);
    o := collager.AddLayer(Some("bottom"));
    assert collager.Model() == [LayerValue("bottom", Normal, blank)];
    assert Names(collager.Model()) == ["bottom"];
    o := collager.AddLayer(Some("middle"));
    assert collager.Model() == [LayerValue("bottom", Normal, blank), LayerValue("middle", Normal, blank)];
    assert Names(collager.Model()) == ["bottom", "middle"];
    o := collager.AddLayer(Some("top"));
  }

  /** addImage of a one-pixel image in the scenario, expected to give `after`. */
  method AddDot(collager: Collager, name: string, p: Pixel, y: int, x: int, ghost after: seq<LayerValue>)
    requires collager.Valid() && collager.height == 2 && collager.width == 2
    requires 0 <= y && 0 <= x && PlaceImage(collager.Model(), name, [[p]], y, x) == Ok(after)
    modifies collager
    ensures collager.Valid() && collager.height == 2 && collager.width == 2
    ensures collager.Model() == after
  {
    var o := collager.AddImage(Some(name), Some([[p]]), y, x);
  }

  /** The scenario continued: an opaque one-pixel image placed on each layer. */
  method DotThreeLayers(a: Pixel, b: Pixel, c: Pixel) returns (collager: Collager)
    requires a.alpha == MAX && b.alpha == MAX && c.alpha == MAX
    ensures fresh(collager) && collager.Valid() && collager.height == 2 && collager.width == 2
    ensures collager.Model() == ThreeLayers(a, b, c)
  {
    collager := BlankThreeLayers();
    PlaceThreeDots(a, b, c);
    AddDot(collager, "bottom", a, 0, 0, ThreeLayers(a, Blank, Blank));
    AddDot(collager, "middle", b, 1, 0, ThreeLayers(a, b, Blank));
    AddDot(collager, "top", c, 0, 1, ThreeLayers(a, b, c));
  }

  /** The scenario continued: the image at the middle layer of a collager
      holding the three dots. */
  method MiddleOfThree(collager: Collager, ghost a: Pixel, ghost b: Pixel, ghost c: Pixel) returns (middle: Result<Image>)
    requires a.alpha == MAX && b.alpha == MAX
    requires collager.Valid() && collager.height == 2 && collager.width == 2
    requires collager.Model() == ThreeLayers(a, b, c)
    ensures middle == Ok([[a, Pixel(0, 0, 0, 0)], [b, Pixel(0, 0, 0, 0)]])
  {
    ThreeLayerNames(a, b, c);
    MiddleLayerImage(a, b, c);
    middle := collager.GetImageAtLayer(Some("middle"));
  }

  /** The scenario continued: the final image of a collager holding the three
      dots. */
  method FinalOfThree(collager: Collager, ghost a: Pixel, ghost b: Pixel, ghost c: Pixel) returns (final: Result<Image>)
    requires a.alpha == MAX && b.alpha == MAX && c.alpha == MAX
    requires collager.Valid() && collager.height == 2 && collager.width == 2
    requires collager.Model() == ThreeLayers(a, b, c)
    ensures final == Ok([[a, c], [b, Pixel(0, 0, 0, 0)]])
  {
    FinalImage(a, b, c);
    final := collager.GetFinalImage();
  }

  /** The scenario of the source's tests, driven through the collager: a 2 x 2
      project with the layers bottom, middle and top, an opaque one-pixel image
      placed on each, then the image at the middle layer and the final image. */
  method ThreeLayerProject(a: Pixel, b: Pixel, c: Pixel) returns (middle: Result<Image>, final: Result<Image>)
    requires a.alpha == MAX && b.alpha == MAX && c.alpha == MAX
    ensures middle == Ok([[a, Pixel(0, 0, 0, 0)], [b, Pixel(0, 0, 0, 0)]])
    ensures final == Ok([[a, c], [b, Pixel(0, 0, 0, 0)]])
  {
    var collager := DotThreeLayers(a, b, c);
    middle := MiddleOfThree(collager, a, b, c);
    final := FinalOfThree(collager, a, b, c);
  }
}
