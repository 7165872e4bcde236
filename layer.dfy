/** src/model/RGBALayer.java: a named image with a filter. The name, the image
    and the dimensions are fixed at construction; the filter can be changed in
    place with UpdateFilter, which is why a layer is an object. Every other
    operation builds a new layer. */
module Layers {
  import opened Wrappers
  import opened Pixels
  import opened Images
  import opened Filters
  import opened FilterNames

  /** What a layer holds at one moment: its name, its filter and its image. */
  datatype LayerValue = LayerValue(name: string, filter: FilterName, image: Image)

  class Layer {
    const layerName: string
    const image: Image
    const height: int
    const width: int
    var filterName: FilterName

    /** The stored dimensions are the image's. */
    predicate Valid() {
      Height(image) == height && Width(image) == width
    }

    /** The layer's current contents. */
    function Value(): LayerValue
      reads this
    {
      LayerValue(layerName, filterName, image)
    }

    /** The private constructor: a layer around an existing image. */
    constructor Of(layerName: string, filterName: FilterName, image: Image, height: int, width: int)
      requires Height(image) == height && Width(image) == width
      ensures Valid() && this.height == height && this.width == width
      ensures Value() == LayerValue(layerName, filterName, image)
    {
      this.layerName := layerName;
      this.filterName := filterName;
      this.height := height;
      this.width := width;
      this.image := image;
    }

    /** The public constructor RGBALayer(layerName, filterName, height, width):
        IllegalArgumentException for a missing name or filter or a negative
        dimension, and, through the blank image, for a zero dimension; otherwise
        a blank layer of that size. */
    static method New(layerName: Option<string>, filterName: Option<FilterName>, height: int, width: int)
      returns (r: Result<Layer>)
      ensures r.Err? <==> layerName.None? || filterName.None? || height < 1 || width < 1
      ensures r.Err? ==> r.error == IllegalArgument
      ensures r.Ok? ==> && fresh(r.value) && r.value.Valid()
                        && r.value.height == height && r.value.width == width
                        && r.value.Value() == LayerValue(layerName.value, filterName.value, BlankImage(height, width))
    {
      if layerName.None? {
        return Err(IllegalArgument);
      } else if filterName.None? {
        return Err(IllegalArgument);
      } else if height < 0 || width < 0 {
        return Err(IllegalArgument);
      }
      var blank :- NewBlank(height, width);
      var layer := new Layer.Of(layerName.value, filterName.value, blank, height, width);
      return Ok(layer);
    }

    /** combine(that, startY, startX): IllegalArgumentException for a negative
        offset or an image that does not fit; otherwise a new layer with the same
        name and filter whose image has `that` overlaid at the offset. The
        receiver is not changed. */
    method Combine(that: Image, startY: int, startX: int) returns (r: Result<Layer>)
      requires Valid()
      ensures r.Err? <==> !Fits(image, that, startY, startX)
      ensures r.Err? ==> r.error == IllegalArgument
      ensures r.Ok? ==> && fresh(r.value) && r.value.Valid()
                        && r.value.height == height && r.value.width == width
                        && r.value.Value() == LayerValue(layerName, filterName, Overlay(image, that, startY, startX))
    {
      if startY < 0 || startX < 0 {
        return Err(IllegalArgument);
      }
      var combined :- CombineImages(image, that, startY, startX);
      var layer := new Layer.Of(layerName, filterName, combined, height, width);
      return Ok(layer);
    }

    /** combine(that, startY, startX) for a layer: the same as combining with a
        copy of that layer's image. */
    method CombineLayer(that: Layer, startY: int, startX: int) returns (r: Result<Layer>)
      requires Valid()
      ensures r.Err? <==> !Fits(image, that.image, startY, startX)
      ensures r.Err? ==> r.error == IllegalArgument
      ensures r.Ok? ==> && fresh(r.value) && r.value.Valid()
                        && r.value.height == height && r.value.width == width
                        && r.value.Value() == LayerValue(layerName, filterName, Overlay(image, that.image, startY, startX))
    {
      if startY < 0 || startX < 0 {
        return Err(IllegalArgument);
      }
      var img := that.GetImage();
      r := Combine(img, startY, startX);
    }

    /** updateFilter: IllegalArgumentException for a missing name or one no
        catalog constant carries, leaving the filter as it was; otherwise the
        filter becomes the constant found by a scan of the catalog in order. */
    method UpdateFilter(filterName: Option<string>) returns (o: Outcome)
      modifies this
      ensures o.Fail? <==> filterName.None? || Lookup(filterName.value).None?
      ensures o.Fail? ==> o.error == IllegalArgument && this.filterName == old(this.filterName)
      ensures o.Pass? ==> this.filterName == Lookup(filterName.value).value
      ensures o.Pass? ==> GetFilterName() == filterName.value
    {
      if filterName.None? {
        return Fail(IllegalArgument);
      }
      var name := filterName.value;
      var applied: Option<FilterName> := None;
      assert Values[0..] == Values;
      for i := 0 to |Values|
        invariant applied.None? ==> Lookup(name) == FirstNamed(Values[i..], name)
      {
        if Name(Values[i]) == name {
          applied := Some(Values[i]);
          break;
        }
        assert Values[i..][1..] == Values[i + 1..];
      }
      if applied.None? {
        return Fail(IllegalArgument);
      }
      this.filterName := applied.value;
      LookupName(applied.value);
      return Pass;
    }

    /** applyFilter: a new layer with the same name and filter whose image is this
        layer's image under the catalog filter. */
    method ApplyFilter() returns (r: Layer)
      requires Valid()
      ensures fresh(r) && r.Valid() && r.height == height && r.width == width
      ensures r.Value() == LayerValue(layerName, filterName, ApplyOne(GetFilter(filterName), image))
    {
      var filtered := Apply(GetFilter(filterName), image);
      r := new Layer.Of(layerName, filterName, filtered, height, width);
    }

    /** applyTwoFilter(that): IllegalStateException when the layer's filter is of
        type ONE; IllegalArgumentException when `that` differs in size; otherwise
        a new layer with the same name and filter whose image blends this layer's
        image (on top) with `that` (below). */
    method ApplyTwoFilter(that: Image) returns (r: Result<Layer>)
      requires Valid()
      ensures r.Err? <==> Type(filterName) == One || Height(that) != height || Width(that) != width
      ensures Type(filterName) == One ==> r == Err(IllegalState)
      ensures Type(filterName) == Two && r.Err? ==> r.error == IllegalArgument
      ensures r.Ok? ==> && fresh(r.value) && r.value.Valid()
                        && r.value.height == height && r.value.width == width
                        && r.value.Value() ==
                           LayerValue(layerName, filterName, TwoApply(GetTwoFilter(filterName).value, image, that).value)
    {
      var blend :- GetTwoFilter(filterName);
      var blended :- TwoFilterApply(blend, image, that);
      var layer := new Layer.Of(layerName, filterName, blended, height, width);
      return Ok(layer);
    }

    /** applyTwoFilter for a layer: the same as with a copy of that layer's image. */
    method ApplyTwoFilterLayer(that: Layer) returns (r: Result<Layer>)
      requires Valid()
      ensures r.Err? <==> Type(filterName) == One || Height(that.image) != height || Width(that.image) != width
      ensures Type(filterName) == One ==> r == Err(IllegalState)
      ensures Type(filterName) == Two && r.Err? ==> r.error == IllegalArgument
      ensures r.Ok? ==> && fresh(r.value) && r.value.Valid()
                        && r.value.height == height && r.value.width == width
                        && r.value.Value() ==
                           LayerValue(layerName, filterName, TwoApply(GetTwoFilter(filterName).value, image, that.image).value)
    {
      var img := that.GetImage();
      r := ApplyTwoFilter(img);
    }

    /** getFilterName: the catalog name of the filter, which looks the filter up
        again. */
    function GetFilterName(): (n: string)
      reads this
      ensures Lookup(n) == Some(filterName)
    {
      LookupName(filterName);
      Name(filterName)
    }

    /** getImage: a fresh copy of the image, equal to it. */
    method GetImage() returns (img: Image)
      ensures img == image
    {
      img := CopyImage(image);
    }
  }
}
