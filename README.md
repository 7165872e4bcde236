# Collager in Dafny

A model of the core of Collager, a layered image editor. A collage project has a
canvas of a fixed height and width and an ordered stack of named layers. Each layer
holds an RGBA image of the canvas size and a filter name. The project can be:

- built up: create the project, add a layer, set a layer's filter, place an image
  on a layer at an offset;
- queried: layer names, canvas size, filter names;
- rendered: the stack is flattened bottom to top, through each layer's filter, into
  one image;
- written to and read from two text formats: the "C1" project text and the plain
  "P3" image text (PPM).

The model follows the Java sources module by module:

| Dafny file | module | models |
|---|---|---|
| `wrappers.dfy` | `Wrappers` | `Result`, `Outcome` and `Option`, and the exception kinds: illegal argument, illegal state, and a malformed input that the Java code reports through an unchecked exception |
| `pixel.dfy` | `Pixels` | `RGBAPixel`: the two constructors, `asRGBA`, `asRGB`, `combine` (source-over compositing) and `getMax` |
| `image.dfy` | `Images` | `RGBALayerImage`: both constructors, `getPixels`, `combine` (overlay at an offset), `getHeight` and `getWidth` |
| `hsl.dfy` | `Hsl` | `RepresentationConverterUtil`: RGB to HSL, including its hue-normalising `while` loop, and HSL to RGB |
| `filter_name.dfy` | `FilterNames` | the `FilterName` catalog: names, filter objects, the one-image/two-image type, and lookup by name |
| `filters.dfy` | `Filters` | every filter: normal, the three channel filters, the six brighten/darken filters, and the multiply, screen and difference blends; each filter's `apply` is a loop over the pixel grid |
| `layer.dfy` | `Layers` | `RGBALayer`, as a class whose `updateFilter` changes the layer in place |
| `collager.dfy` | `Collagers` | `RGBACollager`, as a class holding the canvas size and a sequence of `Layer` objects, with methods proved against functions on layer values |
| `text.dfy` | `Tokens` | `java.util.Scanner` with its default delimiter: tokens, `next`, `nextInt` and the 32-bit int range; and `Integer.toString` |
| `reader.dfy` | `Readers` | the two token parsers inside `RGBACollager.loadProject` and `addImage(String)`, as functions and as the source's loops |
| `codec.dfy` | `Codec` | `ImageUtil.saveCollage` and `saveImage` (the text they build), and the comment-stripping line loops of `readPPM` and `readCollage` |
| `roundtrip.dfy` | `RoundTrips` | the round-trip theorems: save then read, for both formats, with and without the comment stripper; and reading a project then saving it again |

Modelling choices:

- **Numbers.** Channels are `int` subranges 0..255. `double` arithmetic is `real`
  arithmetic. `Math.round(x)` is `floor(x + 1/2)`. A cast `(int)` of a non-negative
  double is Euclidean division.
- **Images.** A non-empty rectangular `seq<seq<Pixel>>`. Java's `Pixel[][]` arrays
  are `array2` inside the methods that fill them.
- **Nulls.** An `Option` on the string and image arguments of the collager's
  methods and of `updateFilter`, where the order of the null checks is observable.
  Other references are always present.
- **System values.** The platform line separator (`System.lineSeparator()`) is a
  parameter `eol` of any whitespace string. File contents are given as strings.

## Model

| member | source | states |
|---|---|---|
| Pixels.FromScaled | src/model/RGBAPixel.java:33-67 | fails with an illegal argument exactly when the scale is below 1 or some channel lies outside [0, scale]; otherwise each channel is the rescale of the given value |
| Pixels.Rescale | src/model/RGBAPixel.java:59-66 | the corrected five-argument rescale, kept in 0..255: equal to the formula computed over the integers wherever that is non-negative, and to the as-written value (with its 32-bit sum) wherever that is non-negative, in particular for every scale up to 1023; 0 stays 0 |
| Pixels.WrapInt | src/model/RGBAPixel.java:59 | a Java int sum's value: in the int range, unchanged when already in it, and congruent to the exact sum modulo 2^32 |
| Pixels.RescaleAsWrittenIsFormula | src/model/RGBAPixel.java:59-66 | as written, the rescale is the formula over the integers for every value below 2147483647, where `v + 1` does not wrap |
| Pixels.RescaleAsWrittenWraps | src/model/RGBAPixel.java:59-60 | value 2147483647 on the scale 2147483647: `red + 1` wraps to -2147483648 and the channel is stored as -257 |
| Pixels.RescaleAsWrittenAgrees | src/model/RGBAPixel.java:59-66 | the as-written rescale equals the integer formula below the top int value, and wherever it is non-negative |
| Pixels.RescaleFormulaBounds | src/model/RGBAPixel.java:59-66 | the formula over the integers never exceeds 255, and is non-negative for scales up to 1023 |
| Pixels.RescaleAsWrittenBounds | src/model/RGBAPixel.java:59-66 | the as-written rescale never exceeds 255, and is non-negative for scales up to 1023 |
| Pixels.RescaleAsWrittenCanBeNegative | src/model/RGBAPixel.java:59-66 | value 1 on the scale 1024 is stored as -1 |
| Pixels.RescaleAt255 | src/model/RGBAPixel.java:59-66 | on the scale 255 the rescale is the identity |
| Pixels.RescaleTop | src/model/RGBAPixel.java:59-66 | the corrected rescale maps the top of any scale to 255 (as written, the top of the scale 2147483647 gives -257: Pixels.RescaleAsWrittenWraps) |
| Pixels.RescaleMonotone | src/model/RGBAPixel.java:59-66 | the rescale preserves the order of channel values ("preserving relative intensity") |
| Pixels.FromScaledAt255 | src/model/RGBAPixel.java:33-67 | on the scale 255 the five-argument constructor keeps the given channels |
| Pixels.Make | src/model/RGBAPixel.java:33-67 | the pixel of four channels in 0..255 is what the constructor builds on the scale 255 |
| Pixels.FromScaledExamples | test/RGBAPixelTest.java:29-31 | the test pixels (199,37,99,376)/399, (39,19,9,31)/39 and (1,0,1,0)/1 become (127,23,63,240), (255,127,63,204) and (255,0,255,0); scale 0 and the value 501 on the scale 500 are rejected (lines 136 and 217) |
| Pixels.FromRGB | src/model/RGBAPixel.java:83-105 | fails with an illegal argument exactly when a colour channel lies outside [0, scale]; otherwise each channel is converted to the 0..255 scale and alpha is 255 |
| Pixels.Scale | src/model/RGBAPixel.java:72-103 | the four-argument conversion as documented: a value on the scale 0..max lands in 0..255, 0 stays 0, the top of a positive scale becomes 255, and the result is the truncated quotient v * 255 / max (c * max <= v * 255 < (c + 1) * max) |
| Pixels.ScaleMonotone | src/model/RGBAPixel.java:72-103 | the conversion keeps the order of the values on a scale |
| Pixels.ScaleAsWrittenMissesTop | src/model/RGBAPixel.java:101-103 | value 100 on the scale 100 is stored as 39 as written, where the documented conversion gives 255; 300 on the scale 300 gives 255 too |
| Pixels.ScaleAsWrittenLargeScale | src/model/RGBAPixel.java:101-103 | the product is a double product and does not wrap at 2^31: 46341 on the scale 46341 gives 8421522 |
| Pixels.ScaleAsWrittenBounds | src/model/RGBAPixel.java:101-103 | the as-written conversion is non-negative, and at most the scale when the scale is at most 255 |
| Pixels.ScaleAsWrittenCanExceed255 | src/model/RGBAPixel.java:101-103 | value 300 on the scale 300 is stored as 352 |
| Pixels.ScaleAsWrittenSaturates | src/model/RGBAPixel.java:101 | Java's cast of a double to int saturates: 740014 on the scale 740014, whose quotient is 2147532236, is stored as 2147483647 |
| Pixels.ScaleAt255 | src/model/RGBAPixel.java:101-103 | on the scale 255 the conversion is the identity |
| Pixels.FromRGBAt255 | src/model/RGBAPixel.java:83-105 | on the scale 255 the four-argument constructor gives the opaque pixel of those channels |
| Pixels.FromRGBExample | test/RGBAPixelTest.java:209-214 | (1, 2, 200) on the scale 0 is rejected; black on the scale 0 is accepted |
| Pixels.GetMax | src/model/RGBAPixel.java:152-155 | the maximum of every pixel is 255 |
| Pixels.AsRGBA | src/model/RGBAPixel.java:107-110 | the four channels, in order red, green, blue, alpha |
| Pixels.Premultiply | src/model/RGBAPixel.java:120-129 | a premultiplied channel lies between 0 and the channel; alpha 0 gives 0, alpha 255 the channel |
| Pixels.AsRGB | src/model/RGBAPixel.java:120-129 | each colour is at most the stored channel; a transparent pixel shows black; an opaque one its own channels |
| Pixels.AsRGBExamples | test/RGBAPixelTest.java:252-257 | the test pixels p4 and p5 show as (120,22,59) and (204,102,50) |
| Pixels.Opacity | src/model/RGBAPixel.java:139-140 | alpha as a fraction in [0, 1] |
| Pixels.MixAlpha | src/model/RGBAPixel.java:139-140 | the composite alpha is at least either input alpha and at most 1 |
| Pixels.BlendValue | src/model/RGBAPixel.java:142-147 | the composite colour before rounding stays in [0, 255] |
| Pixels.BlendChannel | src/model/RGBAPixel.java:142-147 | a fully opaque top gives the top channel; a fully transparent top gives the bottom channel; a transparent bottom gives the top channel |
| Pixels.Combine | src/model/RGBAPixel.java:131-150 | an opaque top covers the bottom; a transparent top keeps a visible bottom; two transparent pixels give transparent black; the result alpha is at least both alphas |
| Pixels.CombineOverTransparent | src/model/RGBAPixel.java:131-150 | over a transparent bottom, a visible top comes through unchanged |
| Pixels.CombineNotCommutative | test/RGBAPixelTest.java:267-275 | p5 over p4 is (231,107,63,252) while p4 over p5 is (133,28,63,252) |
| Pixels.RoundWithin | src/model/RGBAPixel.java:124-126 | rounding a value between two integers stays between them |
| Pixels.RoundMonotone | src/model/RGBAPixel.java:124-126 | rounding preserves order |
| Images.Height | src/model/RGBALayerImage.java:161-165 | the height is the number of rows, at least 1 |
| Images.Width | src/model/RGBALayerImage.java:168-172 | the width is at least 1 and every row has it |
| Images.BlankImage | src/model/RGBALayerImage.java:38-44 | an image of the requested size whose every pixel is transparent white |
| Images.NewBlank | src/model/RGBALayerImage.java:24-45 | fails with an illegal argument exactly when a dimension is below 1; otherwise the blank image of that size |
| Images.FromPixels | src/model/RGBALayerImage.java:55-82 | fails with an illegal argument exactly when the (rectangular) array is empty or holds a missing pixel; otherwise the image of the array's pixels |
| Images.Freeze | src/model/RGBALayerImage.java:69-81 | the image of a filled array, cell for cell |
| Images.GetPixels | src/model/RGBALayerImage.java:86-94 | a fresh array with the image's size and pixels |
| Images.CopyImage | src/model/RGBALayerImage.java:86-94 | copying the pixels into a fresh array and building an image of them gives the same image |
| Images.Overlay | src/model/RGBALayerImage.java:97-136 | same size as the base; inside the placed region each pixel is the top pixel composited over the base; outside it the base pixel |
| Images.PaintRegion | src/model/RGBALayerImage.java:116-123 | the region loop fills exactly the covered cells with the composite |
| Images.FillRest | src/model/RGBALayerImage.java:125-133 | the back-fill loop fills every cell still empty with the base pixel and keeps the filled ones |
| Images.CombineImages | src/model/RGBALayerImage.java:97-136 | fails with an illegal argument exactly when the offset is negative or the top does not fit; otherwise the overlay |
| Images.OverlayOpaqueCovers | src/model/RGBALayerImage.java:97-136 | an opaque top image replaces the region it covers |
| Images.OverlayOnBlank | src/model/RGBALayerImage.java:97-136 | over a blank image, a transparent top pixel becomes transparent black, a visible one comes through, and the rest stays blank |
| Images.CombineExample | test/RGBALayerImageTest.java:206-213 | the 2x2 test image placed at (1, 1) on a blank 3x3 image gives the expected grid |
| Hsl.RealMod | src/model/utils/RepresentationConverterUtil.java:54-57 | the non-negative remainder lies in [0, divisor) |
| Hsl.FmodOfShift | src/model/utils/RepresentationConverterUtil.java:54-57 | adding whole turns of 6 until the hue is non-negative and then taking the remainder is the non-negative remainder of the hue |
| Hsl.HueSectorBounds | src/model/utils/RepresentationConverterUtil.java:52-66 | the hue sector of a coloured pixel lies in [0, 6) |
| Hsl.SaturationBounds | src/model/utils/RepresentationConverterUtil.java:50 | the saturation of a coloured pixel has a positive divisor and lies in (0, 1] |
| Hsl.RgbToHsl | src/model/utils/RepresentationConverterUtil.java:22-70 | fails with an illegal argument exactly when a component is outside [0, 255]; lightness is the mean of the largest and smallest component; hue lies in [0, 360) and saturation in [0, 1]; a grey has hue 0 and saturation 0, every other colour a positive saturation, so saturation is 0 exactly for a grey |
| Hsl.ConvertRGBtoHSL | src/model/utils/RepresentationConverterUtil.java:22-70 | the method with the source's `while` loop computes RgbToHsl |
| Hsl.ConvertFn | src/model/utils/RepresentationConverterUtil.java:98-103 | the basis value lies in [0, 1] for a saturation and lightness in [0, 1]; without saturation it is the lightness |
| Hsl.ConvertFnBounds | src/model/utils/RepresentationConverterUtil.java:98-103 | the lightness minus the saturation-weighted offset stays in [0, 1] |
| Hsl.HslToRgb | src/model/utils/RepresentationConverterUtil.java:86-92 | every component lies in 0..255 for a saturation and lightness in [0, 1]; without saturation it is a grey of the rounded lightness |
| Hsl.HslToRgbExtremes | src/model/utils/RepresentationConverterUtil.java:86-92 | lightness 0 is black and lightness 1 is white for every hue and saturation |
| Hsl.ConversionExamples | test/RepresentationConversionUtilTest.java:12-24 | (146.25, 0.79279, 0.43529) converts to (23, 199, 100), and (23, 199, 100) converts to that hue and, to three decimals, that saturation and lightness |
| Hsl.GrayRoundTrip | src/model/utils/RepresentationConverterUtil.java:22-103 | a grey converts to hue 0, saturation 0 and lightness v/255, and back to the same grey |
| FilterNames.TypeMatchesFilter | src/model/filters/FilterName.java:12-24 | a filter name is of the two-image type exactly when its filter object is a two-image filter |
| FilterNames.GetTwoFilter | src/model/filters/FilterName.java:51-57 | fails with an illegal state exactly for the one-image names; otherwise the blend of the name's filter |
| FilterNames.TwoFilterConstants | src/model/filters/FilterName.java:51-57 | the two-image filter exists exactly for multiply, screen and difference |
| FilterNames.CatalogOrder | src/model/filters/FilterName.java:12-24 | the catalog has 13 distinct entries, holds every filter name, and lists the names in the source's order |
| FilterNames.NamesDistinct | src/model/filters/FilterName.java:12-24 | no two filters share a name |
| FilterNames.FirstNamed | src/model/RGBALayer.java:110-116 | the search loop finds an entry with the name exactly when one exists |
| FilterNames.Lookup | src/model/RGBALayer.java:110-116 | finds a filter with the given name, and finds nothing exactly when no filter has that name |
| FilterNames.LookupName | src/model/filters/FilterName.java:37-39 | looking up a filter's own name gives that filter |
| Filters.IsolatePixel | src/model/filters/RGBARedFilter.java:12-16 | the red, green and blue filters keep their channel and alpha and zero the other two channels (also src/model/filters/RGBAGreenFilter.java:15 and src/model/filters/RGBABlueFilter.java:16) |
| Filters.IsolateIdempotent | src/model/filters/RGBARedFilter.java:12-16 | isolating a channel twice is isolating it once |
| Filters.IsolateExamples | test/filters/RGBARedFilterTest.java:26-29 | the test vectors of the red, green and blue filter tests (also test/filters/RGBAGreenFilterTest.java:27-34 and test/filters/RGBABlueFilterTest.java:26-33) |
| Filters.Measured | src/model/filters/RGBABrightenIntensity.java:11 | each measure lies between the smallest and the largest channel; the max measure is the largest channel |
| Filters.Shift | src/model/filters/RGBABrightenDarken.java:13-41 | brightening shifts by a value in [0, 255], darkening by one in [-255, 0] |
| Filters.DarkenNegatesBrighten | src/model/filters/RGBADarkenIntensity.java:11 | each darken filter shifts by the negation of its brighten filter's shift (also RGBADarkenLuma.java:11 and RGBADarkenMax.java:11) |
| Filters.Clamp | src/model/filters/RGBABrightenDarken.java:13-41 | values above 255 become 255, below 0 become 0, the rest stay |
| Filters.ClampMonotone | src/model/filters/RGBABrightenDarken.java:13-41 | clamping preserves order |
| Filters.AdjustPixel | src/model/filters/RGBABrightenDarken.java:13-41 | alpha is kept; brightening never lowers a channel and darkening never raises one |
| Filters.DarkenZeroesSmallest | src/model/filters/RGBABrightenDarken.java:13-41 | darkening by any measure takes the smallest channel to 0 |
| Filters.DarkenMaxIsBlack | src/model/filters/RGBADarkenMax.java:11 | darken-max takes every pixel to black with its alpha |
| Filters.DarkenMaxIdempotent | src/model/filters/RGBADarkenMax.java:11 | darken-max twice is darken-max once |
| Filters.BlackUnchanged | src/model/filters/RGBABrightenDarken.java:13-41 | black stays black under every brighten and darken filter |
| Filters.WhiteExtremes | src/model/filters/RGBABrightenDarken.java:13-41 | brightening keeps white; darkening takes white to black |
| Filters.AdjustExamples | test/filters/RGBADarkenIntensityTest.java:27-34 | the test vectors of the darken-intensity, brighten-luma, darken-luma and brighten-max tests (also test/filters/RGBABrightenLumaTest.java:27-34, RGBADarkenLumaTest.java:27-34, RGBABrightenMaxTest.java:27-34) |
| Filters.MultiplyLightness | src/model/filters/RGBAMultiply.java:14-26 | the multiplied lightness is at most either input lightness |
| Filters.ScreenLightness | src/model/filters/RGBAScreen.java:14-26 | the screened lightness is at least either input lightness and at most 1 |
| Filters.HslOf | src/model/filters/RGBAMultiply.java:14-26 | the HSL of a pixel's colours: saturation and lightness in [0, 1], lightness the mean of the extremes, a grey has hue and saturation 0 |
| Filters.Recolour | src/model/filters/RGBAMultiply.java:14-26 | the pixel built from a hue, saturation and lightness keeps the given alpha; without saturation it is a grey of the rounded lightness |
| Filters.BlendPixel | src/model/filters/RGBAColorTwoFilter.java:26-52 | the blended pixel keeps the bottom alpha; difference is the channel-wise distance between the top's shown colour and the bottom's channels |
| Filters.DifferenceAlone | src/model/filters/RGBAColorTwoFilter.java:54-57 | one-image difference inverts the shown colour against the transparent white bottom |
| Filters.MultiplyOverWhite | src/model/filters/RGBAMultiply.java:14-26 | multiplying onto white gives the grey of the top's lightness, with the bottom alpha |
| Filters.ScreenOverWhite | src/model/filters/RGBAScreen.java:14-26 | screening onto white gives white |
| Filters.MultiplyAlone | src/model/filters/RGBAColorTwoFilter.java:54-57 | one-image multiply gives the grey of the pixel's lightness with alpha 0 |
| Filters.ScreenAlone | src/model/filters/RGBAColorTwoFilter.java:54-57 | one-image screen gives the transparent white pixel |
| Filters.MultiplyBlackTop | src/model/filters/RGBAMultiply.java:14-26 | multiplying a black top gives black with the bottom alpha |
| Filters.ScreenWhiteTop | src/model/filters/RGBAScreen.java:14-26 | screening a white top gives white with the bottom alpha |
| Filters.ScreenBlackOverBlack | src/model/filters/RGBAScreen.java:14-26 | screening black onto black gives black |
| Filters.DifferenceExamples | test/filters/RGBADifferenceTest.java:36-58 | the test vectors of the difference filter, alone and over a second image |
| Filters.MultiplyAloneExamples | test/filters/RGBAMultiplyTest.java:32-47 | the test vectors of the multiply filter over white |
| Filters.WhiteOverWhite | test/filters/RGBAScreenTest.java:37-51 | white multiplied or screened onto white stays white |
| Filters.BlackOverBlack | test/filters/RGBAMultiplyTest.java:32-47 | black multiplied or screened onto black stays black |
| Filters.ApplyOne | src/model/filters/RGBAColorFilter.java:23-44 | a filter's image has the same size and at each position the filtered pixel at that position; the normal filter returns its input (src/model/filters/NormalFilter.java:11-17) |
| Filters.TwoApply | src/model/filters/RGBAColorTwoFilter.java:26-52 | fails with an illegal argument exactly when the sizes differ; otherwise each position is the blend of the two pixels there |
| Filters.MapInto | src/model/filters/RGBAColorFilter.java:31-41 | the nested loop fills every cell with the filtered pixel |
| Filters.MapCells | src/model/filters/RGBAColorFilter.java:31-41 | the nested loop fills every cell with the function of the pixel |
| Filters.ColorFilterApply | src/model/filters/RGBAColorFilter.java:23-44 | the loop-based apply of the non-identity filters computes ApplyOne |
| Filters.Apply | src/model/filters/NormalFilter.java:11-17 | apply of every filter computes ApplyOne |
| Filters.BlendInto | src/model/filters/RGBAColorTwoFilter.java:39-49 | the nested loop fills every cell with the blend of the two pixels |
| Filters.ZipCells | src/model/filters/RGBAColorTwoFilter.java:39-49 | the nested loop fills every cell with the function of the two pixels |
| Filters.TwoFilterApply | src/model/filters/RGBAColorTwoFilter.java:26-52 | the loop-based two-image apply computes TwoApply |
| Filters.SingleFormIsBlankBottom | src/model/filters/RGBAColorTwoFilter.java:54-57 | the one-image form of a blend equals blending over a blank image of the same size |
| Filters.ApplyIdempotent | src/model/filters/RGBAColorFilter.java:23-44 | normal, the channel filters and darken-max, applied twice, equal applying once |
| Filters.BlankUnderChannelFilters | test/filters/RGBARedFilterTest.java:26-29 | the red filter of a blank image is transparent red everywhere, the green filter transparent green |
| Layers.Layer.Of | src/model/RGBALayer.java:59-66 | the private constructor holds the given name, filter and image |
| Layers.Layer.New | src/model/RGBALayer.java:28-45 | fails with an illegal argument exactly when the name or filter is missing or a dimension is below 1; otherwise a blank layer of that size |
| Layers.Layer.Combine | src/model/RGBALayer.java:68-80 | fails with an illegal argument exactly when the image does not fit at the offset; otherwise a fresh layer, same name and filter, whose image is the overlay |
| Layers.Layer.CombineLayer | src/model/RGBALayer.java:82-93 | the same with the other layer's image |
| Layers.Layer.UpdateFilter | src/model/RGBALayer.java:102-123 | fails with an illegal argument exactly when the name is missing or names no filter, and then keeps the filter; otherwise the layer's filter becomes the named one |
| Layers.Layer.ApplyFilter | src/model/RGBALayer.java:125-130 | a fresh layer, same name and filter, holding the filter's image of the layer's image |
| Layers.Layer.ApplyTwoFilter | src/model/RGBALayer.java:132-141 | an illegal state for a one-image filter; an illegal argument for a size mismatch; otherwise a fresh layer holding the blend of the two images |
| Layers.Layer.ApplyTwoFilterLayer | src/model/RGBALayer.java:143-152 | the same with another layer's image |
| Layers.Layer.GetFilterName | src/model/RGBALayer.java:159-162 | looking the returned name up gives back the layer's filter |
| Layers.Layer.GetImage | src/model/RGBALayer.java:164-167 | the layer's image |
| Collagers.Names | src/model/RGBACollager.java:282-300 | the layer names, position by position |
| Collagers.IndexOf | src/model/RGBACollager.java:307-338 | the first position with the name, and none exactly when the name is absent |
| Collagers.IndexOfDistinct | src/model/RGBACollager.java:307-338 | with distinct names the search finds each layer's own position |
| Collagers.AppendLayer | src/model/RGBACollager.java:57-76 | fails with an illegal argument exactly when the name is taken; otherwise appends a blank normal layer and keeps every existing layer |
| Collagers.SetLayerFilter | src/model/RGBACollager.java:136-166 | fails with an illegal argument exactly when the layer or the filter name is unknown; otherwise only that layer's filter changes |
| Collagers.PlaceImage | src/model/RGBACollager.java:219-252 | fails with an illegal argument exactly when the layer is unknown or the image does not fit; otherwise only that layer's image changes, to the overlay |
| Collagers.TransitionsKeepShape | src/model/RGBACollager.java:57-252 | adding a layer, setting a filter and placing an image keep the names distinct and every image at the canvas size |
| Collagers.Load | src/model/RGBACollager.java:125-131 | replaying a parsed project fails with an illegal argument when the canvas size is below 1 |
| Collagers.ReplayKeepsShape | src/model/RGBACollager.java:127-131 | the add, set and place replay keeps names distinct and images at the canvas size |
| Collagers.Composite | src/model/RGBACollager.java:378-387 | one pass of the flattening loop keeps the canvas size |
| Collagers.Flatten | src/model/RGBACollager.java:367-390 | the flattened image has the canvas size |
| Collagers.FlattenPrefix | src/model/RGBACollager.java:367-390 | flattening up to a layer looks only at the layers up to it |
| Collagers.FlattenNormal | src/model/RGBACollager.java:367-390 | when every layer up to k has the normal filter, flattening is plain stacking of the images |
| Collagers.NormalStep | src/model/RGBACollager.java:378-387 | a normal layer is overlaid at (0, 0) onto the image below it |
| Collagers.OneFilterKeepsAlpha | src/model/filters/RGBAColorFilter.java:23-44 | a one-image filter keeps each pixel's alpha |
| Collagers.OpaqueLayerCovers | src/model/RGBACollager.java:367-390 | an opaque layer with a one-image filter hides everything below it |
| Collagers.PlaceDot | test/RGBACollagerTest.java:500-530 | a 1x1 opaque image fits anywhere on a 2x2 blank layer and gives the expected image |
| Collagers.ThreeLayerNames | test/RGBACollagerTest.java:500-530 | the test project's layers are named bottom, middle, top |
| Collagers.PlaceThreeDots | test/RGBACollagerTest.java:500-530 | placing the three test images on their layers gives the expected layers |
| Collagers.MiddleLayerImage | test/RGBACollagerTest.java:500-530 | the image at the middle layer of the test project |
| Collagers.FinalImage | test/RGBACollagerTest.java:551-582 | the final image of the test project |
| Collagers.Collager.Model | src/model/RGBACollager.java:16-18 | the values of the layer objects, in stack order |
| Collagers.Collager.ValidModel | src/model/RGBACollager.java:16-18 | the collager's invariant: distinct names, every layer at the canvas size |
| Collagers.Collager.constructor | src/model/RGBACollager.java:24-30 | no project: height and width 0, no layers |
| Collagers.Collager.WithProject | src/model/RGBACollager.java:38-43 | fails with an illegal argument exactly when a dimension is below 1; otherwise an empty project of that size |
| Collagers.Collager.CreateProject | src/model/RGBACollager.java:45-55 | fails with an illegal argument exactly when a dimension is below 1, and then changes nothing; otherwise an empty project of that size |
| Collagers.Collager.AddLayer | src/model/RGBACollager.java:57-76 | an illegal state without a project; an illegal argument for a missing name; otherwise AppendLayer on the layer values, and nothing changes on failure |
| Collagers.Collager.SetFilter | src/model/RGBACollager.java:136-166 | the same error order, and then SetLayerFilter on the layer values, in place |
| Collagers.Collager.UpdateLayerFilter | src/model/RGBACollager.java:157 | updating one layer's filter in place changes only that layer's value |
| Collagers.Collager.SetLayer | src/model/RGBACollager.java:243 | replacing one layer object changes only that entry of the stack |
| Collagers.Collager.AddImage | src/model/RGBACollager.java:219-252 | an illegal state without a project; an illegal argument for a missing name or image or a negative offset; otherwise PlaceImage on the layer values |
| Collagers.Collager.AddImageText | src/model/RGBACollager.java:168-217 | the same checks, then the image text is parsed (its error is returned) and placed as PlaceImage says |
| Collagers.Collager.ReplayEntry | src/model/RGBACollager.java:127-131 | one replayed layer: add, set filter, place image, as ReplayStep says |
| Collagers.Collager.LoadProject | src/model/RGBACollager.java:78-134 | a missing text or a parse error fails before anything changes; otherwise the project is replaced by the replay of the parsed layers, as Load says |
| Collagers.Collager.LoadCollage | src/model/RGBACollager.java:125-131 | creating the project and replaying parsed layers gives Load's layers and the parsed size |
| Collagers.Collager.GetLayerNames | src/model/RGBACollager.java:282-300 | an illegal state without a project or layers; otherwise the names in stack order |
| Collagers.Collager.CompositeLayer | src/model/RGBACollager.java:378-387 | one pass of the flattening loop over layer objects computes Composite |
| Collagers.Collager.MakeImageAt | src/model/RGBACollager.java:367-390 | an illegal state without a project or layers; otherwise the flattening up to the index (a negative index flattens the bottom layer) |
| Collagers.Collager.FlattenLayers | src/model/RGBACollager.java:378-387 | the flattening loop computes Flatten |
| Collagers.Collager.GetFinalImage | src/model/RGBACollager.java:302-305 | the flattening of the whole stack |
| Collagers.Collager.GetImageAtLayer | src/model/RGBACollager.java:307-338 | an illegal state without a project or layers; an illegal argument for a missing or unknown name; otherwise the flattening up to that layer |
| Collagers.Collager.GetHeight | src/model/RGBACollager.java:340-347 | an illegal state without a project; otherwise the canvas height |
| Collagers.Collager.GetWidth | src/model/RGBACollager.java:349-356 | an illegal state without a project; otherwise the canvas width |
| Collagers.Collager.GetLayers | src/model/RGBACollager.java:358-365 | an illegal state without a project; otherwise the layer objects in stack order |
| Collagers.Collager.GetFilterNames | src/model/RGBACollager.java:456-467 | the catalog's names in catalog order |
| Collagers.BlankThreeLayers | test/RGBACollagerTest.java:500-530 | driving the class: a 2x2 project with three blank layers |
| Collagers.AddDot | test/RGBACollagerTest.java:500-530 | driving the class: addImage of a 1x1 image has the effect PlaceImage describes |
| Collagers.DotThreeLayers | test/RGBACollagerTest.java:500-530 | driving the class: the three test images on their layers |
| Collagers.MiddleOfThree | test/RGBACollagerTest.java:500-530 | driving the class: getImageAtLayer("middle") of the test project |
| Collagers.FinalOfThree | test/RGBACollagerTest.java:551-582 | driving the class: getFinalImage of the test project |
| Collagers.ThreeLayerProject | test/RGBACollagerTest.java:500-582 | the whole scenario from a new collager: the middle image and the final image |
| Tokens.Word | src/model/RGBACollager.java:87-89 | a token is the longest prefix without whitespace |
| Tokens.Tokenize | src/model/RGBACollager.java:87-89 | every token is a non-empty run of non-whitespace characters |
| Tokens.TokenizeAppend | src/model/RGBACollager.java:87-89 | a text ending in whitespace splits independently of what follows it |
| Tokens.TokenizeWord | src/model/RGBACollager.java:87-89 | a token followed by whitespace is read as itself |
| Tokens.ParseInt | src/model/RGBACollager.java:95-97 | an accepted token has a value in the 32-bit int range |
| Tokens.ParseIntExamples | src/model/RGBACollager.java:95-97 | a sign is accepted, a lone sign and a trailing letter are not |
| Tokens.ParseIntOverflow | src/model/RGBACollager.java:95-97 | 2147483648 is not an int |
| Tokens.NatToString | src/controller/utils/ImageUtil.java:126 | the printed digits read back as the number, with no leading zero |
| Tokens.NatToStringIsToken | src/controller/utils/ImageUtil.java:126 | a printed number is one token |
| Tokens.ParseIntOfNat | src/controller/utils/ImageUtil.java:126 | nextInt reads back a printed int |
| Tokens.Next | src/model/RGBACollager.java:89 | fails exactly when no token is left; otherwise the first token and the rest |
| Tokens.NextInt | src/model/RGBACollager.java:95-97 | fails exactly when no token is left or it is not an int; otherwise its value and the rest |
| Readers.ReadInts | src/model/RGBACollager.java:114-117 | k ints consume exactly k tokens |
| Readers.ReadPixel | src/model/RGBACollager.java:114-118 | one pixel consumes exactly its format's number of tokens |
| Readers.ReadRow | src/model/RGBACollager.java:112-119 | a row read has the requested number of pixels |
| Readers.ReadGrid | src/model/RGBACollager.java:110-120 | a grid read has the requested height and width |
| Readers.RowFailureSticks | src/model/RGBACollager.java:112-119 | once a row read fails, reading more pixels fails the same way |
| Readers.GridFailureSticks | src/model/RGBACollager.java:110-120 | once a grid read fails, reading more rows fails the same way |
| Readers.ReadGridInto | src/model/RGBACollager.java:110-120 | the nested loop fails as ReadGrid does, or fills the array with ReadGrid's pixels and leaves its remaining tokens |
| Readers.ReadRowInto | src/model/RGBACollager.java:112-119 | the inner loop fills row i with ReadRow's pixels and leaves the other rows alone |
| Readers.ReadEntry | src/model/RGBACollager.java:105-122 | one layer block: consumes tokens, names the layer by its first token, and has the canvas size |
| Readers.ReadLayers | src/model/RGBACollager.java:103-123 | every layer read has the canvas size |
| Readers.ParseCollage | src/model/RGBACollager.java:86-123 | every layer read has the header's size; a first token other than C1 is an illegal argument |
| Readers.ReadLayerEntry | src/model/RGBACollager.java:105-122 | the layer block read by the loop computes ReadEntry |
| Readers.ReadLayerLoop | src/model/RGBACollager.java:103-123 | the `while (sc.hasNext())` loop computes ReadLayers |
| Readers.ReadCollage | src/model/RGBACollager.java:86-123 | the project parser computes ParseCollage of the tokens |
| Readers.ParsePpm | src/model/RGBACollager.java:188-216 | a first token other than P3 is an illegal argument |
| Readers.PpmOpaque | src/model/RGBACollager.java:188-216 | every pixel read from an image text is opaque |
| Readers.TripleMakesOpaque | src/model/RGBAPixel.java:104 | the four-argument constructor builds opaque pixels |
| Readers.ReaderOpaque | src/model/RGBACollager.java:203-211 | a reader whose constructor builds opaque pixels reads opaque pixels |
| Readers.RowOpaque | src/model/RGBACollager.java:203-211 | a row read by such a reader is opaque |
| Readers.GridOpaque | src/model/RGBACollager.java:201-212 | a grid read by such a reader is opaque |
| Readers.ReadPpm | src/model/RGBACollager.java:188-216 | the image parser computes ParsePpm of the tokens |
| Codec.SaveCollage | src/controller/utils/ImageUtil.java:108-147 | fails with an illegal argument exactly when a dimension is below 1; otherwise the project text of the layers |
| Codec.AppendRows | src/controller/utils/ImageUtil.java:139-146 | the pixel loop appends the lines of every row |
| Codec.AppendQuads | src/controller/utils/ImageUtil.java:141-145 | the row loop appends one four-value line per pixel |
| Codec.SaveImage | src/controller/utils/ImageUtil.java:168-199 | the image text: header, then one line of shown colours per row |
| Codec.AppendLine | src/controller/utils/ImageUtil.java:188-198 | the column loop appends a row's colours separated by spaces and ended by a line break |
| Codec.LineLength | src/controller/utils/ImageUtil.java:47 | the length of the first line: no line break before it, and a line break at it if the text goes on |
| Codec.Lines | src/controller/utils/ImageUtil.java:46-51 | the lines of a text hold no line break |
| Codec.StripCommentsAsWritten | src/controller/utils/ImageUtil.java:46-51 | the comment loop as written fails exactly when the text has an empty line; otherwise it keeps the lines that do not start with '#', each followed by the separator |
| Codec.StripComments | src/controller/utils/ImageUtil.java:46-51 | the corrected loop keeps every line that does not start with '#', each followed by the separator (also lines 86-91) |
| RoundTrips.ReadQuadImage | src/model/RGBACollager.java:110-120 | the pixel tokens saveCollage writes for an image read back as that image |
| RoundTrips.LayerBlockTokens | src/controller/utils/ImageUtil.java:135-146 | a layer block splits into its name, filter name and channel tokens |
| RoundTrips.FilterNameIsToken | src/controller/utils/ImageUtil.java:136 | every filter name is written as one token |
| RoundTrips.FilterNameWithoutHash | src/controller/utils/ImageUtil.java:136 | no filter name holds '#' |
| RoundTrips.CollageTokens | src/controller/utils/ImageUtil.java:125-147 | the project text splits into the header tokens followed by the tokens of each layer |
| RoundTrips.ReadHeader | src/model/RGBACollager.java:89-97 | the header saveCollage writes is read back as its magic token, width, height and 255 |
| RoundTrips.ReadBlocks | src/model/RGBACollager.java:103-123 | the layer blocks saveCollage writes are read back as their entries |
| RoundTrips.ParseSavedCollage | src/model/RGBACollager.java:86-123 | parsing the saved project text gives the canvas size and the layer entries |
| RoundTrips.PlaceOnBlank | src/model/RGBACollager.java:130 | placing a settled image (transparent pixels are transparent black) at (0, 0) on a blank layer gives that image |
| RoundTrips.OnBlankSettled | src/model/RGBACollager.java:130 | a settled layer placed on a blank layer comes back unchanged |
| RoundTrips.ReplayStepOf | src/model/RGBACollager.java:127-131 | replaying one saved layer with a fresh name and the canvas size appends that layer, its image composited over a blank layer |
| RoundTrips.ReplayOf | src/model/RGBACollager.java:127-131 | replaying the saved layers rebuilds them in order, each image composited over a blank layer |
| RoundTrips.LoadSaved | src/model/RGBACollager.java:125-131 | loading the entries of distinct, canvas-sized layers gives each layer with its image composited over blank; settled layers come back unchanged |
| RoundTrips.SaveThenLoad | src/controller/utils/ImageUtil.java:108-147 | the project text of such layers with one-token names parses and loads back to the layers with their images composited over blank; settled layers come back unchanged |
| RoundTrips.OverBlack | src/model/RGBAPixel.java:120-129 | what the image text keeps of a pixel: opaque; an opaque pixel is kept; a transparent one becomes black |
| RoundTrips.OverBlackImage | src/model/RGBAPixel.java:120-129 | the same, position by position over an image |
| RoundTrips.OverBlackOpaque | src/model/RGBAPixel.java:120-129 | an opaque image is kept as it is |
| RoundTrips.RowLineTokens | src/controller/utils/ImageUtil.java:188-198 | the line of a row splits into the shown colours of its cells |
| RoundTrips.PpmTokens | src/controller/utils/ImageUtil.java:180-199 | the image text splits into P3, width, height, 255 and the shown colours |
| RoundTrips.ReadRgbImage | src/model/RGBACollager.java:201-212 | the colour tokens saveImage writes read back as the image shown over black |
| RoundTrips.SaveThenReadImage | src/controller/utils/ImageUtil.java:168-199 | the saved image text parses back to the image shown over black |
| RoundTrips.SaveThenReadOpaque | src/controller/utils/ImageUtil.java:168-199 | an opaque image parses back to itself |
| RoundTrips.TokenizeLines | src/controller/utils/ImageUtil.java:46-51 | a text splits into the tokens of its lines, in order |
| RoundTrips.KeptTokens | src/controller/utils/ImageUtil.java:46-51 | the stripped text splits into the tokens of its non-comment lines |
| RoundTrips.StripKeepsTokens | src/controller/utils/ImageUtil.java:46-51 | stripping a text without '#' keeps its tokens |
| RoundTrips.CollageTextWithoutHash | src/controller/utils/ImageUtil.java:125-147 | the project text of layers whose names hold no '#' has no comment line |
| RoundTrips.PpmTextWithoutHash | src/controller/utils/ImageUtil.java:180-199 | the image text has no comment line |
| RoundTrips.SaveThenReadCollage | src/controller/utils/ImageUtil.java:65-94 | saveCollage then readCollage: the saved project text has no empty line, and, stripped and parsed, loads back to the layers with their images composited over blank, and to the same layers when they are settled |
| RoundTrips.ReadThenResave | test/RGBACollagerTest.java:387-403 | reading a saved project back and saving it again writes the same text, with the same canvas size; the saved text has no empty line |
| RoundTrips.SaveThenReadImageFile | src/controller/utils/ImageUtil.java:32-54 | saveImage then readPPM then addImage: the saved image text has no empty line, and, stripped, parses back to the image shown over black |
| RoundTrips.ReadSavedCollage | src/controller/utils/ImageUtil.java:65-94 | readCollage with the comment loop as written, on the text saveCollage wrote: the loop does not fail, and loadProject's parse loads back to the layers composited over blank (the same layers when settled) |
| RoundTrips.ReadSavedImage | src/controller/utils/ImageUtil.java:32-54 | readPPM with the comment loop as written, then addImage's parse, on the text saveImage wrote: the image shown over black |
| RoundTrips.LinesAppend | src/controller/utils/ImageUtil.java:46-51 | the lines nextLine returns from a text ending in a line break followed by more text: those of the first, then those of the second |
| RoundTrips.OneLine | src/controller/utils/ImageUtil.java:46-51 | a non-empty text without a break, followed by one, is read as that single line |
| RoundTrips.ConcatWholeLines | src/controller/utils/ImageUtil.java:46-51 | pieces that each end in a line break and hold no empty line join into a text with neither property broken |
| RoundTrips.CollageTextWhole | src/controller/utils/ImageUtil.java:125-147 | the project text of layers whose names are single tokens ends in a line break and has no empty line |
| RoundTrips.PpmTextWhole | src/controller/utils/ImageUtil.java:180-199 | the image text ends in a line break and has no empty line |
| RoundTrips.EmptyLineInImageFile | src/controller/utils/ImageUtil.java:46-51 | an image text with an empty second line: the corrected stripper reads the image back, while the as-written one fails on it |

## Left out

- `RGBACollager.addImage(layerName, BufferedImage, ...)`, `createJavaImage`, `ImageUtil.saveImage(String, BufferedImage)` and `ImageUtil.readJPEGPNG`: these go through `java.awt` and `javax.imageio`, which are not part of this model.
- File I/O in `readPPM`, `readCollage`, `saveCollage` and `saveImage`. File contents are strings and the written text is returned. Missing files and write errors are not modelled.
- The controller, the views and `main` are not part of this model.
- Null arguments other than the collager's optional strings and image and `updateFilter`'s name: null layers, pixels, filters and images. The model cannot express them.
- Codec.SaveCollage: takes the layers as values (name, filter, image), so it omits the null-layer check at ImageUtil.java:131-133.
- Collagers.Collager.GetLayers: returns the layer objects themselves. The unmodifiable copy `List.copyOf` is not modelled.
- Images.FromPixels: the image built from an array does not keep the caller's array, so the aliasing that this constructor has is not modelled.
- Images.FromPixels: takes a rectangular two-dimensional array, so jagged `Pixel[][]` arrays are not expressible. The source takes the width from row 0 only (RGBALayerImage.java:79). `getPixels` then copies each row with `Arrays.copyOf(row, width)` (lines 86-94), which pads a short row with nulls and truncates a long one. A later combine or filter on the padded copy throws a NullPointerException. None of this is modelled.
- Images.CombineImages: the fit tests `startY + height > this.height` and `startX + width > this.width` (RGBALayerImage.java:106 and 111) add 32-bit ints. An offset near 2147483647 wraps the sum negative, passes the test, and then the copy loop throws ArrayIndexOutOfBoundsException. The model adds unbounded integers and reports an illegal argument for such offsets. The same holds for its callers Layers.Layer.Combine, Collagers.PlaceImage and Collagers.Collager.AddImage.
- Pixels.FromScaled: rescales with the corrected Pixels.Rescale, which computes `v + 1` over the integers and keeps every channel at or above 0, not the as-written Pixels.RescaleAsWritten (see Findings). Two inputs differ. For scales of 1024 and above a small positive channel is stored as 0 where the source stores -1 (value 1 on the scale 1024 gives round(512/1025 - 1) = -1). On the scale 2147483647 the value 2147483647 is stored as 255 where the source, whose int sum `red + 1` wraps, stores -257 (Pixels.RescaleAsWrittenWraps); so Pixels.RescaleTop holds for the model, not for the source at that scale. The project text reads its pixels through this constructor, so Readers.ParseCollage and Collagers.Collager.LoadProject accept such a text and the load succeeds. In the source, the replay's addImage then combines the pixel, and the constructor call at RGBAPixel.java:149 throws an IllegalArgumentException, leaving the project partly loaded (RGBACollager.java:124-133). That failure is not modelled.
- Pixels.FromRGB: converts with the documented conversion Pixels.Scale, not the as-written Pixels.ScaleAsWritten (see Findings). The two agree on the scale 255, the scale saveImage writes. For any other scale the source stores a different channel. That holds in Readers.ParsePpm and Collagers.Collager.AddImageText as well. Above 255 the source's channel can exceed 255. The IllegalArgumentException that a later combine can then throw, from the constructor call at RGBAPixel.java:149, is not modelled.
- Collagers.Collager.LoadProject: when replaying a parsed layer fails part way (a duplicate name or an unknown filter), the source leaves the project partly loaded. The contract states only that the call fails with an illegal argument and that the invariant holds; it does not state the partial state.
- `double` rounding: real arithmetic replaces IEEE doubles. Results that differ only by floating-point error, including ties in `Math.round`, are not modelled. The test vectors the model proves are the ones whose exact value is unambiguous.
- Scanner: only the default whitespace delimiter, ASCII digits and an optional sign are modelled. Radix prefixes, grouping separators and non-ASCII digits are not. `NoSuchElementException`, `InputMismatchException`, `NegativeArraySizeException` and the `charAt` failure collapse into one malformed-input error.
- `System.lineSeparator()` becomes the parameter `eol`. `Scanner.nextLine` is modelled with `\n` as the only line break, so `\r\n` and the other line terminators are not modelled.
- RoundTrips.SaveThenLoad and RoundTrips.SaveThenReadCollage: hold for layers whose names are single tokens, whose names hold no '#' (SaveThenReadCollage only), and whose canvas size fits in an int. For every image they state that each layer comes back composited over a blank layer. The layers come back unchanged only when their pixels are settled, meaning no pixel has zero alpha with colour other than black, because `addImage` turns such a pixel into (0, 0, 0, 0) (Images.OverlayOnBlank). RoundTrips.ReadThenResave needs settled pixels for the same reason.
- RoundTrips.SaveThenReadImage: the image text has no alpha, so only opaque images come back exactly (RoundTrips.SaveThenReadOpaque). Others come back as shown over black.

## Findings

| source | as written | input that shows it | evidently intended | confidence | as-written member | corrected member |
|---|---|---|---|---|---|---|
| src/model/RGBAPixel.java:59-66 | a channel v > 0 is rescaled as round(256 (v + 1) / (max + 1) - 1) | red = 1 on the scale max = 1024 (the other channels 0) is stored as -1 | every stored channel lies in 0..255, as the class promises | not executed | Pixels.RescaleAsWrittenCanBeNegative | Pixels.Rescale |
| src/model/RGBAPixel.java:59-66 | `red + 1` (likewise green, blue, alpha) is an int sum, so it wraps when the channel is 2147483647 | red = 2147483647 on the scale 2147483647 (the text "C1\n1 1\n2147483647\nl normal\n2147483647 0 0 2147483647\n" given to loadProject) is stored as -257 | the top of every scale becomes 255, as at every smaller scale | not executed | Pixels.RescaleAsWrittenWraps | Pixels.Rescale |
| src/model/RGBAPixel.java:101-103 | a channel is converted as (int) (v * max / 255), multiplying by the scale | red = 100 on the scale max = 100 is stored as 39 (Pixels.ScaleAsWrittenMissesTop); red = 300 on the scale 300 is stored as 352, outside 0..255 | the channel is converted to have a maximum of 255, as the javadoc at lines 72-74 says: v * 255 / max, so the top of the scale becomes 255 | not executed | Pixels.ScaleAsWrittenCanExceed255 | Pixels.Scale |
| src/controller/utils/ImageUtil.java:46-51 | each line's `s.charAt(0)` is read to skip comments (line 48; the same at 86-91) | an image file whose second line is empty (RoundTrips.WithBlankLine) makes `charAt(0)` throw | empty lines are kept like any other non-comment line, so the file reads as its tokens say | not executed | Codec.StripCommentsAsWritten | Codec.StripComments |

For the third finding, RoundTrips.EmptyLineInImageFile proves two facts about an image text with an empty second line. The text has an empty line, so Codec.StripCommentsAsWritten rejects it. Codec.StripComments reads it back as the image shown over black.
