/** The catalog of src/model/filters/FilterName.java: thirteen constants, each
    with a user-facing name, a filter object and a filter type. */
module FilterNames {
  import opened Wrappers
  import opened Filters

  /** Whether a filter works on one image or blends an image over another. */
  datatype FilterType = One | Two

  datatype FilterName =
    | Normal | RedFilter | BlueFilter | GreenFilter
    | BrightenIntensity | DarkenIntensity | BrightenLuma | DarkenLuma | BrightenMax | DarkenMax
    | Multiply | Screen | Difference

  /** values(): the constants in declaration order. */
  const Values: seq<FilterName> :=
    [Normal, RedFilter, BlueFilter, GreenFilter, BrightenIntensity, DarkenIntensity,
     BrightenLuma, DarkenLuma, BrightenMax, DarkenMax, Multiply, Screen, Difference]

  /** getName: the name the constant was declared with. */
  function Name(f: FilterName): string {
    match f
    case Normal => "normal"
    case RedFilter => "red_filter"
    case BlueFilter => "blue_filter"
    case GreenFilter => "green_filter"
    case BrightenIntensity => "brighten_intensity"
    case DarkenIntensity => "darken_intensity"
    case BrightenLuma => "brighten_luma"
    case DarkenLuma => "darken_luma"
    case BrightenMax => "brighten_max"
    case DarkenMax => "darken_max"
    case Multiply => "darken_multiply"
    case Screen => "brighten_screen"
    case Difference => "inversion_difference"
  }

  /** getFilter: the filter object the constant was declared with. */
  function GetFilter(f: FilterName): Filter {
    match f
    case Normal => NormalFilter
    case RedFilter => ChannelFilter(KeepRed)
    case BlueFilter => ChannelFilter(KeepBlue)
    case GreenFilter => ChannelFilter(KeepGreen)
    case BrightenIntensity => BrightenDarken(Intensity, true)
    case DarkenIntensity => BrightenDarken(Intensity, false)
    case BrightenLuma => BrightenDarken(Luma, true)
    case DarkenLuma => BrightenDarken(Luma, false)
    case BrightenMax => BrightenDarken(MaxValue, true)
    case DarkenMax => BrightenDarken(MaxValue, false)
    case Multiply => TwoFilter(MultiplyBlend)
    case Screen => TwoFilter(ScreenBlend)
    case Difference => TwoFilter(DifferenceBlend)
  }

  /** The filter type the constant was declared with: TWO for the three blends. */
  function Type(f: FilterName): FilterType {
    match f
    case Multiply => Two
    case Screen => Two
    case Difference => Two
    case _ => One
  }

  /** The declared type agrees with the filter object: TWO exactly for the
      two-image filters. */
  lemma TypeMatchesFilter(f: FilterName)
    ensures Type(f) == Two <==> GetFilter(f).TwoFilter?
  {
  }

  /** getTwoFilter: IllegalStateException for a ONE-type constant; otherwise the
      two-image filter the constant holds. */
  function GetTwoFilter(f: FilterName): (r: Result<Blend>)
    ensures r.Err? <==> Type(f) == One
    ensures r.Err? ==> r.error == IllegalState
    ensures r.Ok? ==> GetFilter(f) == TwoFilter(r.value)
  {
    TypeMatchesFilter(f);
    if Type(f) != Two then Err(IllegalState)
    else Ok(GetFilter(f).blend)
  }

  /** getTwoFilter succeeds exactly for darken_multiply, brighten_screen and
      inversion_difference. */
  lemma TwoFilterConstants(f: FilterName)
    ensures GetTwoFilter(f).Ok? <==> f in {Multiply, Screen, Difference}
  {
  }

  /** The names of the catalog constants, in declaration order. */
  function CatalogNames(): (names: seq<string>)
    ensures |names| == |Values| && forall i :: 0 <= i < |Values| ==> names[i] == Name(Values[i])
  {
    seq(|Values|, i requires 0 <= i < |Values| => Name(Values[i]))
  }

  /** The catalog has thirteen constants, every constant is in it once, and the
      names come in the order the project lists them. */
  lemma CatalogOrder()
    ensures |Values| == 13
    ensures forall f: FilterName :: f in Values
    ensures forall i, j :: 0 <= i < j < |Values| ==> Values[i] != Values[j]
    ensures CatalogNames() ==
            ["normal", "red_filter", "blue_filter", "green_filter", "brighten_intensity",
             "darken_intensity", "brighten_luma", "darken_luma", "brighten_max", "darken_max",
             "darken_multiply", "brighten_screen", "inversion_difference"]
  {
    forall f: FilterName
      ensures f in Values
    {
      var i := match f
        case Normal => 0 case RedFilter => 1 case BlueFilter => 2 case GreenFilter => 3
        case BrightenIntensity => 4 case DarkenIntensity => 5 case BrightenLuma => 6
        case DarkenLuma => 7 case BrightenMax => 8 case DarkenMax => 9
        case Multiply => 10 case Screen => 11 case Difference => 12;
      assert Values[i] == f;
    }
  }

  /** No two constants share a name. */
  lemma NamesDistinct(f: FilterName, g: FilterName)
    ensures Name(f) == Name(g) ==> f == g
  {
  }

  /** The first constant of `entries` with the given name, as the loop of
      RGBALayer.updateFilter finds it. */
  function FirstNamed(entries: seq<FilterName>, name: string): (r: Option<FilterName>)
    ensures r.Some? ==> r.value in entries && Name(r.value) == name
    ensures r.None? <==> forall f :: f in entries ==> Name(f) != name
  {
    if |entries| == 0 then None
    else if Name(entries[0]) == name then Some(entries[0])
    else FirstNamed(entries[1..], name)
  }

  /** The constant named `name`, if there is one. */
  function Lookup(name: string): (r: Option<FilterName>)
    ensures r.Some? ==> Name(r.value) == name
    ensures r.None? <==> forall f: FilterName :: Name(f) != name
  {
    CatalogOrder();
    FirstNamed(Values, name)
  }

  /** Name and Lookup are inverse: every constant is found by its own name. */
  lemma {:induction false} LookupName(f: FilterName)
    ensures Lookup(Name(f)) == Some(f)
  {
    var r := Lookup(Name(f));
    NamesDistinct(r.value, f);
  }
}
