/**
 * One YOLO detection (overseer_anomaly_correction/model.py): the box values
 * the detector reports, extended with the box area, read through fixed-index
 * attribute accessors; and the per-attribute range table that the model builds
 * from the raw image size.
 */
module Observation {
  import opened Wrappers

  // ---------------------------------------------------------------------------
  // Attributes and their indices (class ObservationAttribute)
  // ---------------------------------------------------------------------------

  /** The eight attribute descriptors of `YoloObservation`. */
  datatype Attribute = XMin | XMax | YMin | YMax | XCentre | YCentre | Score | Area

  /** The index each descriptor reads. */
  function Index(a: Attribute): (i: nat)
    ensures i < 8
  {
    match a
    case XMin => 0
    case XMax => 1
    case YMin => 2
    case YMax => 3
    case XCentre => 4
    case YCentre => 5
    case Score => 6
    case Area => 7
  }

  /** The descriptor reading index i, if any. */
  function AttributeAt(i: int): Option<Attribute>
  {
    if i == 0 then Some(XMin)
    else if i == 1 then Some(XMax)
    else if i == 2 then Some(YMin)
    else if i == 3 then Some(YMax)
    else if i == 4 then Some(XCentre)
    else if i == 5 then Some(YCentre)
    else if i == 6 then Some(Score)
    else if i == 7 then Some(Area)
    else None
  }

  /** The descriptors cover the indices 0 to 7, one descriptor per index. */
  lemma IndexBijective(a: Attribute, i: int)
    ensures AttributeAt(Index(a)) == Some(a)
    ensures AttributeAt(i).Some? <==> 0 <= i < 8
    ensures AttributeAt(i).Some? ==> Index(AttributeAt(i).value) == i
  {
  }

  /** Two descriptors read the same index only if they are the same descriptor. */
  lemma IndexInjective(a: Attribute, b: Attribute)
    ensures Index(a) == Index(b) <==> a == b
  {
    IndexBijective(a, Index(a));
    IndexBijective(b, Index(b));
  }

  /** The key of each attribute in the feature metadata table. */
  function Name(a: Attribute): string
  {
    match a
    case XMin => "x_min"
    case XMax => "x_max"
    case YMin => "y_min"
    case YMax => "y_max"
    case XCentre => "x_centre"
    case YCentre => "y_centre"
    case Score => "score"
    case Area => "area"
  }

  /** The attribute with a given key, if any. */
  function Named(key: string): Option<Attribute>
  {
    if key == "x_min" then Some(XMin)
    else if key == "x_max" then Some(XMax)
    else if key == "y_min" then Some(YMin)
    else if key == "y_max" then Some(YMax)
    else if key == "x_centre" then Some(XCentre)
    else if key == "y_centre" then Some(YCentre)
    else if key == "score" then Some(Score)
    else if key == "area" then Some(Area)
    else None
  }

  /** Names and keys are inverse. */
  lemma NameRoundTrip(a: Attribute, key: string)
    ensures Named(Name(a)) == Some(a)
    ensures Named(key).Some? ==> Name(Named(key).value) == key
  {
  }

  // ---------------------------------------------------------------------------
  // Observation data
  // ---------------------------------------------------------------------------

  /**
   * `list[key]`: Python indexing, where a negative key counts from the end
   * and a key out of range raises `IndexError` (None here).
   */
  function Lookup(data: seq<real>, key: int): (r: Option<real>)
    ensures r.Some? <==> -|data| <= key < |data|
    ensures 0 <= key < |data| ==> r == Some(data[key])
    ensures -|data| <= key < 0 ==> r == Some(data[|data| + key])
  {
    if 0 <= key < |data| then Some(data[key])
    else if -|data| <= key < 0 then Some(data[|data| + key])
    else None
  }

  /** A negative key reads the same entry as its non-negative counterpart. */
  lemma LookupFromEnd(data: seq<real>, key: int)
    requires 0 < key <= |data|
    ensures Lookup(data, -key) == Lookup(data, |data| - key)
  {
  }

  /** The value a descriptor reads from the data, if it is there. */
  function Get(data: seq<real>, a: Attribute): Option<real>
  {
    Lookup(data, Index(a))
  }

  /**
   * The data of a new observation: a copy of the detector's values followed
   * by the box area, `(x_max - x_min) * (y_max - y_min)` read through the
   * descriptors of the copy.
   */
  function Extended(input: seq<real>): (r: seq<real>)
    requires |input| >= 4
    ensures |r| == |input| + 1 && r[..|input|] == input
    ensures r[|input|] == (input[1] - input[0]) * (input[3] - input[2])
  {
    var xSpan := input[Index(XMax)] - input[Index(XMin)];
    var ySpan := input[Index(YMax)] - input[Index(YMin)];
    input + [xSpan * ySpan]
  }

  /** The values the detector reported read the same after the area is appended. */
  lemma ExtendedKeepsInput(input: seq<real>, key: int)
    requires |input| >= 4 && 0 <= key < |input|
    ensures Lookup(Extended(input), key) == Lookup(input, key)
  {
  }

  /**
   * With the seven values the detector reports (box, centre, score), every
   * descriptor but `area` reads the reported value and `area` reads the
   * derived product.
   */
  lemma SevenValues(input: seq<real>, a: Attribute)
    requires |input| == 7
    ensures a != Area ==> Get(Extended(input), a) == Some(input[Index(a)])
    ensures a == Area ==> Get(Extended(input), a) == Some((input[1] - input[0]) * (input[3] - input[2]))
  {
  }

  /** The newest entry of the data is the area, however many values came in. */
  lemma AreaIsLast(input: seq<real>)
    requires |input| >= 4
    ensures Lookup(Extended(input), -1) == Some((input[1] - input[0]) * (input[3] - input[2]))
  {
  }

  // ---------------------------------------------------------------------------
  // Range metadata
  // ---------------------------------------------------------------------------

  /** `(circular, minimum, maximum)` of one attribute. */
  datatype Meta = Meta(circular: bool, low: real, high: real)

  /** `YoloObservation.set_metadata`: the range each descriptor is given, for an image of `(height, width)`. */
  function Bounds(a: Attribute, height: int, width: int): Meta
  {
    match a
    case XMin => Meta(false, 0.0, width as real)
    case XMax => Meta(false, 0.0, width as real)
    case YMin => Meta(false, 0.0, height as real)
    case YMax => Meta(false, 0.0, height as real)
    case XCentre => Meta(true, 0.0, width as real)
    case YCentre => Meta(true, 0.0, height as real)
    case Score => Meta(false, 0.0, 1.0)
    case Area => Meta(true, 0.0, (height * width) as real)
  }

  /** `YoloModel.set_metadata`: the feature metadata table for an image of `(height, width)`. */
  function FeatureTable(height: int, width: int): map<string, Meta>
  {
    map[
      "x_min" := Meta(false, 0.0, width as real),
      "x_max" := Meta(false, 0.0, width as real),
      "y_min" := Meta(false, 0.0, height as real),
      "y_max" := Meta(false, 0.0, height as real),
      "x_centre" := Meta(true, 0.0, width as real),
      "y_centre" := Meta(true, 0.0, height as real),
      "score" := Meta(false, 0.0, 1.0),
      "area" := Meta(true, 0.0, (height * width) as real)
    ]
  }

  /** The table has a key exactly for each attribute, eight in all. */
  lemma FeatureTableKeys(height: int, width: int, key: string)
    ensures key in FeatureTable(height, width) <==> Named(key).Some?
    ensures |FeatureTable(height, width)| == 8
  {
    var keys := FeatureTable(height, width).Keys;
    assert keys == {"x_min", "x_max", "y_min", "y_max", "x_centre", "y_centre", "score", "area"};
  }

  /** The table gives each attribute the range its descriptor gets. */
  lemma TablesAgree(height: int, width: int, a: Attribute)
    ensures Name(a) in FeatureTable(height, width)
    ensures FeatureTable(height, width)[Name(a)] == Bounds(a, height, width)
  {
  }

  /**
   * Every range starts at 0; x features end at the width, y features at the
   * height, the score at 1 and the area at height times width; and exactly
   * the centres and the area are circular.
   */
  lemma BoundsShape(a: Attribute, height: int, width: int)
    ensures Bounds(a, height, width).low == 0.0
    ensures a in {XMin, XMax, XCentre} ==> Bounds(a, height, width).high == width as real
    ensures a in {YMin, YMax, YCentre} ==> Bounds(a, height, width).high == height as real
    ensures a == Score ==> Bounds(a, height, width).high == 1.0
    ensures a == Area ==> Bounds(a, height, width).high == (height * width) as real
    ensures Bounds(a, height, width).circular <==> a in {XCentre, YCentre, Area}
  {
  }

  // ---------------------------------------------------------------------------
  // Objects
  // ---------------------------------------------------------------------------

  /** `YoloObservation`: the extended data and the metadata table it was given. */
  class YoloObservation {
    var data: seq<real>
    var metadata: map<string, Meta>

    /** Copies the detector's values and appends the box area. */
    constructor (input: seq<real>, metadata: map<string, Meta>)
      requires |input| >= 4
      ensures data == Extended(input) && this.metadata == metadata
    {
      data := Extended(input);
      this.metadata := metadata;
    }

    /** `__getitem__`. */
    function Item(key: int): (r: Option<real>)
      reads this
      ensures r.Some? <==> -|data| <= key < |data|
      ensures 0 <= key < |data| ==> r == Some(data[key])
    {
      Lookup(data, key)
    }

    /** A descriptor's `__get__`: the entry at its index. */
    function Attr(a: Attribute): (r: Option<real>)
      reads this
      ensures r.Some? <==> Index(a) < |data|
      ensures r.Some? ==> r.value == data[Index(a)]
    {
      Item(Index(a))
    }
  }

  /** The class-level ranges of the attribute descriptors. */
  class ObservationAttributes {
    var metadata: map<Attribute, Meta>

    /** Before `set_metadata` no descriptor has a range. */
    constructor ()
      ensures metadata == map[]
    {
      metadata := map[];
    }

    /** `YoloObservation.set_metadata`: gives every descriptor its range for the image size. */
    method SetMetadata(height: int, width: int)
      modifies this
      ensures forall a: Attribute :: a in metadata && metadata[a] == Bounds(a, height, width)
    {
      metadata := map[
        XMin := Bounds(XMin, height, width), XMax := Bounds(XMax, height, width),
        YMin := Bounds(YMin, height, width), YMax := Bounds(YMax, height, width),
        XCentre := Bounds(XCentre, height, width), YCentre := Bounds(YCentre, height, width),
        Score := Bounds(Score, height, width), Area := Bounds(Area, height, width)];
      forall a: Attribute
        ensures a in metadata && metadata[a] == Bounds(a, height, width)
      {
        match a
        case XMin =>
        case XMax =>
        case YMin =>
        case YMax =>
        case XCentre =>
        case YCentre =>
        case Score =>
        case Area =>
      }
    }
  }

  /** The feature metadata of `YoloModel`; the network itself is not part of this model. */
  class YoloModel {
    var featureMetadata: map<string, Meta>

    constructor ()
      ensures featureMetadata == map[]
    {
      featureMetadata := map[];
    }

    /** `YoloModel.set_metadata`: replaces the table by the one for the image size. */
    method SetMetadata(height: int, width: int)
      modifies this
      ensures featureMetadata == FeatureTable(height, width)
    {
      featureMetadata := FeatureTable(height, width);
    }
  }
}
