/**
 * The manual segmenter: each image is shown shrunk by a resize factor, the
 * user clicks polygon vertices, closes shapes with a right click, and "Save
 * & Next" turns the image's shapes into records at full resolution. All
 * records are exported together once every image has been seen.
 */
module ManualSegmenterTool {
  import opened Wrappers
  import opened Geometry
  import opened FileNames

  /** A matplotlib button press: over the image axes or not, data coordinates if any, and the button. */
  datatype MouseEvent = MouseEvent(inAxes: bool, data: Option<Point>, button: int)

  datatype ShapeRecord = ShapeRecord(filename: string, perimeter: real, area: real, poreFactor: real)

  /** A completed shape: at least three vertices and the first one repeated at the end. */
  predicate ClosedShape(shape: seq<Point>) {
    |shape| >= 4 && shape[|shape| - 1] == shape[0]
  }

  /** The area of a shape at full resolution: its displayed area divided by r^2 (by r twice). */
  function FullArea(shape: seq<Point>, r: real): (a: real)
    requires r > 0.0
    ensures a >= 0.0
    ensures a > 0.0 <==> PolygonArea(shape) > 0.0
  {
    PolygonArea(shape) / r / r
  }

  /** The record of one shape, unless its area is zero. */
  function RecordOf(filename: string, sqrt: real -> real, shape: seq<Point>, r: real): (rec: Option<ShapeRecord>)
    requires r > 0.0
    ensures rec.Some? <==> PolygonArea(shape) > 0.0
    ensures rec.Some? ==> rec.value.filename == filename && rec.value.area > 0.0 && rec.value.poreFactor >= 0.0
                          && rec.value.poreFactor == PoreFactor(PolygonLength(sqrt, shape), PolygonArea(shape))
  {
    var perimeter := PolygonLength(sqrt, shape) / r;
    var area := FullArea(shape, r);
    if area > 0.0 then
      PoreFactorScaleInvariant(PolygonLength(sqrt, shape), PolygonArea(shape), r);
      Some(ShapeRecord(filename, perimeter, area, PoreFactor(perimeter, area)))
    else None
  }

  /** The records of a list of shapes, in shape order; zero-area shapes are dropped. */
  function Records(filename: string, sqrt: real -> real, shapes: seq<seq<Point>>, r: real): (recs: seq<ShapeRecord>)
    requires r > 0.0
    ensures |recs| <= |shapes|
    ensures forall rec :: rec in recs ==> rec.filename == filename && rec.area > 0.0 && rec.poreFactor >= 0.0
  {
    if shapes == [] then []
    else
      var n := |shapes| - 1;
      var rec := RecordOf(filename, sqrt, shapes[n], r);
      Records(filename, sqrt, shapes[..n], r) + (if rec.Some? then [rec.value] else [])
  }

  /** The number of records is the number of shapes of non-zero area. */
  function PositiveCount(shapes: seq<seq<Point>>): nat {
    if shapes == [] then 0
    else PositiveCount(shapes[..|shapes| - 1]) + (if PolygonArea(shapes[|shapes| - 1]) > 0.0 then 1 else 0)
  }

  lemma {:induction false} RecordsCount(filename: string, sqrt: real -> real, shapes: seq<seq<Point>>, r: real)
    requires r > 0.0
    ensures |Records(filename, sqrt, shapes, r)| == PositiveCount(shapes)
  {
    if shapes != [] {
      RecordsCount(filename, sqrt, shapes[..|shapes| - 1], r);
    }
  }

  /** The resize factor cancels out of every pore factor: the same shapes give the same values for any r. */
  lemma {:induction false} RecordsPoreFactorsIndependentOfResize(
    filename: string, sqrt: real -> real, shapes: seq<seq<Point>>, r: real, r': real)
    requires r > 0.0 && r' > 0.0
    ensures |Records(filename, sqrt, shapes, r)| == |Records(filename, sqrt, shapes, r')|
    ensures forall k :: 0 <= k < |Records(filename, sqrt, shapes, r)| ==>
              Records(filename, sqrt, shapes, r)[k].poreFactor == Records(filename, sqrt, shapes, r')[k].poreFactor
  {
    if shapes != [] {
      RecordsPoreFactorsIndependentOfResize(filename, sqrt, shapes[..|shapes| - 1], r, r');
    }
  }

  const Supported: seq<string> := [".png", ".jpg", ".jpeg", ".bmp", ".tif", ".tiff"]

  /** The images of a listing: supported suffix (any case), sorted; none at all is a FileNotFoundError. */
  function DiscoverImages(listing: seq<string>): (r: Result<seq<string>, string>)
    ensures r.Err? <==> (forall x :: x in listing ==> Lower(PathSuffix(x)) !in Supported)
    ensures r.Ok? ==> r.value != [] && Sorted(r.value)
                      && (forall x :: x in r.value <==> x in listing && Lower(PathSuffix(x)) in Supported)
  {
    var files := Sort(FilterSuffixIn(listing, Supported));
    SortKeepsNames(FilterSuffixIn(listing, Supported));
    if files == [] then Err("No images found")
    else
      assert files[0] in FilterSuffixIn(listing, Supported);
      Ok(files)
  }

  /** What the user does in one image's window. */
  datatype UiEvent = Click(e: MouseEvent) | ClearShapes | SaveAndNext | CloseWindow

  class ManualSegmenter {
    const imageFiles: seq<string>
    const resizeFactor: real
    /** The square root that shapely's length uses. */
    const sqrt: real -> real
    var currentName: string
    var currentPoints: seq<Point>
    var shapesOnCurrentImage: seq<seq<Point>>
    var allShapesData: seq<ShapeRecord>
    /** The annotated images saved (by image name) and the spreadsheets exported. */
    ghost var annotated: seq<string>
    ghost var exported: seq<seq<ShapeRecord>>

    ghost predicate Valid()
      reads this
    {
      resizeFactor > 0.0 && forall k :: 0 <= k < |shapesOnCurrentImage| ==> ClosedShape(shapesOnCurrentImage[k])
    }

    constructor(listing: seq<string>, resizeFactor: real, sqrt: real -> real)
      requires DiscoverImages(listing).Ok? && resizeFactor > 0.0
      ensures Valid()
      ensures imageFiles == DiscoverImages(listing).value && this.resizeFactor == resizeFactor && this.sqrt == sqrt
      ensures currentPoints == [] && shapesOnCurrentImage == [] && allShapesData == []
      ensures annotated == [] && exported == []
    {
      imageFiles := DiscoverImages(listing).value;
      this.resizeFactor := resizeFactor;
      this.sqrt := sqrt;
      currentName := "";
      currentPoints := [];
      shapesOnCurrentImage := [];
      allShapesData := [];
      annotated := [];
      exported := [];
    }

    /** _on_click */
    method OnClick(e: MouseEvent)
      requires Valid()
      modifies this
      ensures Valid()
      ensures allShapesData == old(allShapesData) && currentName == old(currentName)
      ensures annotated == old(annotated) && exported == old(exported)
      ensures !e.inAxes || e.data.None? ==>
                currentPoints == old(currentPoints) && shapesOnCurrentImage == old(shapesOnCurrentImage)
      ensures e.inAxes && e.data.Some? && e.button == 1 ==>
                currentPoints == old(currentPoints) + [e.data.value] && shapesOnCurrentImage == old(shapesOnCurrentImage)
      ensures e.inAxes && e.data.Some? && e.button == 3 && |old(currentPoints)| >= 3 ==>
                currentPoints == [] && shapesOnCurrentImage == old(shapesOnCurrentImage) + [old(currentPoints) + [old(currentPoints)[0]]]
      ensures e.inAxes && e.data.Some? && e.button != 1 && (e.button != 3 || |old(currentPoints)| < 3) ==>
                currentPoints == old(currentPoints) && shapesOnCurrentImage == old(shapesOnCurrentImage)
    {
      if !e.inAxes || e.data.None? {
        return;
      }
      if e.button == 1 {
        currentPoints := currentPoints + [e.data.value];
      } else if e.button == 3 && |currentPoints| >= 3 {
        currentPoints := currentPoints + [currentPoints[0]];
        shapesOnCurrentImage := shapesOnCurrentImage + [currentPoints];
        currentPoints := [];
      }
    }

    /** _clear_shapes: the image's shapes and the open polygon go, the collected records stay. */
    method ClearShapes()
      requires Valid()
      modifies this
      ensures Valid()
      ensures currentPoints == [] && shapesOnCurrentImage == []
      ensures allShapesData == old(allShapesData) && currentName == old(currentName)
      ensures annotated == old(annotated) && exported == old(exported)
    {
      shapesOnCurrentImage := [];
      currentPoints := [];
    }

    /** _save_and_close: one record per shape of non-zero area, then the annotated image. */
    method SaveAndClose()
      requires Valid()
      modifies this
      ensures Valid()
      ensures allShapesData == old(allShapesData) + Records(currentName, sqrt, shapesOnCurrentImage, resizeFactor)
      ensures currentPoints == old(currentPoints) && shapesOnCurrentImage == old(shapesOnCurrentImage)
      ensures currentName == old(currentName)
      ensures annotated == old(annotated) + [currentName] && exported == old(exported)
    {
      var i := 0;
      while i < |shapesOnCurrentImage|
        invariant 0 <= i <= |shapesOnCurrentImage|
        invariant allShapesData == old(allShapesData) + Records(currentName, sqrt, shapesOnCurrentImage[..i], resizeFactor)
        invariant currentPoints == old(currentPoints) && shapesOnCurrentImage == old(shapesOnCurrentImage)
        invariant currentName == old(currentName) && annotated == old(annotated) && exported == old(exported)
      {
        var shapePoints := shapesOnCurrentImage[i];
        assert shapesOnCurrentImage[..i + 1][..i] == shapesOnCurrentImage[..i];
        var perimeter := PolygonLength(sqrt, shapePoints) / resizeFactor;
        var area := PolygonArea(shapePoints) / resizeFactor / resizeFactor;
        if area > 0.0 {
          var poreFactor := PoreFactor(perimeter, area);
          allShapesData := allShapesData + [ShapeRecord(currentName, perimeter, area, poreFactor)];
        }
        i := i + 1;
      }
      assert shapesOnCurrentImage[..i] == shapesOnCurrentImage;
      annotated := annotated + [currentName];
    }

    /** _export_results: nothing when no record was collected, otherwise all of them in one file. */
    method ExportResults()
      modifies this
      ensures allShapesData == [] ==> exported == old(exported)
      ensures allShapesData != [] ==> exported == old(exported) + [allShapesData]
      ensures allShapesData == old(allShapesData) && annotated == old(annotated)
      ensures currentPoints == old(currentPoints) && shapesOnCurrentImage == old(shapesOnCurrentImage)
      ensures currentName == old(currentName)
    {
      if allShapesData != [] {
        exported := exported + [allShapesData];
      }
    }

    /**
     * _process_image and its window: the per-image state is reset before the
     * file is opened; then the events until "Save & Next" or the window closes.
     */
    method ProcessImage(name: string, events: seq<UiEvent>)
      requires Valid()
      modifies this
      ensures Valid()
      ensures currentName == name && exported == old(exported)
      ensures |allShapesData| >= |old(allShapesData)| && allShapesData[..|old(allShapesData)|] == old(allShapesData)
      ensures forall k :: |old(allShapesData)| <= k < |allShapesData| ==> allShapesData[k].filename == name
      ensures events == [] ==>
                currentPoints == [] && shapesOnCurrentImage == [] && allShapesData == old(allShapesData)
    {
      currentName := name;
      shapesOnCurrentImage := [];
      currentPoints := [];
      var i := 0;
      while i < |events|
        invariant 0 <= i <= |events|
        invariant Valid() && currentName == name && exported == old(exported)
        invariant |allShapesData| >= |old(allShapesData)| && allShapesData[..|old(allShapesData)|] == old(allShapesData)
        invariant forall k :: |old(allShapesData)| <= k < |allShapesData| ==> allShapesData[k].filename == name
        invariant i == 0 ==>
                    currentPoints == [] && shapesOnCurrentImage == [] && allShapesData == old(allShapesData)
      {
        match events[i]
        case Click(e) =>
          OnClick(e);
          i := i + 1;
        case ClearShapes =>
          ClearShapes();
          i := i + 1;
        case SaveAndNext =>
          ghost var before := allShapesData;
          SaveAndClose();
          assert allShapesData[..|before|] == before;
          assert forall k :: |before| <= k < |allShapesData| ==> allShapesData[k] in allShapesData[|before|..];
          i := |events|;
        case CloseWindow =>
          i := |events|;
      }
    }

    /**
     * run: every image in sorted order, then one export. An image PIL cannot
     * open raises out of run, and nothing is exported.
     */
    method Run(openable: string -> bool, session: string -> seq<UiEvent>) returns (completed: bool)
      requires Valid() && allShapesData == [] && exported == []
      modifies this
      ensures Valid()
      ensures completed <==> forall k :: 0 <= k < |imageFiles| ==> openable(imageFiles[k])
      ensures completed ==> (if allShapesData == [] then exported == [] else exported == [allShapesData])
      ensures !completed ==> exported == []
      ensures forall k :: 0 <= k < |allShapesData| ==> allShapesData[k].filename in imageFiles
    {
      for i := 0 to |imageFiles|
        invariant Valid() && exported == []
        invariant forall k :: 0 <= k < i ==> openable(imageFiles[k])
        invariant forall k :: 0 <= k < |allShapesData| ==> allShapesData[k].filename in imageFiles[..i]
      {
        if !openable(imageFiles[i]) {
          currentName := imageFiles[i];
          shapesOnCurrentImage := [];
          currentPoints := [];
          return false;
        }
        ghost var before := allShapesData;
        ProcessImage(imageFiles[i], session(imageFiles[i]));
        forall k | 0 <= k < |allShapesData| ensures allShapesData[k].filename in imageFiles[..i + 1] {
          if k < |before| {
            assert allShapesData[k] == before[k];
          }
        }
      }
      ExportResults();
      return true;
    }
  }
}
