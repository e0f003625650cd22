/**
 * The script-style polygon tool: images shown at a quarter of their size,
 * left clicks add vertices, a right click closes the polygon and records its
 * display-scale perimeter, area and pore factor. The records stay in one
 * list across images, and the spreadsheet is rewritten after every shape and
 * once more at the end.
 */
module DrawScript {
  import opened Wrappers
  import opened Geometry
  import opened FileNames

  datatype ShapeRecord = ShapeRecord(filename: string, perimeter: real, area: real, poreFactor: real)

  /** What closing a ring can raise in shapely or in the pore-factor division. */
  datatype ShapeError = RingTooShort | ZeroArea

  /**
   * The record of a closed ring: shapely refuses a ring of fewer than four
   * coordinates (ValueError), and a ring of zero area makes the pore factor
   * divide by zero (ZeroDivisionError).
   */
  function ShapeOf(filename: string, sqrt: real -> real, ring: seq<Point>): (r: Result<ShapeRecord, ShapeError>)
    ensures r == Err(RingTooShort) <==> |ring| < 4
    ensures r == Err(ZeroArea) <==> |ring| >= 4 && PolygonArea(ring) == 0.0
    ensures r.Ok? ==> r.value.filename == filename && r.value.area > 0.0
                      && r.value.perimeter == PolygonLength(sqrt, ring) && r.value.area == PolygonArea(ring)
                      && r.value.poreFactor == PoreFactor(r.value.perimeter, r.value.area) && r.value.poreFactor >= 0.0
  {
    if |ring| < 4 then Err(RingTooShort)
    else
      var perimeter := PolygonLength(sqrt, ring);
      var area := PolygonArea(ring);
      if area == 0.0 then Err(ZeroArea)
      else Ok(ShapeRecord(filename, perimeter, area, PoreFactor(perimeter, area)))
  }

  /**
   * The coordinates are those of the quarter-size display, used as they are:
   * a pore factor is the same at both scales, a perimeter and an area are not.
   */
  lemma DisplayScalePoreFactor(fullPerimeter: real, fullArea: real)
    requires fullArea != 0.0
    ensures PoreFactor(fullPerimeter * 0.25, fullArea * 0.0625) == PoreFactor(fullPerimeter, fullArea)
    ensures fullArea * 0.0625 != fullArea
  {
    PoreFactorQuarterScale(fullPerimeter, fullArea);
  }

  const Extensions: seq<string> := [".png", ".jpg", ".jpeg"]

  /** The images of a listing, in listing order; an empty result is not an error here. */
  function ImageFiles(listing: seq<string>): (files: seq<string>)
    ensures forall x :: x in files <==> x in listing && EndsWithAny(Lower(x), Extensions)
    ensures |files| <= |listing|
  {
    FilterEndsWith(listing, Extensions)
  }

  datatype ClickEvent = ClickEvent(button: int, at: Point)

  class DrawSession {
    /** The square root that shapely's length uses. */
    const sqrt: real -> real
    var points: seq<Point>
    var drawing: bool
    var shapesData: seq<ShapeRecord>
    var currentImageFilename: string
    /** Every spreadsheet written, in order, and the annotated images saved. */
    ghost var excelWrites: seq<seq<ShapeRecord>>
    ghost var imagesSaved: seq<string>

    constructor(sqrt: real -> real)
      ensures this.sqrt == sqrt && points == [] && !drawing && shapesData == []
      ensures excelWrites == [] && imagesSaved == []
    {
      this.sqrt := sqrt;
      points := [];
      drawing := false;
      shapesData := [];
      currentImageFilename := "";
      excelWrites := [];
      imagesSaved := [];
    }

    /**
     * on_click. A left click starts a new polygon when none is being drawn,
     * then adds the vertex. A right click while drawing with at least two
     * vertices repeats the first vertex and records the shape; if shapely or
     * the division raises, the vertex has been repeated but nothing else
     * happened and drawing goes on.
     */
    method OnClick(e: ClickEvent) returns (outcome: Outcome<ShapeError>)
      modifies this
      ensures currentImageFilename == old(currentImageFilename)
      ensures e.button == 1 ==>
                outcome == Handled && drawing
                && points == (if old(drawing) then old(points) else []) + [e.at]
                && shapesData == old(shapesData) && excelWrites == old(excelWrites) && imagesSaved == old(imagesSaved)
      ensures e.button == 3 && old(drawing) && |old(points)| > 1 ==>
                points == old(points) + [old(points)[0]]
                && match ShapeOf(currentImageFilename, sqrt, points)
                   case Ok(rec) =>
                     outcome == Handled && !drawing && shapesData == old(shapesData) + [rec]
                     && excelWrites == old(excelWrites) + [shapesData]
                     && imagesSaved == old(imagesSaved) + [currentImageFilename]
                   case Err(err) =>
                     outcome == Raised(err) && drawing && shapesData == old(shapesData)
                     && excelWrites == old(excelWrites) && imagesSaved == old(imagesSaved)
      ensures e.button != 1 && !(e.button == 3 && old(drawing) && |old(points)| > 1) ==>
                outcome == Handled && points == old(points) && drawing == old(drawing)
                && shapesData == old(shapesData) && excelWrites == old(excelWrites) && imagesSaved == old(imagesSaved)
    {
      outcome := Handled;
      if e.button == 1 {
        if !drawing {
          points := [];
          drawing := true;
        }
        points := points + [e.at];
      } else if e.button == 3 && drawing {
        if |points| > 1 {
          points := points + [points[0]];
          var shape := ShapeOf(currentImageFilename, sqrt, points);
          if shape.Err? {
            outcome := Raised(shape.error);
            return;
          }
          shapesData := shapesData + [shape.value];
          imagesSaved := imagesSaved + [currentImageFilename];
          excelWrites := excelWrites + [shapesData];
          drawing := false;
        }
      }
    }

    /** draw_on_image: only the file name changes; the points and the drawing flag carry over. */
    method DrawOnImage(name: string, clicks: seq<ClickEvent>)
      modifies this
      ensures currentImageFilename == name
      ensures |shapesData| >= |old(shapesData)| && shapesData[..|old(shapesData)|] == old(shapesData)
      ensures |excelWrites| >= |old(excelWrites)| && excelWrites[..|old(excelWrites)|] == old(excelWrites)
      ensures clicks == [] ==> points == old(points) && drawing == old(drawing) && shapesData == old(shapesData)
    {
      currentImageFilename := name;
      for i := 0 to |clicks|
        invariant currentImageFilename == name
        invariant |shapesData| >= |old(shapesData)| && shapesData[..|old(shapesData)|] == old(shapesData)
        invariant |excelWrites| >= |old(excelWrites)| && excelWrites[..|old(excelWrites)|] == old(excelWrites)
        invariant i == 0 ==> points == old(points) && drawing == old(drawing) && shapesData == old(shapesData)
      {
        ghost var shapesBefore, writesBefore := shapesData, excelWrites;
        var _ := OnClick(clicks[i]);
        assert shapesData[..|shapesBefore|] == shapesBefore;
        assert excelWrites[..|writesBefore|] == writesBefore;
      }
    }

    /** export_to_excel: the whole list is written, even when it is empty. */
    method ExportToExcel()
      modifies this
      ensures excelWrites == old(excelWrites) + [shapesData]
      ensures shapesData == old(shapesData) && points == old(points) && drawing == old(drawing)
      ensures imagesSaved == old(imagesSaved) && currentImageFilename == old(currentImageFilename)
    {
      excelWrites := excelWrites + [shapesData];
    }

    /**
     * read_images_from_directory followed by the final export. An image PIL
     * cannot open raises out of the script before the export.
     */
    method Run(listing: seq<string>, openable: string -> bool, session: string -> seq<ClickEvent>) returns (completed: bool)
      modifies this
      ensures completed <==> forall x :: x in ImageFiles(listing) ==> openable(x)
      ensures completed ==> |excelWrites| > |old(excelWrites)| && excelWrites[|excelWrites| - 1] == shapesData
      ensures |shapesData| >= |old(shapesData)| && shapesData[..|old(shapesData)|] == old(shapesData)
    {
      var imageFiles := ImageFiles(listing);
      for i := 0 to |imageFiles|
        invariant forall k :: 0 <= k < i ==> openable(imageFiles[k])
        invariant |shapesData| >= |old(shapesData)| && shapesData[..|old(shapesData)|] == old(shapesData)
        invariant |excelWrites| >= |old(excelWrites)|
      {
        if !openable(imageFiles[i]) {
          return false;
        }
        ghost var before := shapesData;
        DrawOnImage(imageFiles[i], session(imageFiles[i]));
        assert shapesData[..|old(shapesData)|] == before[..|old(shapesData)|];
      }
      ExportToExcel();
      return true;
    }
  }
}
