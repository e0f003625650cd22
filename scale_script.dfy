/**
 * The script-style pixel calibrator. Its state is module-global: the list of
 * images, the index of the current one, its file name, up to two clicked
 * points, the define flag and the list of results. Clicks are not checked
 * against the image axes, so a point can lack coordinates; and the redraw
 * after a point pair or a save raises when the current image could not be
 * read, which stops a save before the spreadsheet and the next image.
 */
module ScaleScript {
  import opened Wrappers
  import opened Geometry
  import opened FileNames
  import PixelCalibratorTool

  type DistanceRow = PixelCalibratorTool.DistanceRow

  /** The extension tests carry no dot at all. */
  const Extensions: seq<string> := ["png", "jpg", "jpeg", "bmp", "tiff", "tif"]

  /** Why a callback stopped part-way. */
  datatype Failure =
    | NoImage      // update_display on an image cv2 could not read (AttributeError)
    | NoCoordinates // arithmetic on a click that had no data coordinates (TypeError)

  class ScaleSession {
    /** Which images cv2.imread can read, and numpy's square root. */
    const readable: string -> bool
    const sqrt: real -> real
    var imageFiles: seq<string>
    var imageIndex: nat
    var filename: string
    /** A click outside every axes has no data coordinates. */
    var points: seq<Option<Point>>
    var definePointActive: bool
    var distanceResults: seq<DistanceRow>
    /** original_image is not None: the last process_image could read its file. */
    var loaded: bool
    /** The window has been shown, so the callbacks are connected. */
    var windowShown: bool
    var closed: bool
    ghost var excelWrites: seq<seq<DistanceRow>>
    /** The image index each result was recorded at. */
    ghost var savedIndices: seq<nat>

    ghost predicate Valid()
      reads this
    {
      Recorded() && (windowShown && !closed ==> imageIndex < |imageFiles| && filename == imageFiles[imageIndex])
    }

    /** What holds between the index moving on and the next file name being set. */
    ghost predicate Recorded()
      reads this
    {
      |points| <= 2
      && |savedIndices| == |distanceResults|
      && (forall k :: 0 <= k < |savedIndices| ==>
            savedIndices[k] <= imageIndex && savedIndices[k] < |imageFiles|
            && distanceResults[k].filename == imageFiles[savedIndices[k]])
      && (forall j, k :: 0 <= j < k < |savedIndices| ==> savedIndices[j] <= savedIndices[k])
    }

    constructor(readable: string -> bool, sqrt: real -> real)
      ensures Valid() && !windowShown && !closed
      ensures this.readable == readable && this.sqrt == sqrt
      ensures imageIndex == 0 && points == [] && !definePointActive && distanceResults == [] && excelWrites == []
    {
      this.readable := readable;
      this.sqrt := sqrt;
      imageFiles := [];
      imageIndex := 0;
      filename := "";
      points := [];
      definePointActive := false;
      distanceResults := [];
      loaded := false;
      windowShown := false;
      closed := false;
      excelWrites := [];
      savedIndices := [];
    }

    /**
     * process_image: the file name is set first; an unreadable file returns
     * at once, keeping the points, the flag and the index; a readable one
     * clears the points, switches define mode off and shows the window.
     */
    method ProcessImage(name: string)
      requires Recorded() && imageIndex < |imageFiles| && name == imageFiles[imageIndex]
      modifies this
      ensures Valid()
      ensures filename == name && loaded == readable(name)
      ensures !readable(name) ==>
                points == old(points) && definePointActive == old(definePointActive) && windowShown == old(windowShown)
      ensures readable(name) ==> points == [] && !definePointActive && windowShown
      ensures !readable(name) && old(windowShown) ==> windowShown
      ensures imageFiles == old(imageFiles) && imageIndex == old(imageIndex) && closed == old(closed)
      ensures distanceResults == old(distanceResults) && savedIndices == old(savedIndices) && excelWrites == old(excelWrites)
    {
      filename := name;
      loaded := readable(name);
      if !loaded {
        return;
      }
      points := [];
      definePointActive := false;
      windowShown := true;
    }

    /** process_images: the sorted matching names; the first one is processed if there is one. */
    method ProcessImages(listing: seq<string>)
      requires Valid() && !windowShown && !closed && imageIndex == 0 && distanceResults == []
      modifies this
      ensures Valid()
      ensures imageFiles == Sort(FilterEndsWith(listing, Extensions)) && Sorted(imageFiles)
      ensures imageIndex == 0
      ensures windowShown <==> imageFiles != [] && readable(imageFiles[0])
    {
      imageFiles := Sort(FilterEndsWith(listing, Extensions));
      if imageFiles != [] {
        ProcessImage(imageFiles[0]);
      }
    }

    /** load_next_image: the index moves on before it is compared with the length. */
    method LoadNextImage()
      requires Valid() && windowShown && !closed
      modifies this
      ensures Valid() && windowShown
      ensures imageIndex == old(imageIndex) + 1
      ensures closed <==> imageIndex >= |imageFiles|
      ensures !closed ==> filename == imageFiles[imageIndex] && loaded == readable(filename)
      ensures !closed && readable(filename) ==> points == [] && !definePointActive
      ensures closed || !readable(filename) ==> points == old(points) && definePointActive == old(definePointActive)
      ensures imageFiles == old(imageFiles) && distanceResults == old(distanceResults)
      ensures savedIndices == old(savedIndices) && excelWrites == old(excelWrites)
    {
      imageIndex := imageIndex + 1;
      if imageIndex < |imageFiles| {
        ProcessImage(imageFiles[imageIndex]);
      } else {
        closed := true;
      }
    }

    /**
     * select_points: a point (with or without coordinates) is added in define
     * mode while fewer than two are set; once two are set the redraw fails on
     * an unreadable image or a point without coordinates.
     */
    method SelectPoints(p: Option<Point>) returns (outcome: Outcome<Failure>)
      requires Valid() && windowShown && !closed
      modifies this
      ensures Valid() && windowShown && !closed
      ensures definePointActive && |old(points)| < 2 ==> points == old(points) + [p]
      ensures !(definePointActive && |old(points)| < 2) ==> points == old(points)
      ensures outcome.Raised? <==> |points| == 2 && (!loaded || None in points)
      ensures imageIndex == old(imageIndex) && filename == old(filename) && definePointActive == old(definePointActive)
      ensures loaded == old(loaded) && imageFiles == old(imageFiles)
      ensures distanceResults == old(distanceResults) && savedIndices == old(savedIndices) && excelWrites == old(excelWrites)
    {
      if definePointActive && |points| < 2 {
        points := points + [p];
      }
      outcome := Handled;
      if |points| == 2 {
        if !loaded {
          outcome := Raised(NoImage);
        } else if None in points {
          outcome := Raised(NoCoordinates);
        }
      }
    }

    /** save_to_excel: the whole list, unless it is empty. */
    method SaveToExcel()
      modifies this
      ensures distanceResults != [] ==> excelWrites == old(excelWrites) + [distanceResults]
      ensures distanceResults == [] ==> excelWrites == old(excelWrites)
      ensures imageFiles == old(imageFiles) && imageIndex == old(imageIndex) && filename == old(filename)
      ensures points == old(points) && definePointActive == old(definePointActive) && distanceResults == old(distanceResults)
      ensures loaded == old(loaded) && windowShown == old(windowShown) && closed == old(closed)
      ensures savedIndices == old(savedIndices)
    {
      if distanceResults != [] {
        excelWrites := excelWrites + [distanceResults];
      }
    }

    /**
     * save_point: with two points that both have coordinates, the distance is
     * recorded under the current file name and the points are cleared. The
     * redraw then fails if that file could not be read, and the spreadsheet
     * and the next image are never reached.
     */
    method SavePoint() returns (outcome: Outcome<Failure>)
      requires Valid() && windowShown && !closed
      modifies this
      ensures Valid() && windowShown && imageFiles == old(imageFiles)
      ensures |old(points)| != 2 || None in old(points) ==>
                points == old(points) && imageIndex == old(imageIndex) && filename == old(filename) && !closed
                && definePointActive == old(definePointActive) && loaded == old(loaded)
                && distanceResults == old(distanceResults) && savedIndices == old(savedIndices)
                && excelWrites == old(excelWrites)
      ensures |old(points)| != 2 ==> outcome == Handled
      ensures |old(points)| == 2 && None in old(points) ==> outcome == Raised(NoCoordinates)
      ensures |old(points)| == 2 && None !in old(points) ==>
                distanceResults == old(distanceResults)
                  + [PixelCalibratorTool.DistanceRow(old(filename), Distance(sqrt, old(points)[0].value, old(points)[1].value))]
                && savedIndices == old(savedIndices) + [old(imageIndex)]
                && points == []
                && (if old(loaded) then
                      outcome == Handled && excelWrites == old(excelWrites) + [distanceResults]
                      && imageIndex == old(imageIndex) + 1
                      && (closed <==> imageIndex >= |imageFiles|)
                      && (!closed ==> filename == imageFiles[imageIndex] && loaded == readable(filename))
                      && (if !closed && readable(filename) then !definePointActive
                          else definePointActive == old(definePointActive))
                    else
                      outcome == Raised(NoImage) && excelWrites == old(excelWrites)
                      && imageIndex == old(imageIndex) && filename == old(filename) && !closed
                      && definePointActive == old(definePointActive) && !loaded)
    {
      outcome := Handled;
      if |points| != 2 {
        return;
      }
      if None in points {
        return Raised(NoCoordinates);
      }
      var pt1, pt2 := points[0].value, points[1].value;
      var distance := Distance(sqrt, pt1, pt2);
      distanceResults := distanceResults + [PixelCalibratorTool.DistanceRow(filename, distance)];
      savedIndices := savedIndices + [imageIndex];
      points := [];
      if !loaded {
        return Raised(NoImage);
      }
      SaveToExcel();
      LoadNextImage();
    }

    /** set_define_point_active, behind the "Define points" button. */
    method SetDefinePointActive(state: bool)
      requires Valid() && windowShown && !closed
      modifies this
      ensures Valid() && windowShown && !closed
      ensures definePointActive == state
      ensures imageIndex == old(imageIndex) && filename == old(filename) && points == old(points) && loaded == old(loaded)
      ensures distanceResults == old(distanceResults) && savedIndices == old(savedIndices) && excelWrites == old(excelWrites)
    {
      definePointActive := state;
    }
  }

  /**
   * Once a save has moved the session onto an unreadable image, it stays
   * there: a second complete save adds another row for the same file and
   * neither writes the spreadsheet nor moves on.
   */
  method StallAfterUnreadable(s: ScaleSession, p: Point, q: Point) returns (rows: nat)
    requires s.Valid() && s.windowShown && !s.closed && !s.loaded && s.points == []
    modifies s
    ensures s.imageIndex == old(s.imageIndex) && s.filename == old(s.filename) && !s.closed
    ensures s.excelWrites == old(s.excelWrites)
    ensures |s.distanceResults| == |old(s.distanceResults)| + 1
    ensures s.distanceResults[|s.distanceResults| - 1].filename == old(s.filename)
  {
    s.SetDefinePointActive(true);
    var _ := s.SelectPoints(Some(p));
    var _ := s.SelectPoints(Some(q));
    var _ := s.SavePoint();
    rows := |s.distanceResults|;
  }
}
