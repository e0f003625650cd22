/**
 * The OpenCV stages of the two edge-based segmentation tools, kept abstract.
 * Blur, Canny, threshold, dilation, findContours and approxPolyDP together
 * turn an image and a set of stage settings into a sequence of external
 * contours; each contour is known to the filtering loop only through three
 * measures, all non-negative: the arc length of the raw contour, and the
 * area and arc length of its polygon approximation.
 */
module Contours {
  import opened Kernel

  type NonNeg = r: real | 0.0 <= r

  datatype Candidate = Candidate(rawPerimeter: NonNeg, approxArea: NonNeg, approxPerimeter: NonNeg)

  /**
   * What OpenCV guarantees of the three measures: a contour of length 0 is a
   * single point and so is its approximation, and a polygon of length 0 has
   * no area.
   */
  predicate Consistent(c: Candidate) {
    (c.rawPerimeter == 0.0 ==> c.approxPerimeter == 0.0) && (c.approxPerimeter == 0.0 ==> c.approxArea == 0.0)
  }

  /** The values the OpenCV stages receive, after the tools have normalised them. */
  datatype StageSettings = StageSettings(
    gaussianKernel: int, medianKernel: int,
    cannyLow: int, cannyHigh: int,
    binaryThresh: real, dilationKernel: int, epsilon: real)

  /** GaussianBlur and medianBlur demand odd kernels of at least 3; the dilation kernel is normalised the same way. */
  predicate KernelsValid(s: StageSettings) {
    Odd(s.gaussianKernel) && s.gaussianKernel >= 3
    && Odd(s.medianKernel) && s.medianKernel >= 3
    && Odd(s.dilationKernel) && s.dilationKernel >= 3
  }

  /** A loaded greyscale image, seen through what the stages find in it under given settings. */
  type Image = StageSettings -> seq<Candidate>
}
