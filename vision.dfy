/** The optional value the scripts express with Python's None. */
module Optional {
  datatype Option<+T> = None | Some(value: T)

  /** Widens an integer measurement to a real one. The model holds every
      series value as a real; a lone AM or PM value that Python keeps as an
      int is numerically the same. */
  function Lift(o: Option<int>): (r: Option<real>)
    ensures r.Some? <==> o.Some?
    ensures r.Some? ==> r.value == o.value as real
  {
    match o
    case None => None
    case Some(v) => Some(v as real)
  }
}

/** What the computer-vision library hands the scripts. Loading, colour
    conversion, thresholding, morphology and contour extraction are not
    modelled: their result for one image path is taken as given. */
module Vision {
  /** One external contour, as seen through `cv2.contourArea` (its enclosed
      area) and `cv2.boundingRect` (the top edge `y` and height `h` of its
      bounding box, both non-negative pixel counts). */
  datatype Contour = Contour(area: real, y: nat, h: nat)

  /** The outcome of loading and segmenting the image at one path:
      `cv2.imread` returned None, or the image decoded and yielded these
      contours in the order `cv2.findContours` lists them. */
  datatype Frame = LoadFailed | Loaded(contours: seq<Contour>)
}
