/** The element selector of the experiment wizard: the operator presses and
    releases the mouse on a screenshot shown at display size, the two points
    become a rectangle in the screenshot's own pixels, and named rectangles
    are collected in a table whose entries are drawn back as overlays. */
module GuiCoordinates {
  import opened ElementTable
  import JsText

  /** A `[width, height]` pair: a resolution in pixels. */
  datatype Extent = Extent(width: int, height: int)

  predicate Positive(e: Extent) {
    e.width > 0 && e.height > 0
  }

  predicate NonNegative(e: Extent) {
    e.width >= 0 && e.height >= 0
  }

  datatype Point = Point(x: int, y: int)

  /** Top-left `(x1, y1)` and bottom-right `(x2, y2)` corners. */
  datatype Rect = Rect(x1: int, y1: int, x2: int, y2: int)

  predicate Ordered(r: Rect) {
    r.x1 <= r.x2 && r.y1 <= r.y2
  }

  predicate InFirstQuadrant(r: Rect) {
    r.x1 >= 0 && r.y1 >= 0 && r.x2 >= 0 && r.y2 >= 0
  }

  /** One element of the table: its rectangle, the image resolution and a colour. */
  datatype Coordinates = Coordinates(x1: int, y1: int, x2: int, y2: int,
                                     resolutionImg: Extent, randomColor: string)
  {
    function Corners(): Rect {
      Rect(x1, y1, x2, y2)
    }
  }

  const InitialCoordinates := Coordinates(0, 0, 0, 0, Extent(0, 0), "")

  // ---------------------------------------------------------------- rounding

  /** `Math.round(p / q)` for `q > 0` on exact rationals: the integer nearest
      to `p / q`, a half rounded towards plus infinity. */
  function RoundQuotient(p: int, q: int): (r: int)
    requires q > 0
    ensures 2 * q * r - q <= 2 * p < 2 * q * r + q
  {
    (2 * p + q) / (2 * q)
  }

  lemma MulLe(a: int, b: int, c: int)
    requires a >= 0 && b <= c
    ensures a * b <= a * c
  {
    assert a * c - a * b == a * (c - b);
  }

  /** A step of one in a factor is a step of `a` in the product. */
  lemma MulStep(a: int, b: int, c: int)
    requires a >= 0 && b < c
    ensures a * b + a <= a * c
  {
    MulLe(a, b + 1, c);
    assert a * (b + 1) == a * b + a;
  }

  /** The characterisation in RoundQuotient's contract has one solution. */
  lemma RoundQuotientUnique(p: int, q: int, r: int)
    requires q > 0
    requires 2 * q * r - q <= 2 * p < 2 * q * r + q
    ensures r == RoundQuotient(p, q)
  {
    var s := RoundQuotient(p, q);
    if r < s {
      MulStep(2 * q, r, s);
    } else if r > s {
      MulStep(2 * q, s, r);
    }
  }

  /** Rounding a larger quotient never gives a smaller integer. */
  lemma RoundQuotientMonotone(p1: int, p2: int, q: int)
    requires q > 0 && p1 <= p2
    ensures RoundQuotient(p1, q) <= RoundQuotient(p2, q)
  {
    var r1, r2 := RoundQuotient(p1, q), RoundQuotient(p2, q);
    if r1 > r2 {
      MulStep(2 * q, r2, r1);
    }
  }

  // ---------------------------------------------------------------- scaling

  /** `resizeRect(x, to, from) = Math.round(to * x / from)`: a coordinate on
      an axis `from` pixels long moved onto an axis `to` pixels long. The
      component uses it both ways: display to image when a rectangle is
      captured, image to display when an overlay is drawn. */
  function ResizeRect(x: int, to: int, from: int): (r: int)
    requires from > 0
    ensures 2 * from * r - from <= 2 * (to * x) < 2 * from * r + from
  {
    RoundQuotient(to * x, from)
  }

  /** Same length on both axes: nothing moves. */
  lemma ResizeRectIdentity(x: int, extent: int)
    requires extent > 0
    ensures ResizeRect(x, extent, extent) == x
  {
    assert 2 * extent * x - extent <= 2 * (extent * x) < 2 * extent * x + extent;
    RoundQuotientUnique(extent * x, extent, x);
  }

  /** Rescaling keeps the order of coordinates. */
  lemma ResizeRectMonotone(x1: int, x2: int, to: int, from: int)
    requires from > 0 && to >= 0 && x1 <= x2
    ensures ResizeRect(x1, to, from) <= ResizeRect(x2, to, from)
  {
    MulLe(to, x1, x2);
    RoundQuotientMonotone(to * x1, to * x2, from);
  }

  /** Rescaling keeps coordinates non-negative. */
  lemma ResizeRectNonNegative(x: int, to: int, from: int)
    requires from > 0 && to >= 0 && x >= 0
    ensures ResizeRect(x, to, from) >= 0
  {
    ResizeRectMonotone(0, x, to, from);
    assert ResizeRect(0, to, from) == 0;
  }

  /** A coordinate on the shorter of two axes, taken to the longer one and
      back, lands on the same pixel. */
  lemma ResizeRectRoundTrip(x: int, short: int, long: int)
    requires 0 < short <= long
    ensures ResizeRect(ResizeRect(x, long, short), short, long) == x
  {
    var r := ResizeRect(x, long, short);
    var p, d := long * x, short * r;
    assert 2 * short * r == 2 * d && 2 * long * x == 2 * p;
    if short == long {
      ResizeRectIdentity(x, short);
    }
    RoundTripBounds(p, d, short, long);
    assert 2 * long * x - long <= 2 * (short * r) < 2 * long * x + long;
    RoundQuotientUnique(short * r, long, x);
  }

  /** An image pixel drawn on the display (as by the overlays) and read back
      (as on capture) is the same image pixel, when the display is at least
      as large as the image. */
  lemma ReferenceRoundTrip(p: int, image: int, display: int)
    requires 0 < image <= display
    ensures ResizeRect(ResizeRect(p, display, image), image, display) == p
  {
    ResizeRectRoundTrip(p, image, display);
  }

  /** The linear core of the round trip, products taken as given numbers. */
  lemma RoundTripBounds(p: int, d: int, display: int, image: int)
    requires 0 < display <= image
    requires 2 * d - display <= 2 * p < 2 * d + display
    requires display == image ==> d == p
    ensures 2 * p - image <= 2 * d < 2 * p + image
  {
  }

  /** What ToReference and Overlay need of one axis holding coordinates `a` and `b`. */
  lemma AxisFacts(a: int, b: int, to: int, from: int)
    requires from > 0
    ensures to >= 0 && a <= b ==> ResizeRect(a, to, from) <= ResizeRect(b, to, from)
    ensures to >= 0 && a >= 0 ==> ResizeRect(a, to, from) >= 0
    ensures to >= 0 && b >= 0 ==> ResizeRect(b, to, from) >= 0
    ensures to == from ==> ResizeRect(a, to, from) == a && ResizeRect(b, to, from) == b
  {
    if to >= 0 && a <= b {
      ResizeRectMonotone(a, b, to, from);
    }
    if to >= 0 && a >= 0 {
      ResizeRectNonNegative(a, to, from);
    }
    if to >= 0 && b >= 0 {
      ResizeRectNonNegative(b, to, from);
    }
    if to == from {
      ResizeRectIdentity(a, from);
      ResizeRectIdentity(b, from);
    }
  }

  /** When the display is smaller than the image the way back can be off by
      more than one pixel: an image 1000 pixels wide shown 100 pixels wide
      draws image pixel 4 at display pixel 0, which reads back as 0. */
  lemma ReferenceRoundTripLoss()
    ensures ResizeRect(ResizeRect(4, 100, 1000), 1000, 100) == 0
  {
  }

  // ---------------------------------------------------------------- gesture

  /** handleMouseEnter: a negative offset becomes 1; zero and above are kept. */
  function PressOffset(offset: int): (r: int)
    ensures r >= 0
    ensures offset >= 0 ==> r == offset
    ensures offset < 0 ==> r == 1
  {
    if offset >= 0 then offset else 1
  }

  /** handleMouseLeave: an offset of zero or less becomes 1; positive ones are kept. */
  function ReleaseOffset(offset: int): (r: int)
    ensures r >= 1
    ensures offset >= 1 ==> r == offset
    ensures offset <= 0 ==> r == 1
  {
    if offset > 0 then offset else 1
  }

  /** The four comparisons of handleMouseLeave: the anchor and the release
      point become the top-left and bottom-right corners, for any direction
      of the drag. */
  function Normalize(anchor: Point, release: Point): (r: Rect)
    ensures Ordered(r)
    ensures multiset{r.x1, r.x2} == multiset{anchor.x, release.x}
    ensures multiset{r.y1, r.y2} == multiset{anchor.y, release.y}
  {
    var x1 := if anchor.x <= release.x then anchor.x else release.x;
    var y1 := if anchor.y <= release.y then anchor.y else release.y;
    var x2 := if anchor.x > release.x then anchor.x else release.x;
    var y2 := if anchor.y > release.y then anchor.y else release.y;
    Rect(x1, y1, x2, y2)
  }

  /** Dragging from `a` to `b` and from `b` to `a` select the same rectangle. */
  lemma NormalizeSymmetric(a: Point, b: Point)
    ensures Normalize(a, b) == Normalize(b, a)
  {
  }

  /** setCoordenatesByResolution: each corner moved from display pixels to
      image pixels on its own axis. */
  function ToReference(r: Rect, image: Extent, display: Extent): (s: Rect)
    requires Positive(display)
    ensures NonNegative(image) && Ordered(r) ==> Ordered(s)
    ensures NonNegative(image) && InFirstQuadrant(r) ==> InFirstQuadrant(s)
    ensures image == display ==> s == r
  {
    var s := Rect(ResizeRect(r.x1, image.width, display.width),
                  ResizeRect(r.y1, image.height, display.height),
                  ResizeRect(r.x2, image.width, display.width),
                  ResizeRect(r.y2, image.height, display.height));
    AxisFacts(r.x1, r.x2, image.width, display.width);
    AxisFacts(r.y1, r.y2, image.height, display.height);
    s
  }

  /** The rectangle a release at `offset` commits, given the anchor left by
      the press: clamp, normalise, rescale to image pixels. */
  function CaptureRect(anchor: Point, offset: Point, image: Extent, display: Extent): (r: Rect)
    requires Positive(display)
    ensures anchor.x >= 0 && anchor.y >= 0 && NonNegative(image) ==> Ordered(r) && InFirstQuadrant(r)
  {
    ToReference(Normalize(anchor, Point(ReleaseOffset(offset.x), ReleaseOffset(offset.y))), image, display)
  }

  /** An 800x600 screenshot shown at 400x300: pressing at (100,150) and
      releasing at (50,50) selects (100,100)-(200,300) in image pixels. */
  lemma CaptureExample()
    ensures CaptureRect(Point(100, 150), Point(50, 50), Extent(800, 600), Extent(400, 300))
         == Rect(100, 100, 200, 300)
  {
  }

  // ---------------------------------------------------------------- overlays

  /** Placement of an overlay box in display pixels. */
  datatype Box = Box(left: int, top: int, width: int, height: int)

  /** An element's overlay: both corners through resizeRect from image to
      display pixels, width and height as their differences. */
  function Overlay(r: Rect, display: Extent, image: Extent): (b: Box)
    requires Positive(image)
    ensures NonNegative(display) && Ordered(r) ==> b.width >= 0 && b.height >= 0
    ensures display == image ==> b == Box(r.x1, r.y1, r.x2 - r.x1, r.y2 - r.y1)
  {
    var left := ResizeRect(r.x1, display.width, image.width);
    var top := ResizeRect(r.y1, display.height, image.height);
    var right := ResizeRect(r.x2, display.width, image.width);
    var bottom := ResizeRect(r.y2, display.height, image.height);
    AxisFacts(r.x1, r.x2, display.width, image.width);
    AxisFacts(r.y1, r.y2, display.height, image.height);
    Box(left, top, right - left, bottom - top)
  }

  // ---------------------------------------------------------------- component state

  /** The `list` object literal handleMouseLeave builds and
      setCoordenatesByResolution rescales field by field. */
  class DragRect {
    var x1: int
    var y1: int
    var x2: int
    var y2: int

    constructor (r: Rect)
      ensures Value() == r
    {
      x1, y1, x2, y2 := r.x1, r.y1, r.x2, r.y2;
    }

    function Value(): Rect
      reads this
    {
      Rect(x1, y1, x2, y2)
    }
  }

  /** State of the element selector: the coordinates being edited, the table
      of named elements, and the display and image resolutions. */
  class CoordinatePicker {
    var coordinates: Coordinates
    var elements: Table<Coordinates>
    var resolutionBrw: Extent
    var resolutionImg: Extent

    /** The table is well formed, the anchor left by a press is never
        negative, and image sizes are sizes. */
    ghost predicate Valid()
      reads this
    {
      && elements.Valid()
      && coordinates.x1 >= 0 && coordinates.y1 >= 0
      && NonNegative(coordinates.resolutionImg)
    }

    constructor ()
      ensures Valid()
      ensures coordinates == InitialCoordinates && elements == Empty()
      ensures resolutionBrw == Extent(0, 0) && resolutionImg == Extent(0, 0)
    {
      coordinates := InitialCoordinates;
      elements := Empty();
      resolutionBrw := Extent(0, 0);
      resolutionImg := Extent(0, 0);
    }

    /** getResolution, on the image's load: the display size of the element,
        and the size a fresh `Image` reports before its own load completes. */
    method OnImageLoad(display: Extent, sizeNow: Extent)
      modifies this
      ensures resolutionBrw == display && resolutionImg == sizeNow
      ensures coordinates == old(coordinates) && elements == old(elements)
    {
      resolutionBrw := display;
      resolutionImg := sizeNow;
    }

    /** The fresh `Image`'s onload: its natural size becomes the image
        resolution of the coordinates being edited. */
    method OnNaturalSize(natural: Extent)
      requires Valid() && NonNegative(natural)
      modifies this`coordinates
      ensures Valid()
      ensures coordinates == old(coordinates).(resolutionImg := natural)
    {
      coordinates := coordinates.(resolutionImg := natural);
    }

    /** window.onresize: the new display size of the image element. */
    method OnResize(display: Extent)
      modifies this`resolutionBrw
      ensures resolutionBrw == display
    {
      resolutionBrw := display;
    }

    /** handleMouseEnter (mouse down): the clamped offset becomes the anchor. */
    method HandleMouseDown(offsetX: int, offsetY: int)
      requires Valid()
      modifies this`coordinates
      ensures Valid()
      ensures coordinates == old(coordinates).(x1 := PressOffset(offsetX), y1 := PressOffset(offsetY))
    {
      var x := PressOffset(offsetX);
      var y := PressOffset(offsetY);
      coordinates := coordinates.(x1 := x, y1 := y);
    }

    /** handleMouseLeave (mouse up): clamp the release offset, normalise it
        with the anchor, and store the rescaled rectangle and a new colour. */
    method HandleMouseUp(offsetX: int, offsetY: int, randomColor: string)
      requires Valid() && Positive(resolutionBrw)
      modifies this`coordinates
      ensures Valid()
      ensures coordinates.Corners()
           == CaptureRect(Point(old(coordinates.x1), old(coordinates.y1)), Point(offsetX, offsetY),
                          old(coordinates.resolutionImg), resolutionBrw)
      ensures Ordered(coordinates.Corners())
      ensures coordinates.resolutionImg == old(coordinates.resolutionImg)
      ensures coordinates.randomColor == randomColor
    {
      var tx := ReleaseOffset(offsetX);
      var ty := ReleaseOffset(offsetY);
      var list := new DragRect(Normalize(Point(coordinates.x1, coordinates.y1), Point(tx, ty)));
      SetCoordinatesByResolution(list, randomColor);
    }

    /** setCoordenatesByResolution: rescales the fields of `list` in place
        from display to image pixels (the guard compares two distinct arrays,
        so it always holds), then copies them and the colour into the
        coordinates; the image resolution is kept. */
    method SetCoordinatesByResolution(list: DragRect, randomColor: string)
      requires Positive(resolutionBrw)
      modifies this`coordinates, list
      ensures list.Value() == ToReference(old(list.Value()), old(coordinates.resolutionImg), resolutionBrw)
      ensures coordinates == old(coordinates).(x1 := list.x1, y1 := list.y1, x2 := list.x2, y2 := list.y2,
                                               randomColor := randomColor)
    {
      var resImg := coordinates.resolutionImg;
      list.x1 := ResizeRect(list.x1, resImg.width, resolutionBrw.width);
      list.y1 := ResizeRect(list.y1, resImg.height, resolutionBrw.height);
      list.x2 := ResizeRect(list.x2, resImg.width, resolutionBrw.width);
      list.y2 := ResizeRect(list.y2, resImg.height, resolutionBrw.height);
      coordinates := coordinates.(x1 := list.x1, y1 := list.y1, x2 := list.x2, y2 := list.y2,
                                  randomColor := randomColor);
    }

    /** addElementToTable: the current coordinates under the trimmed name;
        an element already under that name is replaced. */
    method AddElementToTable(inputValue: string)
      requires Valid()
      modifies this`elements
      ensures Valid() && coordinates == old(coordinates)
      ensures elements == Put(old(elements), JsText.Trim(inputValue), old(coordinates))
    {
      var name := JsText.Trim(inputValue);
      var updated := Put(elements, name, coordinates);
      assert updated.Valid();
      elements := updated;
    }

    /** removeElement: deletes the one entry under `key`. */
    method RemoveElement(key: string)
      requires Valid()
      modifies this`elements
      ensures Valid()
      ensures elements == Delete(old(elements), key)
    {
      elements := Delete(elements, key);
    }

    /** The overlay drawn for the element stored under `key`. */
    function ElementOverlay(key: string): (b: Box)
      reads this
      requires key in elements.entries && Positive(resolutionImg)
      ensures NonNegative(resolutionBrw) && Ordered(elements.entries[key].Corners())
              ==> b.width >= 0 && b.height >= 0
    {
      Overlay(elements.entries[key].Corners(), resolutionBrw, resolutionImg)
    }
  }
}
