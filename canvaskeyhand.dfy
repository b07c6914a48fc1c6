/** The hand tool of the editor canvas (canvasKeyHand.js): the rule that keeps
    at least 50 px of the image on the canvas, its variant for a layer drawn
    at an offset from the base image, and the keyboard and mouse handlers
    that move the image and start or stop a drag. Coordinates are exact
    numbers; the image is centred on the canvas and then shifted by the
    position offset. */
module CanvasKeyHand {
  import opened Common

  /** A position offset (`{ x, y }`). */
  datatype Point = Point(x: real, y: real)

  /** The part of the image that must always stay inside the canvas, in pixels. */
  const MIN_VISIBLE_EDGE: real := 50.0

  /** The left (or top) edge of the centred image shifted by offset. */
  function LeadingEdge(offset: real, canvasSize: real, imageSize: real): real
  {
    (canvasSize - imageSize) / 2.0 + offset
  }

  /** The right (or bottom) edge of the centred image shifted by offset. */
  function TrailingEdge(offset: real, canvasSize: real, imageSize: real): real
  {
    LeadingEdge(offset, canvasSize, imageSize) + imageSize
  }

  /** The image is visible along one axis: its trailing edge is at least 50 px
      into the canvas and its leading edge at most 50 px before the far side. */
  predicate VisibleAlong(offset: real, canvasSize: real, imageSize: real)
  {
    TrailingEdge(offset, canvasSize, imageSize) >= MIN_VISIBLE_EDGE &&
    LeadingEdge(offset, canvasSize, imageSize) <= canvasSize - MIN_VISIBLE_EDGE
  }

  /** The constraint `constrainImagePosition` applies on each axis: an image
      pushed past the near side is put back with its trailing edge at 50 px,
      one pushed past the far side with its leading edge 50 px before the
      far side, and any other offset is kept. */
  function ConstrainAxis(offset: real, canvasSize: real, imageSize: real): (r: real)
    ensures VisibleAlong(offset, canvasSize, imageSize) ==> r == offset
    ensures TrailingEdge(offset, canvasSize, imageSize) < MIN_VISIBLE_EDGE ==>
      TrailingEdge(r, canvasSize, imageSize) == MIN_VISIBLE_EDGE
    ensures TrailingEdge(offset, canvasSize, imageSize) >= MIN_VISIBLE_EDGE &&
            LeadingEdge(offset, canvasSize, imageSize) > canvasSize - MIN_VISIBLE_EDGE ==>
      LeadingEdge(r, canvasSize, imageSize) == canvasSize - MIN_VISIBLE_EDGE
  {
    var center := (canvasSize - imageSize) / 2.0;
    var left := center + offset;
    var right := left + imageSize;
    if right < MIN_VISIBLE_EDGE then MIN_VISIBLE_EDGE - center - imageSize
    else if left > canvasSize - MIN_VISIBLE_EDGE then canvasSize - MIN_VISIBLE_EDGE - center
    else offset
  }

  /** `constrainImagePosition(newX, newY, canvasWidth, canvasHeight, scaledImageWidth, scaledImageHeight)`. */
  function ConstrainImagePosition(newX: real, newY: real, canvasWidth: real, canvasHeight: real,
                                  scaledImageWidth: real, scaledImageHeight: real): (p: Point)
    ensures VisibleAlong(newX, canvasWidth, scaledImageWidth) ==> p.x == newX
    ensures VisibleAlong(newY, canvasHeight, scaledImageHeight) ==> p.y == newY
  {
    Point(ConstrainAxis(newX, canvasWidth, scaledImageWidth),
          ConstrainAxis(newY, canvasHeight, scaledImageHeight))
  }

  /** The horizontal result depends only on the horizontal inputs and the
      vertical result only on the vertical ones. */
  lemma AxesIndependent(newX: real, newY: real, canvasWidth: real, canvasHeight: real,
                        scaledImageWidth: real, scaledImageHeight: real,
                        otherX: real, otherY: real, otherWidth: real, otherHeight: real,
                        otherImageWidth: real, otherImageHeight: real)
    ensures ConstrainImagePosition(newX, newY, canvasWidth, canvasHeight, scaledImageWidth, scaledImageHeight).x ==
            ConstrainImagePosition(newX, otherY, canvasWidth, otherHeight, scaledImageWidth, otherImageHeight).x
    ensures ConstrainImagePosition(newX, newY, canvasWidth, canvasHeight, scaledImageWidth, scaledImageHeight).y ==
            ConstrainImagePosition(otherX, newY, otherWidth, canvasHeight, otherImageWidth, scaledImageHeight).y
  {
  }

  /** When the canvas and the image together are at least 100 px long along an
      axis, every constrained offset leaves the image visible, and
      constraining again changes nothing. */
  lemma ConstrainAxisVisible(offset: real, canvasSize: real, imageSize: real)
    requires canvasSize + imageSize >= 2.0 * MIN_VISIBLE_EDGE
    ensures VisibleAlong(ConstrainAxis(offset, canvasSize, imageSize), canvasSize, imageSize)
    ensures ConstrainAxis(ConstrainAxis(offset, canvasSize, imageSize), canvasSize, imageSize) ==
            ConstrainAxis(offset, canvasSize, imageSize)
  {
  }

  /** On a canvas and image shorter together than 100 px, an image pushed past
      the near side lands past the far side, so a second constraint moves it again. */
  lemma ConstrainAxisOnTinyCanvas(offset: real, canvasSize: real, imageSize: real)
    requires canvasSize + imageSize < 2.0 * MIN_VISIBLE_EDGE
    requires TrailingEdge(offset, canvasSize, imageSize) < MIN_VISIBLE_EDGE
    ensures !VisibleAlong(ConstrainAxis(offset, canvasSize, imageSize), canvasSize, imageSize)
    ensures ConstrainAxis(ConstrainAxis(offset, canvasSize, imageSize), canvasSize, imageSize) !=
            ConstrainAxis(offset, canvasSize, imageSize)
  {
  }

  /** `constrainLayerPosition`: the same rule applied to the layer's on-screen
      offset `base + new`, with the base offset taken back out of the result. */
  function ConstrainLayerPosition(newX: real, newY: real, canvasWidth: real, canvasHeight: real,
                                  scaledImageWidth: real, scaledImageHeight: real, base: Point): (p: Point)
    ensures p.x + base.x == ConstrainImagePosition(base.x + newX, base.y + newY, canvasWidth, canvasHeight,
                                                   scaledImageWidth, scaledImageHeight).x
    ensures p.y + base.y == ConstrainImagePosition(base.x + newX, base.y + newY, canvasWidth, canvasHeight,
                                                   scaledImageWidth, scaledImageHeight).y
  {
    var centerX := (canvasWidth - scaledImageWidth) / 2.0;
    var centerY := (canvasHeight - scaledImageHeight) / 2.0;
    var imageLeft := centerX + (base.x + newX);
    var imageTop := centerY + (base.y + newY);
    var imageRight := imageLeft + scaledImageWidth;
    var imageBottom := imageTop + scaledImageHeight;
    var x :=
      if imageRight < MIN_VISIBLE_EDGE then MIN_VISIBLE_EDGE - centerX - scaledImageWidth - base.x
      else if imageLeft > canvasWidth - MIN_VISIBLE_EDGE then canvasWidth - MIN_VISIBLE_EDGE - centerX - base.x
      else newX;
    var y :=
      if imageBottom < MIN_VISIBLE_EDGE then MIN_VISIBLE_EDGE - centerY - scaledImageHeight - base.y
      else if imageTop > canvasHeight - MIN_VISIBLE_EDGE then canvasHeight - MIN_VISIBLE_EDGE - centerY - base.y
      else newY;
    Point(x, y)
  }

  /** With the default base offset `{ x: 0, y: 0 }` a layer is constrained exactly like the image. */
  lemma LayerAtOriginIsImage(newX: real, newY: real, canvasWidth: real, canvasHeight: real,
                             scaledImageWidth: real, scaledImageHeight: real)
    ensures ConstrainLayerPosition(newX, newY, canvasWidth, canvasHeight, scaledImageWidth, scaledImageHeight, Point(0.0, 0.0)) ==
            ConstrainImagePosition(newX, newY, canvasWidth, canvasHeight, scaledImageWidth, scaledImageHeight)
  {
  }

  /** The offset an arrow key adds: `dx`, `dy` of `handleKeyDown`, or None for
      any key that is not an arrow. */
  function ArrowShift(key: string, step: real): (d: Option<Point>)
    ensures d.Some? <==> key in ["ArrowLeft", "ArrowRight", "ArrowUp", "ArrowDown"]
    ensures d.Some? ==> (d.value.x == 0.0 || d.value.y == 0.0)
  {
    if key == "ArrowLeft" then Some(Point(-step, 0.0))
    else if key == "ArrowRight" then Some(Point(step, 0.0))
    else if key == "ArrowUp" then Some(Point(0.0, -step))
    else if key == "ArrowDown" then Some(Point(0.0, step))
    else None
  }

  /** The React state the handlers write through `setImagePosition` and `setIsDragging`. */
  class HandTool {
    var position: Point
    var isDragging: bool

    constructor ()
      ensures position == Point(0.0, 0.0) && !isDragging
    {
      position := Point(0.0, 0.0);
      isDragging := false;
    }

    /** `handleMouseDown`: a drag starts only under the hand tool. */
    method HandleMouseDown(toolActive: string)
      modifies this
      ensures isDragging == (toolActive == "hand" || old(isDragging))
      ensures position == old(position)
    {
      if toolActive == "hand" {
        isDragging := true;
      }
    }

    /** `handleMouseUp`: a drag always ends. */
    method HandleMouseUp()
      modifies this
      ensures !isDragging && position == old(position)
    {
      isDragging := false;
    }

    /** `handleKeyDown`: under the hand tool, Space puts the image back in the
        centre and an arrow key moves it by one step along its axis, after
        which the 50 px rule is applied; every other key, and every key under
        another tool, leaves the position alone. */
    method HandleKeyDown(step: real, toolActive: string, imagePosition: Point,
                         canvasWidth: real, canvasHeight: real,
                         scaledImageWidth: real, scaledImageHeight: real, key: string)
      modifies this
      ensures isDragging == old(isDragging)
      ensures toolActive != "hand" ==> position == old(position)
      ensures toolActive == "hand" && key == " " ==> position == Point(0.0, 0.0)
      ensures toolActive == "hand" && key != " " && ArrowShift(key, step).None? ==> position == old(position)
      ensures toolActive == "hand" && ArrowShift(key, step).Some? ==>
        var d := ArrowShift(key, step).value;
        position == ConstrainImagePosition(imagePosition.x + d.x, imagePosition.y + d.y,
                                           canvasWidth, canvasHeight, scaledImageWidth, scaledImageHeight)
    {
      if toolActive == "hand" {
        if key == " " {
          position := Point(0.0, 0.0);
          return;
        }
        var shift := ArrowShift(key, step);
        if shift.None? {
          return;
        }
        position := ConstrainImagePosition(imagePosition.x + shift.value.x, imagePosition.y + shift.value.y,
                                           canvasWidth, canvasHeight, scaledImageWidth, scaledImageHeight);
      }
    }
  }

  /** A keyboard step leaves the image visible whenever the canvas and the
      image together are at least 100 px long on both axes. */
  lemma ArrowKeepsVisible(step: real, key: string, imagePosition: Point, canvasWidth: real, canvasHeight: real,
                          scaledImageWidth: real, scaledImageHeight: real)
    requires ArrowShift(key, step).Some?
    requires canvasWidth + scaledImageWidth >= 2.0 * MIN_VISIBLE_EDGE
    requires canvasHeight + scaledImageHeight >= 2.0 * MIN_VISIBLE_EDGE
    ensures var d := ArrowShift(key, step).value;
      var p := ConstrainImagePosition(imagePosition.x + d.x, imagePosition.y + d.y,
                                      canvasWidth, canvasHeight, scaledImageWidth, scaledImageHeight);
      VisibleAlong(p.x, canvasWidth, scaledImageWidth) && VisibleAlong(p.y, canvasHeight, scaledImageHeight)
  {
    var d := ArrowShift(key, step).value;
    ConstrainAxisVisible(imagePosition.x + d.x, canvasWidth, scaledImageWidth);
    ConstrainAxisVisible(imagePosition.y + d.y, canvasHeight, scaledImageHeight);
  }
}
