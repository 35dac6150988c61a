/** Scale clamping, minimum scale and pan boundaries (src/utils/whiteboardUtils.ts). */
module WhiteboardUtils {
  import opened Constants
  import opened WhiteboardTypes

  /** `Math.min` and `Math.max` on two numbers. */
  function Min(a: real, b: real): real { if a <= b then a else b }
  function Max(a: real, b: real): real { if a >= b then a else b }

  /**
   * `clampScale`: `Math.min(Math.max(scale, minScale), maxScale)`. The upper
   * bound wins when the bounds cross, because `Math.min` is applied last.
   */
  function ClampScale(scale: real, minScale: real, maxScale: real): (r: real)
    ensures minScale <= maxScale ==> minScale <= r <= maxScale
    ensures minScale <= scale <= maxScale ==> r == scale
    ensures scale < minScale <= maxScale ==> r == minScale
    ensures maxScale < scale ==> r == maxScale
    ensures minScale > maxScale ==> r == maxScale
  {
    Min(Max(scale, minScale), maxScale)
  }

  /** Clamping an already clamped scale changes nothing. */
  lemma ClampScaleIdempotent(scale: real, minScale: real, maxScale: real)
    ensures ClampScale(ClampScale(scale, minScale, maxScale), minScale, maxScale)
            == ClampScale(scale, minScale, maxScale)
  {
  }

  /** `calculateMinimumScale`: the larger of the two viewport-to-window ratios. */
  function MinimumScale(viewportWidth: real, viewportHeight: real): (r: real)
    ensures r >= viewportWidth / WindowWidth && r >= viewportHeight / WindowHeight
    ensures r == viewportWidth / WindowWidth || r == viewportHeight / WindowHeight
  {
    Max(viewportWidth / WindowWidth, viewportHeight / WindowHeight)
  }

  datatype Bounds = Bounds(minX: real, maxX: real, minY: real, maxY: real)

  /**
   * `calculateBoundaries`: how far the scaled window may be panned on each
   * axis, half the overhang of the scaled window past the viewport.
   */
  function Boundaries(scale: real, viewportWidth: real, viewportHeight: real): (b: Bounds)
    ensures b.minX == -b.maxX && b.minY == -b.maxY
    ensures b.maxX >= 0.0 && b.maxY >= 0.0
    ensures b.maxX == 0.0 <==> WindowWidth * scale <= viewportWidth
    ensures b.maxY == 0.0 <==> WindowHeight * scale <= viewportHeight
    ensures b.maxX > 0.0 ==> 2.0 * b.maxX == WindowWidth * scale - viewportWidth
    ensures b.maxY > 0.0 ==> 2.0 * b.maxY == WindowHeight * scale - viewportHeight
  {
    var scaledWidth := WindowWidth * scale;
    var scaledHeight := WindowHeight * scale;
    var maxOffsetX := Max(0.0, (scaledWidth - viewportWidth) / 2.0);
    var maxOffsetY := Max(0.0, (scaledHeight - viewportHeight) / 2.0);
    Bounds(-maxOffsetX, maxOffsetX, -maxOffsetY, maxOffsetY)
  }

  /** `clampOffset`: pan clamping is switched off, the offset passes through. */
  function ClampOffset(offset: Point, scale: real, viewportWidth: real, viewportHeight: real): (r: Point)
    ensures r == offset
  {
    offset
  }
}
