/**
  The arithmetic of the camera and the canvas in src/index.tsx: the
  latitude/longitude clamp applied after a drag, the pixel-to-degree drag
  coefficient, the wheel-to-zoom rounding, the canvas minimum size and the
  tile grid the renderer asks the spiral for.
*/
module Camera {

  const MinLatitude: real := -85.0
  const MaxLatitude: real := 85.0
  const MinLongitude: real := -180.0
  const MaxLongitude: real := 180.0

  /** Zoom levels a wheel gesture may select. */
  const MinZoom: int := 0
  const MaxZoom: int := 18

  /** Wheel delta per zoom level. */
  const WheelScale: real := 200.0

  const TileSize: nat := 256
  const MinimumX: nat := 800
  const MinimumY: nat := 600
  /** Tiles requested beyond the visible ones, per axis. */
  const Buffer: nat := 5

  function Min(a: real, b: real): real { if a < b then a else b }
  function Max(a: real, b: real): real { if a < b then b else a }

  /** Math.max(lo, Math.min(hi, v)): saturates at the bounds, never wraps. */
  function Clamp(lo: real, hi: real, v: real): (r: real)
    requires lo <= hi
    ensures lo <= r <= hi
    ensures lo <= v <= hi ==> r == v
    ensures v > hi ==> r == hi
    ensures v < lo ==> r == lo
  {
    Max(lo, Min(hi, v))
  }

  function ClampLatitude(v: real): real { Clamp(MinLatitude, MaxLatitude, v) }
  function ClampLongitude(v: real): real { Clamp(MinLongitude, MaxLongitude, v) }

  /** Math.pow(2, z) for an integer z. */
  function Pow2(z: int): (r: real)
    ensures r > 0.0
    decreases if z < 0 then -z else z
  {
    if z == 0 then 1.0
    else if z > 0 then 2.0 * Pow2(z - 1)
    else Pow2(z + 1) / 2.0
  }

  /** Degrees moved per pixel dragged at a zoom level: 1 / 2^zoom. */
  function DragCoefficient(zoom: int): (c: real)
    ensures c > 0.0 && c * Pow2(zoom) == 1.0
  {
    1.0 / Pow2(zoom)
  }

  /** A coordinate moved by a drag of `pixels` at `coefficient` degrees per
      pixel. */
  function Pan(v: real, pixels: real, coefficient: real): real {
    v + pixels * coefficient
  }

  /** Math.round: the nearest integer, halves rounded up. */
  function Round(v: real): (r: int)
    ensures r as real - 0.5 <= v < r as real + 0.5
  {
    (v + 0.5).Floor
  }

  /** The zoom a wheel gesture selects once `accum` has been scrolled:
      round(initialZoom - accum / 200). */
  function WheelZoom(initialZoom: int, accum: real): int {
    Round(initialZoom as real - accum / WheelScale)
  }

  predicate ZoomInRange(z: int) { MinZoom <= z <= MaxZoom }

  /** Scrolling up by one notch of 200 from rest zooms in by exactly one level,
      and down by 200 zooms out by one. */
  lemma WheelNotch(initialZoom: int, accum: real)
    ensures WheelZoom(initialZoom, accum - WheelScale) == WheelZoom(initialZoom, accum) + 1
    ensures WheelZoom(initialZoom, accum + WheelScale) == WheelZoom(initialZoom, accum) - 1
  {
    var v := initialZoom as real - accum / WheelScale;
    assert initialZoom as real - (accum - WheelScale) / WheelScale == v + 1.0;
    assert initialZoom as real - (accum + WheelScale) / WheelScale == v - 1.0;
    RoundShift(v);
  }

  /** Before any wheel delta is accepted the wheel rule selects the initial
      zoom itself. */
  lemma WheelAtRest(initialZoom: int)
    ensures WheelZoom(initialZoom, 0.0) == initialZoom
  {
    assert initialZoom as real - 0.0 / WheelScale == initialZoom as real;
  }

  lemma RoundShift(v: real)
    ensures Round(v + 1.0) == Round(v) + 1 && Round(v - 1.0) == Round(v) - 1
  {
  }

  datatype CanvasSize = CanvasSize(width: nat, height: nat)

  /** The canvas takes the container's size but never less than 800 x 600. */
  function FitCanvas(clientWidth: nat, clientHeight: nat): (s: CanvasSize)
    ensures s.width >= MinimumX && s.width >= clientWidth
    ensures s.width == clientWidth || s.width == MinimumX
    ensures s.height >= MinimumY && s.height >= clientHeight
    ensures s.height == clientHeight || s.height == MinimumY
  {
    CanvasSize(if clientWidth < MinimumX then MinimumX else clientWidth,
               if clientHeight < MinimumY then MinimumY else clientHeight)
  }

  /** Math.ceil(pixels / 256) + 5: the tiles needed to cover the pixels, plus
      the prefetch margin. */
  function GridSpan(pixels: nat): (n: nat)
    ensures n >= Buffer
    ensures (n - Buffer) * TileSize >= pixels
    ensures (n - Buffer - 1) * TileSize < pixels
  {
    (pixels + TileSize - 1) / TileSize + Buffer
  }
}
