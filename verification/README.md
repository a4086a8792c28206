# Offline slippy map: spiral tile order and the map widget's state machine

This project is a Dafny model of the two pieces of sequential logic in a
React slippy-map component.

- `spiral(width, height)` (src/lib/spiral.ts) walks a square spiral out from
  the centre tile for `width * height` steps. It keeps the offsets that fall
  in the half-open rectangle `(-width/2, width/2] x (-height/2, height/2]`.
  The renderer requests tiles in that order, so the nearest tiles load first.
- The `Map` component (src/index.tsx) without its React and canvas plumbing:
  - the drag record and the clamped pan;
  - the wheel-to-zoom rule and its debounced commit;
  - the 800 x 600 minimum canvas size;
  - the render pass, which skips negative tile indices, builds the URL
    `{mapServer}/{zoom}/{x}/{y}.png` and looks it up in the page-wide image
    table;
  - the load and error callbacks, which fill that table;
  - the guard that stops a load started at an older zoom from painting.

Files:

| file | module | what it holds |
|---|---|---|
| wrappers.dfy | `Wrappers` | `Option` |
| spiral.dfy | `SpiralWalk` | the spiral loop, its specification (`WalkerAt`, `Kept`), the closed form `SpiralIndex` and the walk's properties |
| decimal.dfy | `Decimal` | decimal text of integers, as a template literal writes them, and its parser |
| tile_url.dfy | `TileUrl` | the tile address and its URL, with a parser that inverts it |
| camera.dfy | `Camera` | the clamp, drag, wheel, canvas-size and grid arithmetic |
| widget.dfy | `Widget` | the image table (`ImageCache`), the component (`MapWidget`) and what a render pass requests |

A completed image load is an event (`OnLoad`, `OnError`). Each load carries the
tile it was started for, and the tile's zoom is the zoom captured when the
request was made. The debounce timer firing is the event `CommitZoom`.
`painted` records what the canvas shows since it was last cleared, and
`loads` records the loads that have started and not yet completed.

The model follows the code where a plain reading of the component would
expect otherwise:

- A failed load stores `null`, which is falsy, so the tile is requested
  again on the next render (`Failed` entries are misses).
- Nothing marks a load as under way. A tile requested again before its first
  load completes starts a second load. `loads` is a multiset for this reason.
- The walk does not cover every rectangle it is asked for. Two lemmas show
  this: `WideRectangleMissesCell` for every `2m x 2` rectangle with m >= 2,
  and `WideCanvasGridMissesCell` for the grid of a 3840 x 600 canvas.
  `KeptMembership` states exactly which cells are returned. Square grids
  and the grid of the minimum canvas are covered completely
  (`SquareIsCovered`, `MinimumCanvasGridIsCovered`).

## Model

| member | source | states |
|---|---|---|
| SpiralWalk.Spiral | src/lib/spiral.ts:1-33 | the result is the in-rectangle cells of the first width*height walk positions, in walk order; every cell lies in the rectangle; there are at most width*height of them; an empty rectangle gives none |
| SpiralWalk.Walk | src/lib/spiral.ts:9-30 | the counted loop over x, y, dx, dy and direction_switch pushes exactly the cells `Kept` specifies for n iterations |
| SpiralWalk.EmptyRectangle | src/lib/spiral.ts:9 | with width or height 0 the loop runs no iteration and nothing is returned |
| SpiralWalk.RingStartIsSquare | src/lib/spiral.ts:19-29 | ring k >= 1 is entered at iteration (2k-1)^2, after the whole (2k-1)-square |
| SpiralWalk.RingStartMonotone | src/lib/spiral.ts:19-29 | outer rings are entered strictly later |
| SpiralWalk.RingStartAtLeast | src/lib/spiral.ts:19-29 | ring m >= 2 is entered no earlier than iteration 4m |
| SpiralWalk.SpiralIndexInRing | src/lib/spiral.ts:19-29 | the closed-form index of a cell of ring k lies in ring k's block of iterations |
| SpiralWalk.AdvanceOnTrack | src/lib/spiral.ts:19-29 | one iteration from any on-track state keeps the walk on track: the direction is a unit axis vector, the walk moves by it, it never moves inward, and the spiral index grows by exactly one |
| SpiralWalk.AdvanceFromCentre | src/lib/spiral.ts:3-7 | from the initial state (0,0) heading (0,-1) the first turn leads to (1,0) heading right |
| SpiralWalk.AdvanceRight | src/lib/spiral.ts:19-29 | heading right: the walk turns up at the entry cell (k, 1-k) of ring k, or runs along y = -k |
| SpiralWalk.AdvanceAlongBottom | src/lib/spiral.ts:19-29 | along y = -k the walk steps right and leaves ring k for ring k+1 after (k, -k) |
| SpiralWalk.AdvanceUp | src/lib/spiral.ts:19-29 | heading up x = k, the walk turns left at (k, k) |
| SpiralWalk.AdvanceLeft | src/lib/spiral.ts:19-29 | heading left along y = k, the walk turns down at (-k, k) |
| SpiralWalk.AdvanceDown | src/lib/spiral.ts:19-29 | heading down x = -k, the walk turns right at (-k, -k) |
| SpiralWalk.WalkerAtOnTrack | src/lib/spiral.ts:9-30 | before iteration n the loop state is on track and examines the cell whose closed-form index is n |
| SpiralWalk.StepIsUnit | src/lib/spiral.ts:5-6 | (dx, dy) is always one of the four unit axis vectors, and each iteration moves to a 4-neighbour |
| SpiralWalk.RingCellInverts | src/lib/spiral.ts:19-29 | a cell is recovered from its ring and its offset within the ring |
| SpiralWalk.SameIndexSameRing | src/lib/spiral.ts:19-29 | cells with equal spiral index lie on the same ring |
| SpiralWalk.SpiralIndexInjective | src/lib/spiral.ts:19-29 | distinct cells have distinct spiral indices |
| SpiralWalk.WalkNeverRevisits | src/lib/spiral.ts:9-30 | no two iterations examine the same cell |
| SpiralWalk.WalkReaches | src/lib/spiral.ts:9-30 | every cell of the plane is examined, at the iteration its index names |
| SpiralWalk.WalkIsCentreOut | src/lib/spiral.ts:19-29 | a later iteration never examines a cell of a smaller Chebyshev ring |
| SpiralWalk.KeptMembership | src/lib/spiral.ts:9-16 | a cell is among the first n pushes exactly when it is in the rectangle and its spiral index is below n |
| SpiralWalk.KeptInRect | src/lib/spiral.ts:10-16 | every pushed cell lies in the half-open rectangle |
| SpiralWalk.KeptLength | src/lib/spiral.ts:9-17 | n iterations push at most n cells |
| SpiralWalk.KeptDistinct | src/lib/spiral.ts:9-30 | the pushed cells are pairwise distinct |
| SpiralWalk.KeptCentreOut | src/lib/spiral.ts:9-30 | the Chebyshev ring of the pushed cells never decreases along the output |
| SpiralWalk.KeptStartsAtCentre | src/lib/spiral.ts:3-16 | for a non-empty rectangle the first pushed cell is (0,0) |
| SpiralWalk.SpiralCellsProperties | src/lib/spiral.ts:1-33 | the output of spiral is the rectangle's cells with index below width*height, distinct, centre-out, at most width*height long, and starts at (0,0) when the rectangle is not empty |
| SpiralWalk.IndexWithinOddSquare | src/lib/spiral.ts:19-29 | every cell within ring m is reached in the first (2m+1)^2 iterations |
| SpiralWalk.IndexWithinEvenSquare | src/lib/spiral.ts:19-29 | every cell of (-m, m] x (-m, m] is reached in the first (2m)^2 iterations |
| SpiralWalk.SquareIsCovered | src/lib/spiral.ts:1-33 | for an n x n request, every cell of the rectangle is returned |
| SpiralWalk.WideRectangleMissesCell | src/lib/spiral.ts:9-16 | for a 2m x 2 request with m >= 2, the in-rectangle cell (m, 0) is not returned |
| Decimal.DigitChar | src/index.tsx:237 | the character written for digit d is a digit character with value d |
| Decimal.NatToString | src/index.tsx:237 | the decimal text of a natural number is non-empty, all digits, with no leading zero |
| Decimal.IntToString | src/index.tsx:237 | the text of an integer is non-empty |
| Decimal.NatRoundTrip | src/index.tsx:237 | reading the decimal text of n gives back n |
| Decimal.IntRoundTrip | src/index.tsx:237 | reading the text of an integer, with its '-' sign, gives it back |
| TileUrl.SplitAtFirstSlash | src/index.tsx:237 | a URL segment without '/' is split off at the first '/' |
| TileUrl.NumbersHaveNoSlash | src/index.tsx:237 | the zoom, column and row texts contain no '/' |
| TileUrl.UrlRoundTrip | src/index.tsx:237 | the tile is read back from `{mapServer}/{zoom}/{x}/{y}.png` |
| TileUrl.TileUrlInjective | src/index.tsx:237 | on one server, different tiles have different URLs, so the URL-keyed table holds one entry per tile |
| Camera.Clamp | src/index.tsx:317-318 | Math.max(lo, Math.min(hi, v)) lies in [lo, hi], leaves values inside unchanged, and saturates at the bound it overshoots |
| Camera.Pow2 | src/index.tsx:312 | 2^zoom is positive for every integer zoom |
| Camera.DragCoefficient | src/index.tsx:312 | the coefficient is positive and equals 1 / 2^zoom |
| Camera.Round | src/index.tsx:323-325 | Math.round gives the integer nearest v, with halves rounded up |
| Camera.WheelNotch | src/index.tsx:322-329 | 200 units of wheel delta change the selected zoom by exactly one level, in each direction |
| Camera.WheelAtRest | src/index.tsx:322-329 | with no accepted delta the rule selects the initial zoom |
| Camera.RoundShift | src/index.tsx:323-325 | shifting the input by one shifts the rounded value by one |
| Camera.FitCanvas | src/index.tsx:158-163 | the canvas is at least 800 x 600 and at least the container, and each side is the container's or the minimum |
| Camera.GridSpan | src/index.tsx:271-273 | ceil(pixels / 256) + 5: enough tiles to cover the pixels, no whole tile more, plus the 5-tile margin; exactly 5 for 0 pixels |
| Widget.ImageCache.constructor | src/index.tsx:39 | the page-wide image table starts empty |
| Widget.HitsAndMissesSplitRequests | src/index.tsx:252-268 | every requested tile is either drawn from the table or starts a load, never both and never neither |
| Widget.HitsAreCached | src/index.tsx:252-256 | a tile drawn from the table was requested and has an image in the table |
| Widget.MissesAreNotCached | src/index.tsx:252-268 | a tile that starts a load was requested and has no image in the table (absent or null) |
| Widget.RequestFromCell | src/index.tsx:271-276 | each requested tile has the render's zoom and sits at a spiral offset from the centre tile |
| Widget.RequestsDistinct | src/index.tsx:271-276 | distinct spiral offsets give distinct tile requests |
| Widget.MissesOnce | src/index.tsx:252-268 | a request list without repeats misses each tile at most once |
| Widget.RenderLoadsEachTileAtMostOnce | src/index.tsx:252-276 | one render pass starts at most one load per tile, whatever the table holds |
| Widget.EmptyTableMissesAll | src/index.tsx:252-268 | with an empty table, every request starts a load |
| Widget.CentreRequestedFirst | src/index.tsx:271-276 | the first request of a render is the centre tile |
| Widget.RequestsExtend | src/index.tsx:271-276 | each further spiral offset adds its own request, or none when the column or row is negative |
| Widget.SingleRequest | src/index.tsx:252-268 | one request is drawn when the table holds its image and starts a load otherwise |
| Widget.HitsAppend | src/index.tsx:271-276 | the tiles drawn for two request lists in a row are those of the first followed by those of the second |
| Widget.MissesAppend | src/index.tsx:271-276 | the loads started for two request lists in a row are those of both |
| Widget.PaintStep | src/index.tsx:271-276 | drawing one more spiral offset extends the drawn tiles by that offset's hit |
| Widget.LoadStep | src/index.tsx:271-276 | drawing one more spiral offset adds that offset's miss to the loads under way |
| Widget.MinimumCanvasGridIsCovered | src/index.tsx:271-273 | the 9 x 8 grid of an 800 x 600 canvas is covered completely by the spiral |
| Widget.WideCanvasGridMissesCell | src/index.tsx:271-273 | on a 3840 x 600 canvas the grid is 20 x 8, the spiral offset (7, 0) is inside it but not returned, and so the tile 7 columns right of the centre is never requested, at any zoom and centre |
| Widget.FirstRenderLoadsCentre | src/index.tsx:252-276 | on a first render with an empty table the centre tile's load is started, whatever the canvas size |
| Widget.MapWidget.constructor | src/index.tsx:128-150 | the props give the camera and the zoom, nothing is dragged or scrolled, and the invariant holds |
| Widget.MapWidget.MouseDown | src/index.tsx:304 | the pointer is recorded, and the invariant is kept |
| Widget.MapWidget.MouseUp | src/index.tsx:321 | the record is cleared, and the invariant is kept |
| Widget.MapWidget.MouseMove | src/index.tsx:305-318 | without a record nothing changes; otherwise the camera moves by dy/2^zoom in latitude and -dx/2^zoom in longitude, clamped to [-85, 85] and [-180, 180], and the new pointer is recorded |
| Widget.MapWidget.Wheel | src/index.tsx:322-329 | a candidate outside [0, 18] changes neither the accumulated delta nor the pending zoom; otherwise both advance; the pending zoom is always the one the accepted delta implies |
| Widget.MapWidget.CommitZoom | src/index.tsx:150 | the debounced zoom becomes the pending zoom, which is the zoom the accepted wheel delta implies |
| Widget.MapWidget.DrawImage | src/index.tsx:235-269 | a negative column or row does nothing; otherwise a table image is drawn (when the guard passes) and starts nothing, while an absent or null entry starts a load |
| Widget.MapWidget.DrawOffsets | src/index.tsx:271-276 | drawImage over the spiral offsets draws the table hits in order and starts a load for each miss |
| Widget.MapWidget.RenderMap | src/index.tsx:172-276 | the rendering zoom becomes the zoom; the canvas shows exactly the table hits of the spiral requests, and every miss starts a load |
| Widget.MapWidget.Reload | src/index.tsx:154-170 | the canvas is sized by the minimum rule, then the map is rendered |
| Widget.MapWidget.OnLoad | src/index.tsx:241-262 | the tile is painted exactly when the rendering zoom still equals its zoom, and its image is stored in the table either way |
| Widget.MapWidget.OnError | src/index.tsx:264-266 | null is stored for the tile, one load is retired, nothing is painted, and the invariant is kept |
| Widget.MountAtZoom12 | src/index.tsx:128-170 | mounting at zoom 12 on an empty table and sizing the canvas starts the centre tile's load |
| Widget.StaleLoadIsCachedNotPainted | src/index.tsx:241-262 | a zoom-12 load that completes after one wheel notch and a render at zoom 13 is stored but not painted |

## Left out

- `LatLngToOSM` and everything built on it: the centre tile, sub-tile offsets, pixel positions, map elements and map lines. These use floating-point `Math.log`, `Math.tan` and `Math.cos`. `RenderMap` therefore takes the centre tile as an input.
- Canvas drawing calls (`clearRect`, `fillRect`, `drawImage`, `strokeRect`, paths), JSX, CSS, the coordinate and centre overlays, and the window resize listener. `painted` stands for what the canvas shows.
- src/lib/debounce.ts (React effects and `setTimeout`). The commit of the debounced zoom is the explicit event `CommitZoom`.
- Browser image loading (`new Image`, `img.src`). Completion is an explicit `OnLoad` or `OnError` event for a load in `loads`.
- React state batching and stale closures. Each handler sees the current field values.
- Widget.MapWidget.MouseMove: does not re-render; the `renderMap()` call at its end needs the floating-point centre tile, which is not part of this model.
- Widget.MapWidget.OnLoad: draws and stores in one step. The source draws before it stores, and nothing in between can observe the order.
- Widget.MapWidget.Reload: the early returns when the container or a canvas element is missing are not modelled; the container size is given as a natural number.
- Widget.MapWidget.RenderMap: the early returns when the canvas element or its 2D context is missing are not modelled. With a missing context the source has already set the rendering zoom and draws nothing.
- Widget.MapWidget.CommitZoom: does not re-render. The effect on `[zoom]` that renders after the debounced commit is the separate `RenderMap` event.
- Widget.MapWidget.MouseMove: the pan sum `latitude + dy * coefficient` is exact real arithmetic, not a double.
- Widget.MapWidget.Wheel: the accumulated delta `wheelStart.current += e.deltaY` is an exact real, not a double.
- Camera.Round: real arithmetic is exact, so JavaScript double rounding of `initialZoom - accum / 200` is not modelled.
- Camera.DragCoefficient: 1 / 2^zoom is exact, not a double.
- Decimal.NatToString: numbers of 1e21 and above, which JavaScript writes with an exponent, are not modelled. Tile indices at zooms up to 18 stay far below that.
- The config context (src/ConfigContext.tsx, src/lib/types.ts): the server is fixed per widget, and `showOSMBorders` only affects drawing.
- The initial zoom prop is an integer here. A fractional prop would give fractional tile URLs in the source.
