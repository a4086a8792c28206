/**
  The state machine inside the `Map` component of src/index.tsx, without the
  React and canvas plumbing: drag tracking, the clamped pan, the wheel-to-zoom
  rule and its debounced commit, the canvas size rule, the render pass that
  requests tiles in spiral order, and the process-wide image table with its
  stale-zoom paint guard.

  Image loads are asynchronous in the browser; here every load that has been
  started sits in `loads` until an `OnLoad` or `OnError` event completes it.
  The zoom captured by the render that started a load is the tile's own zoom.
  What the canvas shows is `painted`: the tiles drawn since the last clear.
*/
module Widget {
  import opened Wrappers
  import opened SpiralWalk
  import opened Camera
  import opened TileUrl

  /** A pointer position in client coordinates. */
  datatype Position = Position(x: real, y: real)

  /** An entry of the image table: an image that loaded, or the null that a
      failed load writes. */
  datatype Entry = Loaded | Failed

  /** Only an entry holding an image is drawn from the table; a null entry is
      falsy and is treated as absent. */
  predicate IsHit(entries: map<string, Entry>, url: string) {
    url in entries && entries[url] == Loaded
  }

  /** The module-level image table, shared by every map on the page. */
  class ImageCache {
    var entries: map<string, Entry>

    constructor ()
      ensures entries == map[]
    {
      entries := map[];
    }
  }

  // ---------------------------------------------------------------------
  // What one render pass asks for

  /** The tile a render asks for at (x, y): none when the column or row is
      negative. */
  function TileRequest(zoom: int, x: int, y: int): seq<Tile> {
    if x < 0 || y < 0 then [] else [Tile(zoom, x, y)]
  }

  /** The tiles a render asks for, in order: the centre tile moved by each
      spiral offset, skipping negative columns and rows. */
  function Requests(zoom: int, centreX: int, centreY: int, cells: seq<Cell>): seq<Tile> {
    if cells == [] then []
    else
      var c := cells[|cells| - 1];
      Requests(zoom, centreX, centreY, cells[..|cells| - 1]) + TileRequest(zoom, centreX + c.x, centreY + c.y)
  }

  /** The requested tiles found in the table, in request order. */
  function Hits(entries: map<string, Entry>, server: string, ts: seq<Tile>): seq<Tile> {
    if ts == [] then []
    else
      var t := ts[|ts| - 1];
      Hits(entries, server, ts[..|ts| - 1]) + (if IsHit(entries, Url(server, t)) then [t] else [])
  }

  /** The requested tiles not found in the table, each of which starts a load. */
  function Misses(entries: map<string, Entry>, server: string, ts: seq<Tile>): multiset<Tile> {
    if ts == [] then multiset{}
    else
      var t := ts[|ts| - 1];
      Misses(entries, server, ts[..|ts| - 1]) + (if IsHit(entries, Url(server, t)) then multiset{} else multiset{t})
  }

  predicate Distinct<T(==)>(s: seq<T>) {
    forall a, b | 0 <= a < b < |s| :: s[a] != s[b]
  }

  /** Every requested tile is drawn from the table or starts a load, never
      both and never neither. */
  lemma {:induction false} HitsAndMissesSplitRequests(entries: map<string, Entry>, server: string, ts: seq<Tile>)
    ensures multiset(Hits(entries, server, ts)) + Misses(entries, server, ts) == multiset(ts)
  {
    if ts != [] {
      var init, t := ts[..|ts| - 1], ts[|ts| - 1];
      HitsAndMissesSplitRequests(entries, server, init);
      assert ts == init + [t];
      assert multiset(ts) == multiset(init) + multiset{t};
      if IsHit(entries, Url(server, t)) {
        assert Hits(entries, server, ts) == Hits(entries, server, init) + [t];
        assert Misses(entries, server, ts) == Misses(entries, server, init);
      } else {
        assert Hits(entries, server, ts) == Hits(entries, server, init);
        assert Misses(entries, server, ts) == Misses(entries, server, init) + multiset{t};
      }
    }
  }

  /** The tiles drawn from the table are the ones it holds an image for. */
  lemma {:induction false} HitsAreCached(entries: map<string, Entry>, server: string, ts: seq<Tile>, t: Tile)
    requires t in Hits(entries, server, ts)
    ensures t in ts && IsHit(entries, Url(server, t))
  {
    var init := ts[..|ts| - 1];
    if t in Hits(entries, server, init) {
      HitsAreCached(entries, server, init, t);
    }
  }

  /** The tiles that start a load are the ones without an image in the table. */
  lemma {:induction false} MissesAreNotCached(entries: map<string, Entry>, server: string, ts: seq<Tile>, t: Tile)
    requires t in Misses(entries, server, ts)
    ensures t in ts && !IsHit(entries, Url(server, t))
  {
    var init := ts[..|ts| - 1];
    if t in Misses(entries, server, init) {
      MissesAreNotCached(entries, server, init, t);
    }
  }

  /** Each requested tile comes from one spiral offset of the render's zoom. */
  lemma {:induction false} RequestFromCell(zoom: int, centreX: int, centreY: int, cells: seq<Cell>, t: Tile)
    requires t in Requests(zoom, centreX, centreY, cells)
    ensures t.zoom == zoom && Cell(t.x - centreX, t.y - centreY) in cells
  {
    var init := cells[..|cells| - 1];
    if t in Requests(zoom, centreX, centreY, init) {
      RequestFromCell(zoom, centreX, centreY, init, t);
      assert forall c | c in init :: c in cells;
    } else {
      assert Cell(t.x - centreX, t.y - centreY) == cells[|cells| - 1];
    }
  }

  /** Distinct offsets give distinct requests. */
  lemma {:induction false} RequestsDistinct(zoom: int, centreX: int, centreY: int, cells: seq<Cell>)
    requires Distinct(cells)
    ensures Distinct(Requests(zoom, centreX, centreY, cells))
  {
    if cells != [] {
      var init := cells[..|cells| - 1];
      var c := cells[|cells| - 1];
      assert Distinct(init);
      RequestsDistinct(zoom, centreX, centreY, init);
      var prev := Requests(zoom, centreX, centreY, init);
      if centreX + c.x >= 0 && centreY + c.y >= 0 {
        var t := Tile(zoom, centreX + c.x, centreY + c.y);
        if t in prev {
          RequestFromCell(zoom, centreX, centreY, init, t);
          assert false;
        }
      }
    }
  }

  /** A table miss happens at most once per tile of a request list without
      repeats. */
  lemma {:induction false} MissesOnce(entries: map<string, Entry>, server: string, ts: seq<Tile>, t: Tile)
    requires Distinct(ts)
    ensures Misses(entries, server, ts)[t] <= 1
  {
    if ts != [] {
      var init := ts[..|ts| - 1];
      assert Distinct(init);
      MissesOnce(entries, server, init, t);
      if t == ts[|ts| - 1] && t in Misses(entries, server, init) {
        MissesAreNotCached(entries, server, init, t);
        assert false;
      }
    }
  }

  /** One render pass starts at most one load per tile, whatever the table
      holds: the spiral offsets do not repeat. */
  lemma RenderLoadsEachTileAtMostOnce(entries: map<string, Entry>, server: string, zoom: int,
                                      centreX: int, centreY: int, width: nat, height: nat, t: Tile)
    ensures Misses(entries, server, Requests(zoom, centreX, centreY, SpiralCells(width, height)))[t] <= 1
  {
    SpiralCellsProperties(width, height);
    RequestsDistinct(zoom, centreX, centreY, SpiralCells(width, height));
    MissesOnce(entries, server, Requests(zoom, centreX, centreY, SpiralCells(width, height)), t);
  }

  /** With the table empty, every request of a render starts a load. */
  lemma {:induction false} EmptyTableMissesAll(server: string, ts: seq<Tile>)
    ensures Misses(map[], server, ts) == multiset(ts)
  {
    if ts != [] {
      EmptyTableMissesAll(server, ts[..|ts| - 1]);
      assert ts == ts[..|ts| - 1] + [ts[|ts| - 1]];
    }
  }

  /** The first request of a render is the centre tile itself, when it has a
      non-negative column and row and the grid is not empty. */
  lemma {:induction false} CentreRequestedFirst(zoom: int, centreX: nat, centreY: nat, cells: seq<Cell>)
    requires |cells| >= 1 && cells[0] == Cell(0, 0)
    ensures |Requests(zoom, centreX, centreY, cells)| >= 1
    ensures Requests(zoom, centreX, centreY, cells)[0] == Tile(zoom, centreX, centreY)
  {
    if |cells| > 1 {
      CentreRequestedFirst(zoom, centreX, centreY, cells[..|cells| - 1]);
    }
  }

  lemma RequestsExtend(zoom: int, centreX: int, centreY: int, cells: seq<Cell>, i: nat)
    requires i < |cells|
    ensures Requests(zoom, centreX, centreY, cells[..i + 1]) ==
      Requests(zoom, centreX, centreY, cells[..i]) + TileRequest(zoom, centreX + cells[i].x, centreY + cells[i].y)
  {
    assert cells[..i + 1][..i] == cells[..i];
  }

  /** A single request is a hit or a miss according to the table. */
  lemma SingleRequest(entries: map<string, Entry>, server: string, t: Tile)
    ensures Hits(entries, server, [t]) == if IsHit(entries, Url(server, t)) then [t] else []
    ensures Misses(entries, server, [t]) == if IsHit(entries, Url(server, t)) then multiset{} else multiset{t}
  {
    assert [t][..0] == [];
  }

  /** The table hits of two request lists in a row are the hits of the
      first followed by the hits of the second. */
  lemma {:induction false} HitsAppend(entries: map<string, Entry>, server: string, ts: seq<Tile>, us: seq<Tile>)
    ensures Hits(entries, server, ts + us) == Hits(entries, server, ts) + Hits(entries, server, us)
  {
    if us == [] {
      assert ts + us == ts;
    } else {
      var init := us[..|us| - 1];
      assert (ts + us)[..|ts + us| - 1] == ts + init;
      HitsAppend(entries, server, ts, init);
    }
  }

  /** The table misses of two request lists in a row are the misses of both. */
  lemma {:induction false} MissesAppend(entries: map<string, Entry>, server: string, ts: seq<Tile>, us: seq<Tile>)
    ensures Misses(entries, server, ts + us) == Misses(entries, server, ts) + Misses(entries, server, us)
  {
    if us == [] {
      assert ts + us == ts;
    } else {
      var init := us[..|us| - 1];
      assert (ts + us)[..|ts + us| - 1] == ts + init;
      MissesAppend(entries, server, ts, init);
    }
  }

  /** One step of the render loop: drawing offset i after a cleared canvas
      extends what was drawn for the offsets before it. */
  lemma PaintStep(entries: map<string, Entry>, server: string, zoom: int, centreX: int, centreY: int,
                  cells: seq<Cell>, i: nat, before: seq<Tile>, after: seq<Tile>)
    requires i < |cells|
    requires before == Hits(entries, server, Requests(zoom, centreX, centreY, cells[..i]))
    requires after == before + Hits(entries, server, TileRequest(zoom, centreX + cells[i].x, centreY + cells[i].y))
    ensures after == Hits(entries, server, Requests(zoom, centreX, centreY, cells[..i + 1]))
  {
    RequestsExtend(zoom, centreX, centreY, cells, i);
    HitsAppend(entries, server, Requests(zoom, centreX, centreY, cells[..i]),
               TileRequest(zoom, centreX + cells[i].x, centreY + cells[i].y));
  }

  /** One step of the render loop: drawing offset i extends the loads started
      for the offsets before it. */
  lemma LoadStep(entries: map<string, Entry>, server: string, zoom: int, centreX: int, centreY: int,
                 cells: seq<Cell>, i: nat, loads0: multiset<Tile>, before: multiset<Tile>, after: multiset<Tile>)
    requires i < |cells|
    requires before == loads0 + Misses(entries, server, Requests(zoom, centreX, centreY, cells[..i]))
    requires after == before + Misses(entries, server, TileRequest(zoom, centreX + cells[i].x, centreY + cells[i].y))
    ensures after == loads0 + Misses(entries, server, Requests(zoom, centreX, centreY, cells[..i + 1]))
  {
    RequestsExtend(zoom, centreX, centreY, cells, i);
    MissesAppend(entries, server, Requests(zoom, centreX, centreY, cells[..i]),
                 TileRequest(zoom, centreX + cells[i].x, centreY + cells[i].y));
  }

  // ---------------------------------------------------------------------
  // Grids the renderer uses

  /** The smallest canvas, 800 x 600, asks for a 9 x 8 grid, and the spiral
      returns every cell of it: 72 steps reach everything up to ring 3 and
      the part of ring 4 inside the grid, which ends at offset 22 of that
      ring. */
  lemma MinimumCanvasGridIsCovered(c: Cell)
    requires InRect(GridSpan(MinimumX), GridSpan(MinimumY), c)
    ensures c in SpiralCells(GridSpan(MinimumX), GridSpan(MinimumY))
  {
    assert GridSpan(MinimumX) == 9 && GridSpan(MinimumY) == 8;
    assert SpiralIndex(c) < 72 by {
      SpiralIndexInRing(c);
      RingStartIsSquare(4);
      if Ring(c) < 4 {
        RingStartMonotone(Ring(c) + 1, 4);
      } else {
        assert Ring(c) == 4 && c.y != -4;
      }
    }
    KeptMembership(9, 8, 72, c);
  }

  /** A 3840 x 600 canvas asks for a 20 x 8 grid; the walk's 160 steps end
      inside ring 6, so the offset (7, 0), seven columns right of the centre
      tile, is in the grid but never requested. */
  lemma WideCanvasGridMissesCell(canvas: CanvasSize)
    requires canvas == CanvasSize(3840, 600)
    ensures GridSpan(canvas.width) == 20 && GridSpan(canvas.height) == 8
    ensures InRect(GridSpan(canvas.width), GridSpan(canvas.height), Cell(7, 0))
    ensures Cell(7, 0) !in SpiralCells(GridSpan(canvas.width), GridSpan(canvas.height))
    ensures forall zoom: int, centreX: nat, centreY: nat ::
      Tile(zoom, centreX + 7, centreY) !in Requests(zoom, centreX, centreY, SpiralCells(GridSpan(canvas.width), GridSpan(canvas.height)))
  {
    var c := Cell(7, 0);
    assert Ring(c) == 7;
    RingStartIsSquare(7);
    assert SpiralIndex(c) >= 160;
    KeptMembership(GridSpan(canvas.width), GridSpan(canvas.height), 160, c);
    var cells := SpiralCells(GridSpan(canvas.width), GridSpan(canvas.height));
    forall zoom: int, centreX: nat, centreY: nat
      ensures Tile(zoom, centreX + 7, centreY) !in Requests(zoom, centreX, centreY, cells)
    {
      if Tile(zoom, centreX + 7, centreY) in Requests(zoom, centreX, centreY, cells) {
        RequestFromCell(zoom, centreX, centreY, cells, Tile(zoom, centreX + 7, centreY));
        assert false;
      }
    }
  }

  // ---------------------------------------------------------------------
  // The component

  class MapWidget {
    /** config.mapServer */
    const server: string
    /** The zoom prop; the wheel rule measures from it. */
    const initialZoom: int
    /** The shared image table. */
    const cache: ImageCache

    var latitude: real
    var longitude: real
    /** The debounced zoom the map renders at. */
    var zoom: int
    /** The latest value given to the debounced setter, not yet committed. */
    var pendingZoom: int
    /** wheelStart: the wheel delta accepted so far. */
    var wheelAccum: real
    var dragStart: Option<Position>
    /** The zoom of the latest render pass; a completed load paints only if it
        still equals the zoom the load was started at. */
    var renderingZoom: int
    var canvas: CanvasSize
    /** The tiles drawn since the canvas was last cleared, in drawing order. */
    var painted: seq<Tile>
    /** The loads started and not yet completed. */
    var loads: multiset<Tile>

    /** The pending zoom is always the one the accepted wheel delta implies,
        both zooms stay in [0, 18] once a wheel gesture moved them, and
        everything on the canvas was drawn at the zoom of the latest render. */
    ghost predicate Valid()
      reads this
    {
      && pendingZoom == WheelZoom(initialZoom, wheelAccum)
      && (pendingZoom == initialZoom || ZoomInRange(pendingZoom))
      && (zoom == initialZoom || ZoomInRange(zoom))
      && forall t | t in painted :: t.zoom == renderingZoom
    }

    /** Mounting the component: the props give the camera, nothing is dragged
        or scrolled, and the canvas still has the browser's default 300 x 150
        size until the first reload. */
    constructor (server: string, latitude: real, longitude: real, initialZoom: int, cache: ImageCache)
      ensures Valid()
      ensures this.server == server && this.initialZoom == initialZoom && this.cache == cache
      ensures this.latitude == latitude && this.longitude == longitude
      ensures zoom == initialZoom && pendingZoom == initialZoom && renderingZoom == initialZoom
      ensures wheelAccum == 0.0 && dragStart == None
      ensures canvas == CanvasSize(300, 150) && painted == [] && loads == multiset{}
    {
      this.server := server;
      this.initialZoom := initialZoom;
      this.cache := cache;
      this.latitude := latitude;
      this.longitude := longitude;
      zoom := initialZoom;
      pendingZoom := initialZoom;
      wheelAccum := 0.0;
      dragStart := None;
      renderingZoom := initialZoom;
      canvas := CanvasSize(300, 150);
      painted := [];
      loads := multiset{};
    }

    /** onMouseDown records the pointer. */
    method MouseDown(clientX: real, clientY: real)
      requires Valid()
      modifies this`dragStart
      ensures Valid()
      ensures dragStart == Some(Position(clientX, clientY))
    {
      dragStart := Some(Position(clientX, clientY));
    }

    /** onMouseUp forgets the pointer. */
    method MouseUp()
      requires Valid()
      modifies this`dragStart
      ensures Valid()
      ensures dragStart == None
    {
      dragStart := None;
    }

    /** onMouseMove: without a recorded pointer nothing happens; otherwise the
        pixel delta from the recorded pointer moves the camera by 1/2^zoom
        degrees per pixel (latitude with the pointer's y, longitude against
        its x), each clamped to its range, and the new pointer is recorded. */
    method MouseMove(clientX: real, clientY: real)
      requires Valid()
      modifies this`dragStart, this`latitude, this`longitude
      ensures Valid()
      ensures old(dragStart) == None ==>
        dragStart == None && latitude == old(latitude) && longitude == old(longitude)
      ensures old(dragStart) != None ==>
        && dragStart == Some(Position(clientX, clientY))
        && latitude == ClampLatitude(Pan(old(latitude), clientY - old(dragStart).value.y, DragCoefficient(zoom)))
        && longitude == ClampLongitude(Pan(old(longitude), clientX - old(dragStart).value.x, -DragCoefficient(zoom)))
        && MinLatitude <= latitude <= MaxLatitude
        && MinLongitude <= longitude <= MaxLongitude
    {
      if dragStart == None {
        return;
      }
      var dx := clientX - dragStart.value.x;
      var dy := clientY - dragStart.value.y;
      dragStart := Some(Position(clientX, clientY));
      var coefficient := DragCoefficient(zoom);
      var newLatitude := Pan(latitude, dy, coefficient);
      var newLongitude := Pan(longitude, dx, -coefficient);
      latitude := ClampLatitude(newLatitude);
      longitude := ClampLongitude(newLongitude);
    }

    /** onWheel: the candidate zoom is what the accepted delta plus this one
        implies; outside [0, 18] the event is dropped without accumulating,
        otherwise the delta is accumulated and the candidate becomes pending. */
    method Wheel(deltaY: real)
      requires Valid()
      modifies this`wheelAccum, this`pendingZoom
      ensures Valid()
      ensures var candidate := WheelZoom(initialZoom, old(wheelAccum) + deltaY);
        if ZoomInRange(candidate) then
          wheelAccum == old(wheelAccum) + deltaY && pendingZoom == candidate
        else
          wheelAccum == old(wheelAccum) && pendingZoom == old(pendingZoom)
    {
      var newZoom := Round(initialZoom as real - (wheelAccum + deltaY) / WheelScale);
      if newZoom < MinZoom || newZoom > MaxZoom {
        return;
      }
      wheelAccum := wheelAccum + deltaY;
      pendingZoom := newZoom;
    }

    /** The debounce timer firing: the pending zoom becomes the map's zoom,
        which is the zoom implied by all the wheel delta accepted so far. */
    method CommitZoom()
      requires Valid()
      modifies this`zoom
      ensures Valid()
      ensures zoom == pendingZoom && zoom == WheelZoom(initialZoom, wheelAccum)
    {
      zoom := pendingZoom;
    }

    /** drawImage: a tile with a negative column or row is skipped; otherwise
        an image in the table is drawn at once (the guard passes inside a
        render) and starts nothing, while an absent or null entry starts a
        new load, even if one for the same tile is already under way. */
    method DrawImage(x: int, y: int)
      requires Valid()
      modifies this`painted, this`loads
      ensures Valid()
      ensures painted == old(painted) + (if renderingZoom == zoom then Hits(cache.entries, server, TileRequest(zoom, x, y)) else [])
      ensures loads == old(loads) + Misses(cache.entries, server, TileRequest(zoom, x, y))
    {
      if x < 0 || y < 0 {
        return;
      }
      var t := Tile(zoom, x, y);
      var src := Url(server, t);
      SingleRequest(cache.entries, server, t);
      if src in cache.entries && cache.entries[src] == Loaded {
        if renderingZoom == zoom {
          painted := painted + [t];
        }
        return;
      }
      loads := loads + multiset{t};
    }

    /** The loop of renderMap, on a cleared canvas: drawImage for each spiral
        offset, in order. */
    method DrawOffsets(centreX: int, centreY: int, cells: seq<Cell>)
      requires Valid() && renderingZoom == zoom && painted == []
      modifies this`painted, this`loads
      ensures Valid()
      ensures painted == Hits(cache.entries, server, Requests(zoom, centreX, centreY, cells))
      ensures loads == old(loads) + Misses(cache.entries, server, Requests(zoom, centreX, centreY, cells))
    {
      for i := 0 to |cells|
        invariant Valid()
        invariant painted == Hits(cache.entries, server, Requests(zoom, centreX, centreY, cells[..i]))
        invariant loads == old(loads) + Misses(cache.entries, server, Requests(zoom, centreX, centreY, cells[..i]))
      {
        ghost var painted0, loads0 := painted, loads;
        DrawImage(centreX + cells[i].x, centreY + cells[i].y);
        PaintStep(cache.entries, server, zoom, centreX, centreY, cells, i, painted0, painted);
        LoadStep(cache.entries, server, zoom, centreX, centreY, cells, i, old(loads), loads0, loads);
      }
      assert cells[..|cells|] == cells;
    }

    /** renderMap: record the zoom being rendered, clear the canvas, then ask
        for the tiles of the spiral around the centre tile, in spiral order.
        The centre tile is an input: it comes from the floating-point
        projection of the camera, which is not part of this model. */
    method RenderMap(centreX: int, centreY: int)
      requires Valid()
      modifies this`renderingZoom, this`painted, this`loads
      ensures Valid()
      ensures renderingZoom == zoom
      ensures var requests := Requests(zoom, centreX, centreY, SpiralCells(GridSpan(canvas.width), GridSpan(canvas.height)));
        painted == Hits(cache.entries, server, requests) &&
        loads == old(loads) + Misses(cache.entries, server, requests)
    {
      renderingZoom := zoom;
      painted := [];
      var cells := Spiral(GridSpan(canvas.width), GridSpan(canvas.height));
      DrawOffsets(centreX, centreY, cells);
    }

    /** reload: size the canvas to the container, at least 800 x 600, then
        render. */
    method Reload(clientWidth: nat, clientHeight: nat, centreX: int, centreY: int)
      requires Valid()
      modifies this`canvas, this`renderingZoom, this`painted, this`loads
      ensures Valid()
      ensures canvas == FitCanvas(clientWidth, clientHeight)
      ensures renderingZoom == zoom
      ensures var requests := Requests(zoom, centreX, centreY, SpiralCells(GridSpan(canvas.width), GridSpan(canvas.height)));
        painted == Hits(cache.entries, server, requests) &&
        loads == old(loads) + Misses(cache.entries, server, requests)
    {
      var width := if clientWidth < MinimumX then MinimumX else clientWidth;
      var height := if clientHeight < MinimumY then MinimumY else clientHeight;
      canvas := CanvasSize(width, height);
      RenderMap(centreX, centreY);
    }

    /** A load completes: the tile is drawn only if no render at another zoom
        has happened since it was requested, and is stored in the table
        either way. */
    method OnLoad(t: Tile) returns (didPaint: bool)
      requires Valid() && t in loads
      modifies this`painted, this`loads, cache`entries
      ensures Valid()
      ensures didPaint == (renderingZoom == t.zoom)
      ensures painted == old(painted) + (if didPaint then [t] else [])
      ensures cache.entries == old(cache.entries)[Url(server, t) := Loaded]
      ensures loads == old(loads) - multiset{t}
    {
      didPaint := renderingZoom == t.zoom;
      if didPaint {
        painted := painted + [t];
      }
      cache.entries := cache.entries[Url(server, t) := Loaded];
      loads := loads - multiset{t};
    }

    /** A load fails: null is stored for the tile and nothing is drawn. */
    method OnError(t: Tile)
      requires Valid() && t in loads
      modifies this`loads, cache`entries
      ensures Valid()
      ensures cache.entries == old(cache.entries)[Url(server, t) := Failed]
      ensures loads == old(loads) - multiset{t}
    {
      cache.entries := cache.entries[Url(server, t) := Failed];
      loads := loads - multiset{t};
    }
  }

  /** On the first render, with the table empty, the centre tile starts a
      load whatever the canvas size. */
  lemma FirstRenderLoadsCentre(server: string, zoom: int, canvas: CanvasSize, centreX: nat, centreY: nat)
    ensures Tile(zoom, centreX, centreY) in
      Misses(map[], server, Requests(zoom, centreX, centreY, SpiralCells(GridSpan(canvas.width), GridSpan(canvas.height))))
  {
    var width, height := GridSpan(canvas.width), GridSpan(canvas.height);
    assert width * height >= 1 by {
      assert width * height >= 1 * height;
    }
    KeptStartsAtCentre(width, height, width * height);
    CentreRequestedFirst(zoom, centreX, centreY, SpiralCells(width, height));
    EmptyTableMissesAll(server, Requests(zoom, centreX, centreY, SpiralCells(width, height)));
  }

  /** Mounting a map at zoom 12 on an empty table and sizing it to its
      container: the centre tile's load is under way. */
  method MountAtZoom12(server: string, latitude: real, longitude: real,
                       clientWidth: nat, clientHeight: nat, centreX: nat, centreY: nat)
    returns (map_: MapWidget)
    ensures fresh(map_) && fresh(map_.cache) && map_.server == server
    ensures map_.Valid() && map_.initialZoom == 12 && map_.wheelAccum == 0.0
    ensures Tile(12, centreX, centreY) in map_.loads
  {
    var cache := new ImageCache();
    map_ := new MapWidget(server, latitude, longitude, 12, cache);
    map_.Reload(clientWidth, clientHeight, centreX, centreY);
    FirstRenderLoadsCentre(server, 12, map_.canvas, centreX, centreY);
  }

  /** A tile requested at zoom 12 that finishes loading after the wheel has
      moved the map to zoom 13 and the map has been rendered again is stored
      in the table but not painted.  The camera, the container size and the
      centre tile are left free. */
  method StaleLoadIsCachedNotPainted(server: string, latitude: real, longitude: real,
                                     clientWidth: nat, clientHeight: nat, centreX: nat, centreY: nat)
    returns (committed: int, didPaint: bool, cached: bool)
    ensures committed == 13 && !didPaint && cached
  {
    var map_ := MountAtZoom12(server, latitude, longitude, clientWidth, clientHeight, centreX, centreY);
    var t := Tile(12, centreX, centreY);
    WheelAtRest(12);
    WheelNotch(12, 0.0);
    map_.Wheel(-200.0);
    map_.CommitZoom();
    committed := map_.zoom;
    map_.RenderMap(centreX, centreY);
    didPaint := map_.OnLoad(t);
    cached := IsHit(map_.cache.entries, Url(server, t));
  }
}
