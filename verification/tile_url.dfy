/**
  The tile address and its URL `{mapServer}/{zoom}/{x}/{y}.png`
  (src/index.tsx, drawImage).  The URL is the key of the image cache, so the
  property that matters is that it names one tile: `ParseTileUrl` recovers
  the tile from the URL, and `TileUrlInjective` follows.
*/
module TileUrl {
  import opened Wrappers
  import opened Decimal

  /** A raster tile: its zoom level and its non-negative column and row. */
  datatype Tile = Tile(zoom: int, x: nat, y: nat)

  function Url(server: string, t: Tile): string {
    server + "/" + IntToString(t.zoom) + "/" + NatToString(t.x) + "/" + NatToString(t.y) + ".png"
  }

  /** The text before the first '/' and the text after it. */
  function SplitAtSlash(s: string): Option<(string, string)> {
    if s == [] then None
    else if s[0] == '/' then Some(([], s[1..]))
    else
      match SplitAtSlash(s[1..])
      case None => None
      case Some(parts) => Some(([s[0]] + parts.0, parts.1))
  }

  /** Reads the tile back out of a URL built on the given server. */
  function ParseTileUrl(server: string, url: string): Option<Tile> {
    if |url| < |server| + 1 || url[..|server|] != server || url[|server|] != '/' then None
    else
      match SplitAtSlash(url[|server| + 1..])
      case None => None
      case Some(zoomAndRest) =>
        match SplitAtSlash(zoomAndRest.1)
        case None => None
        case Some(columnAndRest) =>
          var last := columnAndRest.1;
          if |last| < 4 || last[|last| - 4..] != ".png" then None
          else
            match (ParseInt(zoomAndRest.0), ParseNat(columnAndRest.0), ParseNat(last[..|last| - 4]))
            case (Some(z), Some(x), Some(y)) => Some(Tile(z, x, y))
            case _ => None
  }

  lemma {:induction false} SplitAtFirstSlash(a: string, b: string)
    requires '/' !in a
    ensures SplitAtSlash(a + "/" + b) == Some((a, b))
  {
    var s := a + "/" + b;
    if a != [] {
      assert s[1..] == a[1..] + "/" + b;
      SplitAtFirstSlash(a[1..], b);
      assert [a[0]] + a[1..] == a;
    }
  }

  lemma NumbersHaveNoSlash(t: Tile)
    ensures '/' !in IntToString(t.zoom)
    ensures '/' !in NatToString(t.x) && '/' !in NatToString(t.y)
  {
    var z := IntToString(t.zoom);
    if t.zoom < 0 {
      assert z == "-" + NatToString(-t.zoom);
    }
  }

  /** The tile URL reads back as the tile it was built from. */
  lemma UrlRoundTrip(server: string, t: Tile)
    ensures ParseTileUrl(server, Url(server, t)) == Some(t)
  {
    var zs, xs, ys := IntToString(t.zoom), NatToString(t.x), NatToString(t.y);
    var url := Url(server, t);
    NumbersHaveNoSlash(t);
    var last := ys + ".png";
    var afterZoom := xs + "/" + last;
    var rest := zs + "/" + afterZoom;
    assert url == server + "/" + rest;
    assert url[..|server|] == server;
    assert url[|server|] == '/';
    assert url[|server| + 1..] == rest;
    SplitAtFirstSlash(zs, afterZoom);
    SplitAtFirstSlash(xs, last);
    assert last[|last| - 4..] == ".png";
    assert last[..|last| - 4] == ys;
    IntRoundTrip(t.zoom);
    NatRoundTrip(t.x);
    NatRoundTrip(t.y);
  }

  /** On one server, different tiles have different URLs, so the URL-keyed
      cache holds at most one entry per tile. */
  lemma TileUrlInjective(server: string, t: Tile, u: Tile)
    requires Url(server, t) == Url(server, u)
    ensures t == u
  {
    UrlRoundTrip(server, t);
    UrlRoundTrip(server, u);
  }
}
