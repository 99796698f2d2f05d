/**
 * services-python/main.py: `create_collage`, its input guards and the
 * square grid it lays the images out on.
 */
module Collage {

  const IMG_SIZE: nat := 256
  const GAP: nat := 10

  const NO_URLS: string := "Please provide at least one image URL."
  const NO_IMAGES: string := "No valid images could be processed."
  const FETCH_FAILED_PREFIX: string := "Failed to process image at "

  /**
   * How fetching and decoding one URL ends: `requests.get`,
   * `raise_for_status` and the PIL decode all succeed, or one of them
   * raises an exception whose text is `message`.
   */
  datatype Fetched = Loaded | Raised(message: string)

  /** The 400 detail for a URL whose fetch raised: the URL, then the exception text. */
  function FailureDetail(url: string, message: string): (d: string)
    ensures |d| == |FETCH_FAILED_PREFIX| + |url| + 2 + |message|
    ensures d[..|FETCH_FAILED_PREFIX|] == FETCH_FAILED_PREFIX
    ensures d[|FETCH_FAILED_PREFIX|..|FETCH_FAILED_PREFIX| + |url|] == url
    ensures d[|FETCH_FAILED_PREFIX| + |url|..] == ": " + message
  {
    FETCH_FAILED_PREFIX + url + ": " + message
  }

  /** The upper-left corner of the tile image `index` is pasted at. */
  datatype Tile = Tile(index: nat, x: nat, y: nat)

  /** A square canvas and its tiles, or an HTTP 400 with its detail. */
  datatype CollageResult = Collage(canvasSize: nat, tiles: seq<Tile>) | BadRequest(detail: string)

  /**
   * `math.ceil(math.sqrt(n))` as an integer: the smallest `g` with `g*g >= n`.
   * Counting up from `g` keeps every value below it too small.
   */
  function CeilSqrtFrom(n: nat, g: nat): (r: nat)
    requires g * g < n || g == 0 || (g - 1) * (g - 1) < n
    ensures r * r >= n && (r == 0 || (r - 1) * (r - 1) < n)
    decreases n - g
  {
    if g * g >= n then g
    else CeilSqrtFrom(n, g + 1)
  }

  function CeilSqrt(n: nat): (g: nat)
    ensures g * g >= n && (g == 0 || (g - 1) * (g - 1) < n)
  {
    CeilSqrtFrom(n, 0)
  }

  /** `grid_dim * img_size + (grid_dim - 1) * gap`. */
  function CanvasSize(gridDim: nat): int {
    gridDim * IMG_SIZE + (gridDim - 1) * GAP
  }

  /** Image `i` goes to row `i // g`, column `i % g`, one tile and one gap per step. */
  function TileOf(i: nat, gridDim: nat): (t: Tile)
    requires gridDim > 0
    ensures t.index == i
  {
    Tile(i, (i % gridDim) * (IMG_SIZE + GAP), (i / gridDim) * (IMG_SIZE + GAP))
  }

  /** `grid_dim` is positive once there is an image, and small enough that no row is left empty. */
  lemma GridDimFacts(n: nat)
    requires n > 0
    ensures CeilSqrt(n) > 0 && n <= CeilSqrt(n) * CeilSqrt(n)
  {
  }

  /** Every tile of every image lies inside the canvas. */
  lemma TileInsideCanvas(i: nat, n: nat)
    requires i < n
    ensures CeilSqrt(n) > 0
    ensures TileOf(i, CeilSqrt(n)).x + IMG_SIZE <= CanvasSize(CeilSqrt(n))
    ensures TileOf(i, CeilSqrt(n)).y + IMG_SIZE <= CanvasSize(CeilSqrt(n))
  {
    var g := CeilSqrt(n);
    GridDimFacts(n);
    assert i % g <= g - 1;
    assert (i / g) * g <= i < g * g;
    assert i / g <= g - 1;
    assert (i % g) * (IMG_SIZE + GAP) <= (g - 1) * (IMG_SIZE + GAP);
    assert (i / g) * (IMG_SIZE + GAP) <= (g - 1) * (IMG_SIZE + GAP);
  }

  /** Distinct images never share a tile, and their tiles do not overlap. */
  lemma TilesDisjoint(i: nat, j: nat, g: nat)
    requires g > 0 && i != j
    ensures (var a, b := TileOf(i, g), TileOf(j, g);
      a.x + IMG_SIZE < b.x || b.x + IMG_SIZE < a.x || a.y + IMG_SIZE < b.y || b.y + IMG_SIZE < a.y)
  {
    var ri, ci, rj, cj := i / g, i % g, j / g, j % g;
    assert i == ri * g + ci && j == rj * g + cj;
    if ri == rj {
      assert ci != cj;
      if ci < cj {
        assert ci * (IMG_SIZE + GAP) + IMG_SIZE < (ci + 1) * (IMG_SIZE + GAP) <= cj * (IMG_SIZE + GAP);
      } else {
        assert cj * (IMG_SIZE + GAP) + IMG_SIZE < (cj + 1) * (IMG_SIZE + GAP) <= ci * (IMG_SIZE + GAP);
      }
    } else if ri < rj {
      assert ri * (IMG_SIZE + GAP) + IMG_SIZE < (ri + 1) * (IMG_SIZE + GAP) <= rj * (IMG_SIZE + GAP);
    } else {
      assert rj * (IMG_SIZE + GAP) + IMG_SIZE < (rj + 1) * (IMG_SIZE + GAP) <= ri * (IMG_SIZE + GAP);
    }
  }

  /** The position of the first URL that could not be fetched and decoded, if any. */
  function FirstFailure(fetched: seq<Fetched>): (r: int)
    ensures -1 <= r < |fetched|
    ensures r == -1 <==> forall i | 0 <= i < |fetched| :: fetched[i].Loaded?
    ensures r >= 0 ==> fetched[r].Raised? && forall i | 0 <= i < r :: fetched[i].Loaded?
  {
    if fetched == [] then -1
    else if fetched[0].Raised? then 0
    else
      var rest := FirstFailure(fetched[1..]);
      if rest == -1 then -1 else rest + 1
  }

  /**
   * The paste loop over `n` images on a `gridDim`-wide grid. Since
   * `n <= gridDim * gridDim`, its `break` never fires and every image is
   * placed.
   */
  method PlaceImages(n: nat, gridDim: nat) returns (tiles: seq<Tile>)
    requires gridDim > 0 && n <= gridDim * gridDim
    ensures |tiles| == n
    ensures forall i | 0 <= i < n :: tiles[i] == TileOf(i, gridDim)
  {
    tiles := [];
    var i := 0;
    while i < n
      invariant 0 <= i <= n
      invariant |tiles| == i
      invariant forall j | 0 <= j < i :: tiles[j] == TileOf(j, gridDim)
    {
      if i >= gridDim * gridDim {
        break;
      }
      var row := i / gridDim;
      var col := i % gridDim;
      var x := col * (IMG_SIZE + GAP);
      var y := row * (IMG_SIZE + GAP);
      tiles := tiles + [Tile(i, x, y)];
      i := i + 1;
    }
  }

  /**
   * `create_collage`. `fetched[i]` is how fetching and decoding the URL at
   * position i would end: the loop requests each position afresh, so two
   * copies of one URL may end differently.
   */
  method CreateCollage(imageUrls: seq<string>, fetched: seq<Fetched>) returns (result: CollageResult)
    requires |fetched| == |imageUrls|
    ensures imageUrls == [] ==> result == BadRequest(NO_URLS)
    ensures imageUrls != [] && FirstFailure(fetched) >= 0 ==>
      var i := FirstFailure(fetched);
      result == BadRequest(FailureDetail(imageUrls[i], fetched[i].message))
    ensures result.Collage? <==> imageUrls != [] && FirstFailure(fetched) == -1
    ensures result != BadRequest(NO_IMAGES)
    ensures result.Collage? ==>
      && result.canvasSize == CanvasSize(CeilSqrt(|imageUrls|))
      && |result.tiles| == |imageUrls|
      && forall i | 0 <= i < |imageUrls| :: result.tiles[i] == TileOf(i, CeilSqrt(|imageUrls|))
  {
    if imageUrls == [] {
      return BadRequest(NO_URLS);
    }
    var images := 0;
    for k := 0 to |imageUrls|
      invariant images == k
      invariant forall i | 0 <= i < k :: fetched[i].Loaded?
    {
      var url := imageUrls[k];
      var outcome := fetched[k];
      if outcome.Raised? {
        var detail := FailureDetail(url, outcome.message);
        assert detail[0] != NO_IMAGES[0];
        return BadRequest(detail);
      }
      images := images + 1;
    }
    if images == 0 {
      return BadRequest(NO_IMAGES);
    }
    var gridDim := CeilSqrt(images);
    GridDimFacts(images);
    var canvasSize := gridDim * IMG_SIZE + (gridDim - 1) * GAP;
    var tiles := PlaceImages(images, gridDim);
    return Collage(canvasSize, tiles);
  }
}
