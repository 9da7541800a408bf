/**
 * Upscaling an image tile by tile (`_upscale_tiled` and `_run`, workers/strategies/image/realesrgan.py). The network
 * is any operator that makes an image four times as tall and wide; its clamp is part of it.
 */
module TiledUpscale {
  const SCALE := 4
  const MIN_TILE := 64

  type Pixel = real

  /** Pixels outside the frame mean nothing. */
  datatype Image = Image(height: nat, width: nat, at: (int, int) -> Pixel)

  type Net = Image -> Image

  /** `BORDER_REFLECT`: the index mirrored at the edges until it falls inside. */
  function Reflect(i: int, n: nat): (r: nat)
    requires n > 0
    ensures r < n
    ensures 0 <= i < n ==> r == i
    decreases if i < 0 then -2 * i else 2 * i + 1
  {
    if 0 <= i < n then i
    else if i < 0 then Reflect(-i - 1, n)
    else if 2 * n - 1 - i >= 0 then 2 * n - 1 - i
    else Reflect(2 * n - 1 - i, n)
  }

  /** The picture goes on as in mirrors standing at its edges, on and on: before the first, and behind the last. */
  lemma {:induction false} ReflectMirrors(i: int, n: nat)
    requires n > 0
    ensures Reflect(-1 - i, n) == Reflect(i, n) && Reflect(2 * n - 1 - i, n) == Reflect(i, n)
  {
    ReflectAtStart(i, n);
    ReflectRepeats(-1 - i, n);
  }

  lemma {:induction false} ReflectAtStart(i: int, n: nat)
    requires n > 0
    ensures Reflect(-1 - i, n) == Reflect(i, n)
  {
  }

  /** The mirrored picture repeats. */
  lemma {:induction false} ReflectRepeats(i: int, n: nat)
    requires n > 0
    ensures Reflect(i + 2 * n, n) == Reflect(i, n)
    decreases if i < 0 then -2 * i else 2 * i + 1
  {
    if i >= 0 {
      assert Reflect(i + 2 * n, n) == Reflect(-1 - i, n);
      ReflectAtStart(i, n);
    } else if i + 2 * n < 0 {
      var j := -1 - (i + 2 * n);
      ReflectRepeats(j, n);
      ReflectAtStart(j, n);
      ReflectAtStart(-1 - i, n);
    } else {
      ReflectAtStart(-1 - i, n);
    }
  }

  function ReflectedAt(image: Image, pad: nat): (int, int) -> Pixel
    requires image.height > 0 && image.width > 0
  {
    (y: int, x: int) => image.at(Reflect(y - pad, image.height), Reflect(x - pad, image.width))
  }

  function Padded(image: Image, pad: nat): Image
    requires image.height > 0 && image.width > 0
  {
    Image(image.height + 2 * pad, image.width + 2 * pad, ReflectedAt(image, pad))
  }

  function CutAt(image: Image, y0: nat, x0: nat): (int, int) -> Pixel { (y: int, x: int) => image.at(y0 + y, x0 + x) }

  /** The slice [y0 : y1, x0 : x1]. */
  function Cut(image: Image, y0: nat, y1: nat, x0: nat, x1: nat): Image
    requires y0 <= y1 <= image.height && x0 <= x1 <= image.width
  {
    Image(y1 - y0, x1 - x0, CutAt(image, y0, x0))
  }

  ghost predicate Scales(net: Net) {
    forall image: Image :: net(image).height == SCALE * image.height && net(image).width == SCALE * image.width
  }

  /** `pad` pixels all round (y, x) are inside. */
  predicate HasContext(image: Image, y: int, x: int, pad: nat) {
    pad <= y < image.height - pad && pad <= x < image.width - pad
  }

  /** Around (y, x) in `a` and (v, u) in `b` there is the same picture. */
  ghost predicate SameAround(a: Image, y: int, x: int, b: Image, v: int, u: int, pad: nat) {
    forall r: int, c: int | y - pad <= r <= y + pad && x - pad <= c <= x + pad ::
      a.at(r, c) == b.at(r + (v - y), c + (u - x))
  }

  /** (y, x) in what `a` became and (v, u) in what `b` became are the same. */
  ghost predicate SameBlock(a: Image, y: int, x: int, b: Image, v: int, u: int) {
    forall r: int, c: int | SCALE * y <= r < SCALE * y + SCALE && SCALE * x <= c < SCALE * x + SCALE ::
      a.at(r, c) == b.at(r + SCALE * (v - y), c + SCALE * (u - x))
  }

  /** What a pixel becomes depends only on the pixels within `pad` of it, wherever in an image it lies. */
  ghost predicate Local(net: Net, pad: nat) {
    forall a: Image, b: Image, y: int, x: int, v: int, u: int |
      HasContext(a, y, x, pad) && HasContext(b, v, u, pad) && SameAround(a, y, x, b, v, u, pad) ::
      SameBlock(net(a), y, x, net(b), v, u)
  }

  /** The whole image in one pass: the reference. */
  function Whole(net: Net, image: Image, pad: nat, y: int, x: int): Pixel
    requires image.height > 0 && image.width > 0
  {
    net(Padded(image, pad)).at(SCALE * pad + y, SCALE * pad + x)
  }

  /** There are such networks: one that repeats each pixel needs no context at all. */
  function Repeating(): Net {
    (image: Image) => Image(SCALE * image.height, SCALE * image.width, RepeatedAt(image))
  }

  function RepeatedAt(image: Image): (int, int) -> Pixel { (y: int, x: int) => image.at(y / SCALE, x / SCALE) }

  lemma {:induction false} RepeatingIsLocal(pad: nat)
    ensures Scales(Repeating()) && Local(Repeating(), pad)
  {
    forall a: Image, b: Image, y: int, x: int, v: int, u: int |
      HasContext(a, y, x, pad) && HasContext(b, v, u, pad) && SameAround(a, y, x, b, v, u, pad)
      ensures SameBlock(Repeating()(a), y, x, Repeating()(b), v, u)
    {
      assert a.at(y, x) == b.at(y + (v - y), x + (u - x));
    }
  }

  // ---- the tiles -----------------------------------------------------------------------------

  function Tiles(length: nat, tile: nat): nat
    requires tile > 0
  {
    (length + tile - 1) / tile
  }

  function End(start: nat, tile: nat, length: nat): nat { if start + tile < length then start + tile else length }

  /** Which tile a pixel is in. */
  predicate InTile(k: nat, tile: nat, length: nat, y: int)
    requires tile > 0
  {
    k * tile <= y < End(k * tile, tile, length)
  }

  lemma {:induction false} Times(a: nat, b: nat, tile: nat)
    requires a <= b
    ensures a * tile <= b * tile && (a + 1) * tile == a * tile + tile
  {
  }

  lemma {:induction false} Covers(length: nat, tile: nat)
    requires tile > 0
    ensures length <= Tiles(length, tile) * tile < length + tile
  {
  }

  lemma {:induction false} TileBounds(k: nat, tile: nat, length: nat)
    requires tile > 0 && k < Tiles(length, tile)
    ensures k * tile < End(k * tile, tile, length) <= length
    ensures (k + 1) * tile == k * tile + tile
  {
    Covers(length, tile);
    Times(k + 1, Tiles(length, tile), tile);
    Times(k, k, tile);
  }

  lemma {:induction false} OwnTile(y: nat, tile: nat)
    requires tile > 0
    ensures (y / tile) * tile <= y < (y / tile) * tile + tile
  {
  }

  lemma {:induction false} OwnTileCounts(y: nat, tile: nat, length: nat)
    requires tile > 0 && y < length
    ensures y / tile < Tiles(length, tile)
  {
    OwnTile(y, tile);
    Covers(length, tile);
    if y / tile >= Tiles(length, tile) {
      Times(Tiles(length, tile), y / tile, tile);
    }
  }

  /** Each pixel is in one tile and no other. */
  lemma {:induction false} OneTile(y: nat, tile: nat, length: nat, k: nat)
    requires tile > 0 && y < length
    ensures InTile(k, tile, length, y) <==> k == y / tile
  {
    var own := y / tile;
    OwnTile(y, tile);
    if k < own {
      Times(k + 1, own, tile);
      Times(k, k, tile);
    } else if k > own {
      Times(own + 1, k, tile);
      Times(own, own, tile);
    }
  }

  /** Every output pixel is written by exactly one tile of the grid. */
  lemma {:induction false} WrittenExactlyOnce(height: nat, width: nat, tile: nat, y: nat, x: nat, r: nat, c: nat)
    requires tile > 0 && y < SCALE * height && x < SCALE * width
    ensures (y / SCALE) / tile < Tiles(height, tile) && (x / SCALE) / tile < Tiles(width, tile)
    ensures InTile(r, tile, height, y / SCALE) && InTile(c, tile, width, x / SCALE)
       <==> r == (y / SCALE) / tile && c == (x / SCALE) / tile
  {
    var v, u := y / SCALE, x / SCALE;
    OwnTileCounts(v, tile, height);
    OwnTileCounts(u, tile, width);
    OneTile(v, tile, height, r);
    OneTile(u, tile, width, c);
  }

  // ---- a tile's pixels are the whole picture's -----------------------------------------------------

  /** The patch of a tile: the tile with `pad` pixels of context on every side. */
  function Patch(image: Image, pad: nat, y0: nat, y1: nat, x0: nat, x1: nat): Image
    requires y0 < y1 <= image.height && x0 < x1 <= image.width
  {
    Cut(Padded(image, pad), y0, y1 + 2 * pad, x0, x1 + 2 * pad)
  }

  lemma {:induction false} TileMatchesWhole(net: Net, image: Image, pad: nat, y0: nat, y1: nat, x0: nat, x1: nat,
                                            y: int, x: int)
    requires Scales(net) && Local(net, pad)
    requires y0 < y1 <= image.height && x0 < x1 <= image.width
    requires SCALE * y0 <= y < SCALE * y1 && SCALE * x0 <= x < SCALE * x1
    ensures var sr, edge := net(Patch(image, pad, y0, y1, x0, x1)), pad * SCALE;
            && 0 <= edge + y - SCALE * y0 < sr.height && 0 <= edge + x - SCALE * x0 < sr.width
            && sr.at(edge + (y - SCALE * y0), edge + (x - SCALE * x0)) == Whole(net, image, pad, y, x)
  {
    var v, u := y / SCALE, x / SCALE;
    BlockMatches(net, image, pad, y0, y1, x0, x1, v, u);
    var patch, padded := Patch(image, pad, y0, y1, x0, x1), Padded(image, pad);
    AtPlace(net(patch), net(padded), pad, y0, x0, v, u, pad * SCALE + (y - SCALE * y0), pad * SCALE + (x - SCALE * x0));
  }

  /** The block of a pixel of the tile is, in the patch's result, what it is in the whole picture's. */
  lemma {:induction false} BlockMatches(net: Net, image: Image, pad: nat, y0: nat, y1: nat, x0: nat, x1: nat, v: int,
                                        u: int)
    requires Local(net, pad)
    requires y0 <= v < y1 <= image.height && x0 <= u < x1 <= image.width
    ensures SameBlock(net(Patch(image, pad, y0, y1, x0, x1)), v - y0 + pad, u - x0 + pad,
                      net(Padded(image, pad)), v + pad, u + pad)
  {
    var patch, padded := Patch(image, pad, y0, y1, x0, x1), Padded(image, pad);
    assert HasContext(patch, v - y0 + pad, u - x0 + pad, pad) && HasContext(padded, v + pad, u + pad, pad);
    assert SameAround(patch, v - y0 + pad, u - x0 + pad, padded, v + pad, u + pad, pad);
  }

  lemma {:induction false} AtPlace(a: Image, b: Image, pad: nat, y0: nat, x0: nat, v: int, u: int, r: int, c: int)
    requires SameBlock(a, v - y0 + pad, u - x0 + pad, b, v + pad, u + pad)
    requires SCALE * (v - y0 + pad) <= r < SCALE * (v - y0 + pad) + SCALE
    requires SCALE * (u - x0 + pad) <= c < SCALE * (u - x0 + pad) + SCALE
    ensures a.at(r, c) == b.at(r + SCALE * y0, c + SCALE * x0)
  {
    assert r + SCALE * ((v + pad) - (v - y0 + pad)) == r + SCALE * y0;
    assert c + SCALE * ((u + pad) - (u - x0 + pad)) == c + SCALE * x0;
  }

  // ---- the loops ---------------------------------------------------------------------------------

  /** The rectangle [y0, y1) x [x0, x1) of the input, four times over, is finished in `out`. */
  ghost predicate Finished(out: array2<Pixel>, net: Net, image: Image, pad: nat, y0: int, y1: int, x0: int, x1: int)
    requires image.height > 0 && image.width > 0
    requires out.Length0 == SCALE * image.height && out.Length1 == SCALE * image.width
    requires 0 <= y0 && y1 <= image.height && 0 <= x0 && x1 <= image.width
    reads out
  {
    forall y: int, x: int | SCALE * y0 <= y < SCALE * y1 && SCALE * x0 <= x < SCALE * x1 ::
      out[y, x] == Whole(net, image, pad, y, x)
  }

  /** Copies the middle of one tile's result, without its context, to its place. */
  method WriteTile(out: array2<Pixel>, net: Net, image: Image, pad: nat, y0: nat, y1: nat, x0: nat, x1: nat)
    requires Scales(net) && Local(net, pad)
    requires y0 < y1 <= image.height && x0 < x1 <= image.width
    requires out.Length0 == SCALE * image.height && out.Length1 == SCALE * image.width
    modifies out
    ensures Finished(out, net, image, pad, y0, y1, x0, x1)
    ensures forall y: int, x: int | 0 <= y < out.Length0 && 0 <= x < out.Length1
              && !(SCALE * y0 <= y < SCALE * y1 && SCALE * x0 <= x < SCALE * x1) :: out[y, x] == old(out[y, x])
  {
    var sr, edge := net(Patch(image, pad, y0, y1, x0, x1)), pad * SCALE;
    forall y: int, x: int | SCALE * y0 <= y < SCALE * y1 && SCALE * x0 <= x < SCALE * x1
      ensures sr.at(edge + (y - SCALE * y0), edge + (x - SCALE * x0)) == Whole(net, image, pad, y, x)
    {
      TileMatchesWhole(net, image, pad, y0, y1, x0, x1, y, x);
    }
    forall y: int, x: int | SCALE * y0 <= y < SCALE * y1 && SCALE * x0 <= x < SCALE * x1 {
      out[y, x] := sr.at(edge + (y - SCALE * y0), edge + (x - SCALE * x0));
    }
  }

  /** One row of tiles, left to right. */
  method UpscaleRow(out: array2<Pixel>, net: Net, image: Image, tile: nat, pad: nat, y0: nat, y1: nat)
    requires Scales(net) && Local(net, pad) && tile > 0 && image.height > 0 && image.width > 0
    requires y0 < y1 <= image.height
    requires out.Length0 == SCALE * image.height && out.Length1 == SCALE * image.width
    requires Finished(out, net, image, pad, 0, y0, 0, image.width)
    modifies out
    ensures Finished(out, net, image, pad, 0, y1, 0, image.width)
  {
    var cols := Tiles(image.width, tile);
    var col: nat, done: nat := 0, 0;
    while col < cols
      invariant col <= cols && done == End(col * tile, 0, image.width)
      invariant Finished(out, net, image, pad, 0, y0, 0, image.width)
      invariant Finished(out, net, image, pad, y0, y1, 0, done)
    {
      TileBounds(col, tile, image.width);
      var x0 := col * tile;
      var x1 := End(x0, tile, image.width);
      WriteTile(out, net, image, pad, y0, y1, x0, x1);
      col, done := col + 1, x1;
    }
    Covers(image.width, tile);
  }

  /** `_upscale_tiled`: whatever the tile, every pixel is the one the whole image would give in one pass. */
  method UpscaleTiled(net: Net, image: Image, tile: nat, pad: nat) returns (out: array2<Pixel>)
    requires Scales(net) && Local(net, pad) && tile > 0 && image.height > 0 && image.width > 0
    ensures fresh(out) && out.Length0 == SCALE * image.height && out.Length1 == SCALE * image.width
    ensures Finished(out, net, image, pad, 0, image.height, 0, image.width)
  {
    out := new Pixel[SCALE * image.height, SCALE * image.width];
    var rows := Tiles(image.height, tile);
    var row: nat, done: nat := 0, 0;
    while row < rows
      invariant row <= rows && done == End(row * tile, 0, image.height)
      invariant Finished(out, net, image, pad, 0, done, 0, image.width)
    {
      TileBounds(row, tile, image.height);
      var y0 := row * tile;
      var y1 := End(y0, tile, image.height);
      UpscaleRow(out, net, image, tile, pad, y0, y1);
      row, done := row + 1, y1;
    }
    Covers(image.height, tile);
  }

  // ---- backing off ---------------------------------------------------------------------------------

  datatype Pass = Fits | OutOfMemory | OtherError
  datatype Outcome = Upscaled(tile: nat) | OutOfMemoryAtSmallest | Failed

  /** The tiles tried, one after another. */
  function Smaller(tile: nat): nat { if tile / 2 < MIN_TILE then MIN_TILE else tile / 2 }

  /** What a run comes to: the first pass that does not run out of memory decides, down to the smallest tile. */
  function Expected(tile: nat, pass: nat -> Pass): Outcome
    decreases tile
  {
    match pass(tile)
    case Fits => Upscaled(tile)
    case OtherError => Failed
    case OutOfMemory => if tile <= MIN_TILE then OutOfMemoryAtSmallest else Expected(Smaller(tile), pass)
  }

  /**
   * `_run`: `pass` says how a pass at each tile ends. It always ends; if with a picture, then with the whole image's,
   * whichever tile it got there with; and it gives up for memory only when the smallest tile tried did not fit.
   */
  method Run(net: Net, image: Image, tile: nat, pad: nat, pass: nat -> Pass) returns (outcome: Outcome,
                                                                                      out: array2?<Pixel>)
    requires Scales(net) && Local(net, pad) && tile > 0 && image.height > 0 && image.width > 0
    ensures outcome == Expected(tile, pass)
    ensures outcome.Upscaled? <==> out != null
    ensures out != null ==> out.Length0 == SCALE * image.height && out.Length1 == SCALE * image.width
    ensures out != null ==> Finished(out, net, image, pad, 0, image.height, 0, image.width)
  {
    var now := tile;
    while true
      invariant now > 0 && Expected(now, pass) == Expected(tile, pass)
      decreases now
    {
      match pass(now) {
        case Fits =>
          out := UpscaleTiled(net, image, now, pad);
          return Upscaled(now), out;
        case OtherError => return Failed, null;
        case OutOfMemory =>
          if now <= MIN_TILE { return OutOfMemoryAtSmallest, null; }
          now := Smaller(now);
      }
    }
  }

  /** The tile tried after `k` have run out of memory. */
  function TileAt(tile: nat, k: nat): nat
    decreases k
  {
    if k == 0 then tile else TileAt(Smaller(tile), k - 1)
  }

  /** The tile at `k` fits, and all before it were larger than the smallest and ran out of memory. */
  predicate FirstToFit(tile: nat, pass: nat -> Pass, k: nat) {
    && pass(TileAt(tile, k)).Fits?
    && (forall j: nat | j < k :: TileAt(tile, j) > MIN_TILE && pass(TileAt(tile, j)).OutOfMemory?)
  }

  /** A picture is had if and only if some tile on the way down fits after all before it ran out of memory. */
  lemma {:induction false} PictureIff(tile: nat, pass: nat -> Pass)
    ensures Expected(tile, pass).Upscaled? <==> exists k: nat :: FirstToFit(tile, pass, k)
    ensures forall k: nat | FirstToFit(tile, pass, k) :: Expected(tile, pass) == Upscaled(TileAt(tile, k))
    decreases tile
  {
    if pass(tile).Fits? {
      assert FirstToFit(tile, pass, 0);
    }
    if pass(tile).OutOfMemory? && tile > MIN_TILE {
      PictureIff(Smaller(tile), pass);
      if k: nat :| FirstToFit(Smaller(tile), pass, k) {
        NextToFit(tile, pass, k + 1);
      }
    }
    forall k: nat | FirstToFit(tile, pass, k) ensures Expected(tile, pass) == Upscaled(TileAt(tile, k)) {
      assert k > 0 ==> TileAt(tile, 0) == tile;
      if k > 0 {
        NextToFit(tile, pass, k);
      }
    }
  }

  lemma {:induction false} NextToFit(tile: nat, pass: nat -> Pass, k: nat)
    requires tile > MIN_TILE && pass(tile).OutOfMemory? && k > 0
    ensures FirstToFit(tile, pass, k) <==> FirstToFit(Smaller(tile), pass, k - 1)
  {
    assert TileAt(tile, 0) == tile;
    if FirstToFit(tile, pass, k) {
      forall j: nat | j < k - 1
        ensures TileAt(Smaller(tile), j) > MIN_TILE && pass(TileAt(Smaller(tile), j)).OutOfMemory?
      {
        assert TileAt(tile, j + 1) == TileAt(Smaller(tile), j);
      }
    }
    if FirstToFit(Smaller(tile), pass, k - 1) {
      forall j: nat | j < k ensures TileAt(tile, j) > MIN_TILE && pass(TileAt(tile, j)).OutOfMemory? {
        assert j > 0 ==> TileAt(tile, j) == TileAt(Smaller(tile), j - 1);
      }
    }
  }

  /** It gives up for memory only when the smallest tile tried did not fit. */
  lemma {:induction false} GivesUpOnlyAtSmallest(tile: nat, pass: nat -> Pass)
    requires Expected(tile, pass) == OutOfMemoryAtSmallest
    ensures exists smallest: nat :: smallest <= MIN_TILE && smallest <= tile && pass(smallest).OutOfMemory?
    ensures tile >= MIN_TILE ==> pass(MIN_TILE).OutOfMemory?
    decreases tile
  {
    if tile > MIN_TILE {
      GivesUpOnlyAtSmallest(Smaller(tile), pass);
    }
  }

  /** The tile it ends with is no larger than asked, and no smaller than the smallest allowed unless it began so. */
  lemma {:induction false} EndsWithTile(tile: nat, pass: nat -> Pass)
    requires Expected(tile, pass).Upscaled?
    ensures var used := Expected(tile, pass).tile;
            used <= tile && (tile >= MIN_TILE ==> used >= MIN_TILE) && pass(used).Fits?
    decreases tile
  {
    if !pass(tile).Fits? {
      EndsWithTile(Smaller(tile), pass);
    }
  }
}
