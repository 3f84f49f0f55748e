/**
 * Chunk streaming of the sample game (gaymUWU.kt): the world is cut into 16 x 16-tile
 * chunks, the chunks within two of the player's chunk are drawn as grey rectangles on the
 * canvas, and the others are dropped.
 *
 * The grey level of a tile comes from fractal noise in floating point; here it is the
 * parameter `shade`, a function from a tile's world coordinates to its colour.
 */
module ChunkStreaming {
  import opened Render

  const ChunkSize := 16
  /** Edge of one tile on screen, in pixels. */
  const TileSize := 20
  const RenderDistance := 2
  const WorldSizeX := 500
  const WorldSizeY := 500

  /** The chunk a pixel coordinate lies in: `floor(p / (16 * 20.0))`. */
  function ChunkOf(p: int): (c: int)
    ensures ChunkSize * TileSize * c <= p < ChunkSize * TileSize * (c + 1)
  {
    p / (ChunkSize * TileSize)
  }

  lemma ChunkOfExamples()
    ensures ChunkOf(0) == 0 && ChunkOf(319) == 0 && ChunkOf(320) == 1 && ChunkOf(-1) == -1
  {
  }

  /** `loadChunk` skips a tile beyond the world's far edges; there is no check on the near edges. */
  predicate InWorld(t: (int, int))
  {
    !(t.0 > WorldSizeX || t.1 > WorldSizeY)
  }

  /** The tile at column `x`, row `y` of chunk c. */
  function TileOf(c: (int, int), x: int, y: int): (int, int)
  {
    (c.0 * ChunkSize + x, c.1 * ChunkSize + y)
  }

  /** The tiles of column `x` of chunk c that the inner loop draws in its first `n` rounds. */
  function ColumnTiles(c: (int, int), x: int, n: nat): seq<(int, int)>
  {
    if n == 0 then []
    else ColumnTiles(c, x, n - 1) + (if InWorld(TileOf(c, x, n - 1)) then [TileOf(c, x, n - 1)] else [])
  }

  /** The tiles of chunk c that the outer loop draws in its first `n` rounds. */
  function ColumnsTiles(c: (int, int), n: nat): seq<(int, int)>
  {
    if n == 0 then [] else ColumnsTiles(c, n - 1) + ColumnTiles(c, n - 1, ChunkSize)
  }

  /** The tiles `loadChunk` draws for chunk c, in drawing order. */
  function ChunkTiles(c: (int, int)): seq<(int, int)>
  {
    ColumnsTiles(c, ChunkSize)
  }

  /** Tile t lies in chunk c. */
  predicate InChunk(t: (int, int), c: (int, int))
  {
    c.0 * ChunkSize <= t.0 < c.0 * ChunkSize + ChunkSize && c.1 * ChunkSize <= t.1 < c.1 * ChunkSize + ChunkSize
  }

  /** Tile s comes before tile t column by column, row by row. */
  predicate Before(s: (int, int), t: (int, int))
  {
    s.0 < t.0 || (s.0 == t.0 && s.1 < t.1)
  }

  predicate Ascending(s: seq<(int, int)>)
  {
    forall i, j :: 0 <= i < j < |s| ==> Before(s[i], s[j])
  }

  /** Two ascending runs, the first wholly before the second, make one ascending run. */
  lemma AscendingConcat(s: seq<(int, int)>, t: seq<(int, int)>)
    requires Ascending(s) && Ascending(t)
    requires forall i, j :: 0 <= i < |s| && 0 <= j < |t| ==> Before(s[i], t[j])
    ensures Ascending(s + t)
  {
    forall i, j | 0 <= i < j < |s + t|
      ensures Before((s + t)[i], (s + t)[j])
    {
      if j < |s| {
        assert (s + t)[i] == s[i] && (s + t)[j] == s[j];
      } else if i < |s| {
        assert (s + t)[i] == s[i] && (s + t)[j] == t[j - |s|];
      } else {
        assert (s + t)[i] == t[i - |s|] && (s + t)[j] == t[j - |s|];
      }
    }
  }

  lemma {:induction false} ColumnTilesMembers(c: (int, int), x: int, n: nat, t: (int, int))
    ensures t in ColumnTiles(c, x, n) <==>
      t.0 == c.0 * ChunkSize + x && c.1 * ChunkSize <= t.1 < c.1 * ChunkSize + n && InWorld(t)
    ensures |ColumnTiles(c, x, n)| <= n
  {
    if n > 0 {
      ColumnTilesMembers(c, x, n - 1, t);
    }
  }

  lemma {:induction false} ColumnTilesAscending(c: (int, int), x: int, n: nat)
    ensures Ascending(ColumnTiles(c, x, n))
  {
    if n > 0 {
      ColumnTilesAscending(c, x, n - 1);
      var s := ColumnTiles(c, x, n - 1);
      var last := TileOf(c, x, n - 1);
      forall i | 0 <= i < |s|
        ensures Before(s[i], last)
      {
        ColumnTilesMembers(c, x, n - 1, s[i]);
      }
      AscendingConcat(s, if InWorld(last) then [last] else []);
    }
  }

  lemma {:induction false} ColumnsTilesMembers(c: (int, int), n: nat, t: (int, int))
    ensures t in ColumnsTiles(c, n) <==>
      c.0 * ChunkSize <= t.0 < c.0 * ChunkSize + n && c.1 * ChunkSize <= t.1 < c.1 * ChunkSize + ChunkSize && InWorld(t)
  {
    if n > 0 {
      ColumnsTilesMembers(c, n - 1, t);
      ColumnTilesMembers(c, n - 1, ChunkSize, t);
      var s, col := ColumnsTiles(c, n - 1), ColumnTiles(c, n - 1, ChunkSize);
      assert t in s + col <==> t in s || t in col;
    }
  }

  lemma {:induction false} ColumnsTilesSize(c: (int, int), n: nat)
    ensures |ColumnsTiles(c, n)| <= ChunkSize * n
  {
    if n > 0 {
      ColumnsTilesSize(c, n - 1);
      ColumnTilesMembers(c, n - 1, ChunkSize, c);
    }
  }

  lemma {:induction false} ColumnsTilesAscending(c: (int, int), n: nat)
    ensures Ascending(ColumnsTiles(c, n))
  {
    if n > 0 {
      ColumnsTilesAscending(c, n - 1);
      ColumnTilesAscending(c, n - 1, ChunkSize);
      var s, col := ColumnsTiles(c, n - 1), ColumnTiles(c, n - 1, ChunkSize);
      var edge := c.0 * ChunkSize + (n - 1);
      forall i | 0 <= i < |s|
        ensures s[i].0 < edge
      {
        ColumnsTilesMembers(c, n - 1, s[i]);
      }
      forall j | 0 <= j < |col|
        ensures col[j].0 == edge
      {
        ColumnTilesMembers(c, n - 1, ChunkSize, col[j]);
      }
      AscendingConcat(s, col);
    }
  }

  /**
   * A chunk draws exactly its own tiles that lie inside the world, at most 256 of them,
   * each once and in column-major order.
   */
  lemma ChunkTilesMembers(c: (int, int), t: (int, int))
    ensures t in ChunkTiles(c) <==> InChunk(t, c) && InWorld(t)
    ensures |ChunkTiles(c)| <= ChunkSize * ChunkSize
    ensures Ascending(ChunkTiles(c))
  {
    ColumnsTilesMembers(c, ChunkSize, t);
    ColumnsTilesSize(c, ChunkSize);
    ColumnsTilesAscending(c, ChunkSize);
  }

  /** A chunk whose far corner lies inside the world. */
  predicate InsideWorld(c: (int, int))
  {
    InWorld(TileOf(c, ChunkSize - 1, ChunkSize - 1))
  }

  lemma {:induction false} FullColumn(c: (int, int), x: int, n: nat)
    requires InsideWorld(c) && x < ChunkSize && n <= ChunkSize
    ensures |ColumnTiles(c, x, n)| == n
  {
    if n > 0 {
      FullColumn(c, x, n - 1);
    }
  }

  lemma {:induction false} FullColumns(c: (int, int), n: nat)
    requires InsideWorld(c) && n <= ChunkSize
    ensures |ColumnsTiles(c, n)| == ChunkSize * n
  {
    if n > 0 {
      FullColumns(c, n - 1);
      FullColumn(c, n - 1, ChunkSize);
    }
  }

  /** A chunk inside the world draws all 256 of its tiles. */
  lemma FullChunk(c: (int, int))
    requires InsideWorld(c)
    ensures |ChunkTiles(c)| == ChunkSize * ChunkSize
  {
    FullColumns(c, ChunkSize);
  }

  /** The handles `loadChunk` collects when the canvas hands out ids from `base` on: n consecutive ids. */
  function Handles(base: int, n: nat): (r: seq<int>)
    ensures |r| == n && forall k :: 0 <= k < n ==> r[k] == base + k
  {
    seq(n, k => base + k)
  }

  /** Two runs of consecutive handles, the second starting where the first ends, make one run. */
  lemma HandlesAppend(base: int, m: nat, n: nat)
    ensures Handles(base, m) + Handles(base + m, n) == Handles(base, m + n)
  {
    var joined := Handles(base, m) + Handles(base + m, n);
    assert forall k :: 0 <= k < m + n ==> joined[k] == base + k;
  }

  /** The streaming state of the game: which chunks are drawn, and the canvas ids of their tiles. */
  class ChunkStreamer {
    var loadedChunks: set<(int, int)>
    var tileElements: map<(int, int), seq<int>>
    const canvas: GraphicsCanvas
    /** The fill and outline colour of a tile: grey at the tile's fractal-noise level. */
    const shade: ((int, int)) -> Color

    /** The rectangle drawn for tile t under id `id`: a filled square in the tile's shade. */
    function TileRect(t: (int, int), id: int): (r: RectElement)
      ensures r.id == id && r.width == TileSize && r.height == TileSize
      ensures r.isFilled && r.fillColor == r.outlineColor == shade(t) && r.strokeWidth == 1.0
    {
      RectElement(t.0 * TileSize, t.1 * TileSize, TileSize, TileSize, shade(t), true, shade(t), 1.0, id)
    }

    /**
     * The square of tile t covers exactly the pixels whose tile, by flooring division by the
     * tile size, is t; so the squares of different tiles never overlap.
     */
    lemma TileRectCoversTile(t: (int, int), id: int, px: int, py: int)
      ensures var r := TileRect(t, id);
        r.x <= px < r.x + r.width && r.y <= py < r.y + r.height <==> px / TileSize == t.0 && py / TileSize == t.1
    {
    }

    /** The rectangle table after `tiles` are drawn, one by one, into `rects` under the ids from `base` on. */
    function Drawn(rects: map<int, RectElement>, tiles: seq<(int, int)>, base: int): map<int, RectElement>
    {
      if tiles == [] then rects
      else
        var n := |tiles| - 1;
        Drawn(rects, tiles[..n], base)[base + n := TileRect(tiles[n], base + n)]
    }

    /** Drawing two runs of tiles is drawing their concatenation. */
    lemma {:induction false} DrawnAppend(rects: map<int, RectElement>, a: seq<(int, int)>, b: seq<(int, int)>, base: int)
      ensures Drawn(rects, a + b, base) == Drawn(Drawn(rects, a, base), b, base + |a|)
      decreases |b|
    {
      if b != [] {
        var n := |b| - 1;
        var ab := a + b;
        assert ab[..|ab| - 1] == a + b[..n] && ab[|ab| - 1] == b[n];
        DrawnAppend(rects, a, b[..n], base);
      } else {
        assert a + b == a;
      }
    }

    /**
     * Drawing `tiles` under fresh ids adds exactly the ids from `base` on, each holding the
     * rectangle of its tile, and keeps every older entry.
     */
    lemma {:induction false} DrawnTable(rects: map<int, RectElement>, tiles: seq<(int, int)>, base: int)
      requires forall id :: id in rects ==> id < base
      ensures forall id :: id in Drawn(rects, tiles, base) <==> id in rects || base <= id < base + |tiles|
      ensures forall id :: id in rects ==> Drawn(rects, tiles, base)[id] == rects[id]
      ensures forall k :: 0 <= k < |tiles| ==> Drawn(rects, tiles, base)[base + k] == TileRect(tiles[k], base + k)
      decreases |tiles|
    {
      if tiles != [] {
        var n := |tiles| - 1;
        DrawnTable(rects, tiles[..n], base);
      }
    }

    /** The handles `ids` of chunk c point at the rectangles of its tiles in `rects`, in drawing order. */
    ghost predicate ChunkDrawn(ids: seq<int>, c: (int, int), rects: map<int, RectElement>)
    {
      && |ids| == |ChunkTiles(c)|
      && forall k :: 0 <= k < |ids| ==> ids[k] in rects && rects[ids[k]] == TileRect(ChunkTiles(c)[k], ids[k])
    }

    /** Every chunk of `tiles` is drawn in `rects`. */
    ghost predicate AllDrawn(tiles: map<(int, int), seq<int>>, rects: map<int, RectElement>)
    {
      forall c {:trigger ChunkDrawn(tiles[c], c, rects)} :: c in tiles ==> ChunkDrawn(tiles[c], c, rects)
    }

    ghost predicate Valid()
      reads this, canvas
    {
      && canvas.Valid()
      && loadedChunks == tileElements.Keys
      && AllDrawn(tileElements, canvas.rectElements)
      && HandlesDisjoint(tileElements)
    }

    /** Drawing a new chunk under ids from `base` on, above every id in use, keeps every chunk drawn. */
    lemma DrawnAfterLoad(tiles: map<(int, int), seq<int>>, rects: map<int, RectElement>, c: (int, int), base: int)
      requires AllDrawn(tiles, rects) && c !in tiles
      requires forall id :: id in rects ==> id < base
      ensures AllDrawn(tiles[c := Handles(base, |ChunkTiles(c)|)], Drawn(rects, ChunkTiles(c), base))
    {
      DrawnTable(rects, ChunkTiles(c), base);
      var tiles', rects' := tiles[c := Handles(base, |ChunkTiles(c)|)], Drawn(rects, ChunkTiles(c), base);
      forall d | d in tiles'
        ensures ChunkDrawn(tiles'[d], d, rects')
      {
        if d != c {
          assert ChunkDrawn(tiles[d], d, rects);
        }
      }
    }

    /** Drawing a new chunk c under ids from `base` on, above every id in use, only adds the rectangles of c. */
    lemma GrewAfterLoad(tiles: map<(int, int), seq<int>>, rects: map<int, RectElement>, c: (int, int), base: int)
      requires c !in tiles
      requires forall id :: id in rects ==> id < base
      ensures Grew(tiles, rects, base, tiles[c := Handles(base, |ChunkTiles(c)|)], Drawn(rects, ChunkTiles(c), base), base + |ChunkTiles(c)|)
    {
      DrawnTable(rects, ChunkTiles(c), base);
      var rects', tiles' := Drawn(rects, ChunkTiles(c), base), tiles[c := Handles(base, |ChunkTiles(c)|)];
      forall id | id in rects' && id !in rects
        ensures c in tiles' && c !in tiles.Keys && id in tiles'[c]
      {
        assert tiles'[c][id - base] == id;
      }
    }

    /** The handles of a new chunk, all at `base` or above, are disjoint from those in use. */
    lemma DisjointAfterLoad(tiles: map<(int, int), seq<int>>, rects: map<int, RectElement>, c: (int, int), base: int)
      requires AllDrawn(tiles, rects) && HandlesDisjoint(tiles) && c !in tiles
      requires forall id :: id in rects ==> id < base
      ensures HandlesDisjoint(tiles[c := Handles(base, |ChunkTiles(c)|)])
    {
      forall d, k | d in tiles && 0 <= k < |tiles[d]|
        ensures tiles[d][k] < base
      {
        assert ChunkDrawn(tiles[d], d, rects);
      }
    }

    /**
     * Forgetting chunk c and removing some of its ids from the canvas keeps the other chunks
     * drawn: no other chunk shares those ids.
     */
    lemma DrawnAfterUnload(tiles: map<(int, int), seq<int>>, rects: map<int, RectElement>, c: (int, int), removed: set<int>)
      requires AllDrawn(tiles, rects) && HandlesDisjoint(tiles) && c in tiles
      requires forall id :: id in removed ==> id in tiles[c]
      ensures AllDrawn(tiles - {c}, rects - removed) && HandlesDisjoint(tiles - {c})
    {
      forall d | d in tiles - {c}
        ensures ChunkDrawn(tiles[d], d, rects - removed)
      {
        assert ChunkDrawn(tiles[d], d, rects);
      }
    }

    constructor (canvas: GraphicsCanvas, shade: ((int, int)) -> Color)
      requires canvas.Valid()
      ensures Valid() && this.canvas == canvas && this.shade == shade
      ensures loadedChunks == {} && tileElements == map[]
    {
      this.canvas, this.shade := canvas, shade;
      loadedChunks, tileElements := {}, map[];
    }

    /** The two nested loops of `loadChunk`: one rectangle per in-world tile of chunk c. */
    method DrawChunk(c: (int, int)) returns (elements: seq<int>)
      requires canvas.Valid()
      modifies canvas
      ensures canvas.Valid()
      ensures elements == Handles(old(canvas.nextId), |ChunkTiles(c)|)
      ensures canvas.nextId == old(canvas.nextId) + |ChunkTiles(c)|
      ensures canvas.rectElements == Drawn(old(canvas.rectElements), ChunkTiles(c), old(canvas.nextId))
      ensures canvas.textElements == old(canvas.textElements) && canvas.imageElements == old(canvas.imageElements)
      ensures canvas.animations == old(canvas.animations) && canvas.images == old(canvas.images)
      ensures canvas.loads == old(canvas.loads) && canvas.clearColor == old(canvas.clearColor)
    {
      elements := [];
      ghost var drawn: seq<(int, int)> := [];
      var x := 0;
      while x < ChunkSize
        invariant 0 <= x <= ChunkSize
        invariant drawn == ColumnsTiles(c, x)
        invariant Drawing(old(canvas.nextId), old(canvas.rectElements), drawn, elements)
        invariant canvas.textElements == old(canvas.textElements) && canvas.imageElements == old(canvas.imageElements)
        invariant canvas.animations == old(canvas.animations) && canvas.images == old(canvas.images)
        invariant canvas.loads == old(canvas.loads) && canvas.clearColor == old(canvas.clearColor)
      {
        var column := DrawColumn(c, x);
        DrawnAppend(old(canvas.rectElements), drawn, ColumnTiles(c, x, ChunkSize), old(canvas.nextId));
        HandlesAppend(old(canvas.nextId), |drawn|, |column|);
        elements := elements + column;
        drawn := drawn + ColumnTiles(c, x, ChunkSize);
        assert canvas.rectElements == Drawn(old(canvas.rectElements), drawn, old(canvas.nextId));
        x := x + 1;
      }
    }

    /** The inner loop of `loadChunk`: the in-world tiles of column x of chunk c, top to bottom. */
    method DrawColumn(c: (int, int), x: int) returns (elements: seq<int>)
      requires canvas.Valid()
      modifies canvas
      ensures canvas.Valid()
      ensures elements == Handles(old(canvas.nextId), |ColumnTiles(c, x, ChunkSize)|)
      ensures canvas.nextId == old(canvas.nextId) + |ColumnTiles(c, x, ChunkSize)|
      ensures canvas.rectElements == Drawn(old(canvas.rectElements), ColumnTiles(c, x, ChunkSize), old(canvas.nextId))
      ensures canvas.textElements == old(canvas.textElements) && canvas.imageElements == old(canvas.imageElements)
      ensures canvas.animations == old(canvas.animations) && canvas.images == old(canvas.images)
      ensures canvas.loads == old(canvas.loads) && canvas.clearColor == old(canvas.clearColor)
    {
      elements := [];
      ghost var drawn: seq<(int, int)> := [];
      var y := 0;
      while y < ChunkSize
        invariant 0 <= y <= ChunkSize
        invariant drawn == ColumnTiles(c, x, y)
        invariant Drawing(old(canvas.nextId), old(canvas.rectElements), drawn, elements)
        invariant canvas.textElements == old(canvas.textElements) && canvas.imageElements == old(canvas.imageElements)
        invariant canvas.animations == old(canvas.animations) && canvas.images == old(canvas.images)
        invariant canvas.loads == old(canvas.loads) && canvas.clearColor == old(canvas.clearColor)
      {
        var worldX := c.0 * ChunkSize + x;
        var worldY := c.1 * ChunkSize + y;
        if !(worldX > WorldSizeX || worldY > WorldSizeY) {
          var tile := (worldX, worldY);
          var id := canvas.DrawRect(worldX * TileSize, worldY * TileSize, TileSize, TileSize, shade(tile), true, shade(tile), 1.0);
          assert (drawn + [tile])[..|drawn|] == drawn;
          elements := elements + [id];
          drawn := drawn + [tile];
        }
        y := y + 1;
      }
    }

    /** The canvas holds the rectangles of `drawn` under consecutive ids from `base` on, and nothing else new. */
    ghost predicate Drawing(base: int, rects: map<int, RectElement>, drawn: seq<(int, int)>, elements: seq<int>)
      reads this, canvas
    {
      && canvas.Valid()
      && canvas.nextId == base + |drawn|
      && elements == Handles(base, |drawn|)
      && canvas.rectElements == Drawn(rects, drawn, base)
    }

    /** `loadChunk`: draws the chunk's tiles and records their ids, unless the chunk is already loaded. */
    method LoadChunk(chunkX: int, chunkY: int)
      requires Valid()
      modifies this, canvas
      ensures Valid()
      ensures (chunkX, chunkY) in old(loadedChunks) ==>
        && loadedChunks == old(loadedChunks) && tileElements == old(tileElements)
        && canvas.nextId == old(canvas.nextId) && canvas.rectElements == old(canvas.rectElements)
      ensures (chunkX, chunkY) !in old(loadedChunks) ==>
        && loadedChunks == old(loadedChunks) + {(chunkX, chunkY)}
        && tileElements == old(tileElements)[(chunkX, chunkY) := Handles(old(canvas.nextId), |ChunkTiles((chunkX, chunkY))|)]
        && canvas.nextId == old(canvas.nextId) + |ChunkTiles((chunkX, chunkY))|
        && canvas.rectElements == Drawn(old(canvas.rectElements), ChunkTiles((chunkX, chunkY)), old(canvas.nextId))
      ensures loadedChunks == old(loadedChunks) + {(chunkX, chunkY)}
      ensures Grew(old(tileElements), old(canvas.rectElements), old(canvas.nextId), tileElements, canvas.rectElements, canvas.nextId)
      ensures canvas.textElements == old(canvas.textElements) && canvas.imageElements == old(canvas.imageElements)
      ensures canvas.images == old(canvas.images) && canvas.loads == old(canvas.loads) && canvas.clearColor == old(canvas.clearColor)
      ensures canvas.animations == old(canvas.animations)
    {
      var c := (chunkX, chunkY);
      if c in loadedChunks {
        return;
      }
      ghost var base := canvas.nextId;
      DrawnAfterLoad(tileElements, canvas.rectElements, c, base);
      DisjointAfterLoad(tileElements, canvas.rectElements, c, base);
      GrewAfterLoad(tileElements, canvas.rectElements, c, base);
      var elements := DrawChunk(c);
      tileElements := tileElements[c := elements];
      loadedChunks := loadedChunks + {c};
    }

    /**
     * `unloadChunk` as written: the chunk is forgotten at once, and the removal of its
     * rectangles is deferred to a block that looks the chunk's ids up only when it runs, by
     * which time the entry is gone; the block finds nothing and every rectangle stays drawn.
     */
    method UnloadChunk(chunkX: int, chunkY: int)
      requires Valid()
      modifies this, canvas
      ensures Valid()
      ensures loadedChunks == old(loadedChunks) - {(chunkX, chunkY)}
      ensures tileElements == old(tileElements) - {(chunkX, chunkY)}
      ensures canvas.rectElements == old(canvas.rectElements) && canvas.nextId == old(canvas.nextId)
      ensures canvas.textElements == old(canvas.textElements) && canvas.imageElements == old(canvas.imageElements)
      ensures canvas.images == old(canvas.images) && canvas.loads == old(canvas.loads) && canvas.clearColor == old(canvas.clearColor)
      ensures canvas.animations == old(canvas.animations)
    {
      var c := (chunkX, chunkY);
      if c !in loadedChunks {
        return;
      }
      tileElements := tileElements - {c};
      loadedChunks := loadedChunks - {c};
      DrawnAfterUnload(old(tileElements), old(canvas.rectElements), c, {});
      // the deferred block, run after the removal above
      RemoveTiles(DeferredLookup(tileElements, c));
      assert Ids([]) == {};
    }

    /**
     * `unloadChunk` with the chunk's ids taken before the entry is removed, so that the
     * deferred block deletes exactly the chunk's rectangles.
     */
    method UnloadChunkFixed(chunkX: int, chunkY: int)
      requires Valid()
      modifies this, canvas
      ensures Valid()
      ensures loadedChunks == old(loadedChunks) - {(chunkX, chunkY)}
      ensures tileElements == old(tileElements) - {(chunkX, chunkY)}
      ensures canvas.rectElements == old(canvas.rectElements) - Ids(DeferredLookup(old(tileElements), (chunkX, chunkY)))
      ensures forall id :: id in canvas.rectElements ==> id in old(canvas.rectElements)
      ensures (chunkX, chunkY) in old(tileElements) ==>
        forall id :: id in old(tileElements)[(chunkX, chunkY)] ==> id !in canvas.rectElements
      ensures canvas.textElements == old(canvas.textElements) && canvas.imageElements == old(canvas.imageElements)
      ensures canvas.images == old(canvas.images) && canvas.loads == old(canvas.loads) && canvas.clearColor == old(canvas.clearColor)
      ensures canvas.animations == old(canvas.animations) && canvas.nextId == old(canvas.nextId)
    {
      var c := (chunkX, chunkY);
      if c !in loadedChunks {
        return;
      }
      var elements := DeferredLookup(tileElements, c);
      DrawnAfterUnload(tileElements, canvas.rectElements, c, Ids(elements));
      assert ChunkDrawn(elements, c, canvas.rectElements);
      tileElements := tileElements - {c};
      loadedChunks := loadedChunks - {c};
      RemoveTiles(elements);
    }

    /** `canvas.removeElement` for each of `ids`, in order; every id was drawn as a rectangle. */
    method RemoveTiles(ids: seq<int>)
      requires canvas.Valid()
      requires forall k :: 0 <= k < |ids| ==> ids[k] in canvas.rectElements
      modifies canvas
      ensures canvas.Valid()
      ensures canvas.rectElements == old(canvas.rectElements) - Ids(ids)
      ensures canvas.textElements == old(canvas.textElements) && canvas.imageElements == old(canvas.imageElements)
      ensures canvas.images == old(canvas.images) && canvas.loads == old(canvas.loads) && canvas.clearColor == old(canvas.clearColor)
      ensures canvas.animations == old(canvas.animations) && canvas.nextId == old(canvas.nextId)
    {
      for i := 0 to |ids|
        invariant canvas.Valid()
        invariant canvas.rectElements == old(canvas.rectElements) - Ids(ids[..i])
        invariant canvas.textElements == old(canvas.textElements) && canvas.imageElements == old(canvas.imageElements)
        invariant canvas.images == old(canvas.images) && canvas.loads == old(canvas.loads) && canvas.clearColor == old(canvas.clearColor)
        invariant canvas.animations == old(canvas.animations) && canvas.nextId == old(canvas.nextId)
      {
        assert ids[i] in old(canvas.rectElements);
        var _ := canvas.RemoveElement(ids[i]);
        assert Ids(ids[..i + 1]) == Ids(ids[..i]) + {ids[i]};
      }
      assert ids[..|ids|] == ids;
    }

    /** The nested loops of `updateChunks`: every chunk within `RenderDistance` of `center` is loaded. */
    method LoadAround(center: (int, int))
      requires Valid()
      modifies this, canvas
      ensures Valid()
      ensures forall c :: c in loadedChunks <==> c in old(loadedChunks) || Near(c, center)
      ensures (forall c :: Near(c, center) ==> c in old(loadedChunks)) ==>
        canvas.nextId == old(canvas.nextId) && canvas.rectElements == old(canvas.rectElements)
      ensures Grew(old(tileElements), old(canvas.rectElements), old(canvas.nextId), tileElements, canvas.rectElements, canvas.nextId)
      ensures canvas.textElements == old(canvas.textElements) && canvas.imageElements == old(canvas.imageElements)
      ensures canvas.images == old(canvas.images) && canvas.loads == old(canvas.loads) && canvas.clearColor == old(canvas.clearColor)
      ensures canvas.animations == old(canvas.animations)
    {
      var x := -RenderDistance;
      while x <= RenderDistance
        invariant -RenderDistance <= x <= RenderDistance + 1
        invariant Valid()
        invariant forall c :: c in loadedChunks <==> c in old(loadedChunks) || Swept(c, center, x, RenderDistance + 1)
        invariant Grew(old(tileElements), old(canvas.rectElements), old(canvas.nextId), tileElements, canvas.rectElements, canvas.nextId)
        invariant canvas.textElements == old(canvas.textElements) && canvas.imageElements == old(canvas.imageElements)
        invariant canvas.images == old(canvas.images) && canvas.loads == old(canvas.loads) && canvas.clearColor == old(canvas.clearColor)
        invariant canvas.animations == old(canvas.animations)
      {
        ghost var tiles, rects, base := tileElements, canvas.rectElements, canvas.nextId;
        LoadColumn(center, x);
        GrewTrans(old(tileElements), old(canvas.rectElements), old(canvas.nextId), tiles, rects, base, tileElements, canvas.rectElements, canvas.nextId);
        x := x + 1;
      }
      if forall c :: Near(c, center) ==> c in old(loadedChunks) {
        assert tileElements.Keys <= old(tileElements).Keys;
      }
    }

    /** The inner loop of `updateChunks`: the chunks of column `center.0 + x` within `RenderDistance` rows are loaded. */
    method LoadColumn(center: (int, int), x: int)
      requires Valid()
      modifies this, canvas
      ensures Valid()
      ensures forall c :: c in loadedChunks <==> c in old(loadedChunks) || InColumn(c, center, x, RenderDistance + 1)
      ensures Grew(old(tileElements), old(canvas.rectElements), old(canvas.nextId), tileElements, canvas.rectElements, canvas.nextId)
      ensures canvas.textElements == old(canvas.textElements) && canvas.imageElements == old(canvas.imageElements)
      ensures canvas.images == old(canvas.images) && canvas.loads == old(canvas.loads) && canvas.clearColor == old(canvas.clearColor)
      ensures canvas.animations == old(canvas.animations)
    {
      var y := -RenderDistance;
      while y <= RenderDistance
        invariant -RenderDistance <= y <= RenderDistance + 1
        invariant Valid()
        invariant forall c :: c in loadedChunks <==> c in old(loadedChunks) || InColumn(c, center, x, y)
        invariant Grew(old(tileElements), old(canvas.rectElements), old(canvas.nextId), tileElements, canvas.rectElements, canvas.nextId)
        invariant canvas.textElements == old(canvas.textElements) && canvas.imageElements == old(canvas.imageElements)
        invariant canvas.images == old(canvas.images) && canvas.loads == old(canvas.loads) && canvas.clearColor == old(canvas.clearColor)
        invariant canvas.animations == old(canvas.animations)
      {
        ghost var tiles, rects, base, loaded := tileElements, canvas.rectElements, canvas.nextId, loadedChunks;
        LoadChunk(center.0 + x, center.1 + y);
        InColumnStep(old(loadedChunks), loaded, loadedChunks, center, x, y);
        GrewTrans(old(tileElements), old(canvas.rectElements), old(canvas.nextId), tiles, rects, base, tileElements, canvas.rectElements, canvas.nextId);
        y := y + 1;
      }
    }

    /**
     * The end of `updateChunks`: every loaded chunk farther than `RenderDistance` from `center`
     * is unloaded with `unloadChunk` as written, so every rectangle stays on the canvas.
     */
    method DropFarChunks(center: (int, int))
      requires Valid()
      modifies this, canvas
      ensures Valid()
      ensures forall c :: c in loadedChunks <==> c in old(loadedChunks) && Near(c, center)
      ensures forall c :: c in loadedChunks ==> tileElements[c] == old(tileElements)[c]
      ensures canvas.rectElements == old(canvas.rectElements) && canvas.nextId == old(canvas.nextId)
      ensures canvas.textElements == old(canvas.textElements) && canvas.imageElements == old(canvas.imageElements)
      ensures canvas.images == old(canvas.images) && canvas.loads == old(canvas.loads) && canvas.clearColor == old(canvas.clearColor)
      ensures canvas.animations == old(canvas.animations)
    {
      var toRemove := set c | c in loadedChunks && !Near(c, center);
      while toRemove != {}
        invariant toRemove <= loadedChunks <= old(loadedChunks)
        invariant forall c :: c in toRemove ==> !Near(c, center)
        invariant Valid()
        invariant forall c :: c in loadedChunks <==> c in toRemove || (c in old(loadedChunks) && Near(c, center))
        invariant forall c :: c in loadedChunks ==> tileElements[c] == old(tileElements)[c]
        invariant canvas.rectElements == old(canvas.rectElements) && canvas.nextId == old(canvas.nextId)
        invariant canvas.textElements == old(canvas.textElements) && canvas.imageElements == old(canvas.imageElements)
        invariant canvas.images == old(canvas.images) && canvas.loads == old(canvas.loads) && canvas.clearColor == old(canvas.clearColor)
        invariant canvas.animations == old(canvas.animations)
        decreases |toRemove|
      {
        var c :| c in toRemove;
        UnloadChunk(c.0, c.1);
        toRemove := toRemove - {c};
      }
    }

    /**
     * `DropFarChunks` with the corrected unload: the rectangles of every dropped chunk leave the
     * canvas, and every other rectangle stays.
     */
    method DropFarChunksFixed(center: (int, int))
      requires Valid()
      modifies this, canvas
      ensures Valid()
      ensures forall c :: c in loadedChunks <==> c in old(loadedChunks) && Near(c, center)
      ensures forall c :: c in loadedChunks ==> tileElements[c] == old(tileElements)[c]
      ensures forall c, id :: c in old(tileElements) && !Near(c, center) && id in old(tileElements)[c] ==>
        id !in canvas.rectElements
      ensures KeptRects(canvas.rectElements, old(canvas.rectElements))
      ensures forall id :: id in old(canvas.rectElements) && Unowned(id, old(tileElements)) ==>
        id in canvas.rectElements && canvas.rectElements[id] == old(canvas.rectElements)[id]
      ensures canvas.nextId == old(canvas.nextId)
      ensures canvas.textElements == old(canvas.textElements) && canvas.imageElements == old(canvas.imageElements)
      ensures canvas.images == old(canvas.images) && canvas.loads == old(canvas.loads) && canvas.clearColor == old(canvas.clearColor)
      ensures canvas.animations == old(canvas.animations)
    {
      var toRemove := set c | c in loadedChunks && !Near(c, center);
      while toRemove != {}
        invariant Valid()
        invariant Dropping(center, old(tileElements), old(canvas.rectElements), toRemove, tileElements, canvas.rectElements)
        invariant canvas.nextId == old(canvas.nextId)
        invariant canvas.textElements == old(canvas.textElements) && canvas.imageElements == old(canvas.imageElements)
        invariant canvas.images == old(canvas.images) && canvas.loads == old(canvas.loads) && canvas.clearColor == old(canvas.clearColor)
        invariant canvas.animations == old(canvas.animations)
        decreases |toRemove|
      {
        var c :| c in toRemove;
        DroppingStep(center, old(tileElements), old(canvas.rectElements), toRemove, tileElements, canvas.rectElements, c);
        UnloadChunkFixed(c.0, c.1);
        toRemove := toRemove - {c};
      }
    }

    /**
     * `updateChunks` as written, with the player at pixel (playerX, playerY): afterwards exactly
     * the chunks within `RenderDistance` of the player's chunk are loaded and chunks that stay
     * keep their handles. No rectangle leaves the canvas, not even those of dropped chunks; every
     * new rectangle is a tile of a chunk loaded by this call; and when no chunk had to be loaded
     * the canvas is unchanged.
     */
    method UpdateChunks(playerX: int, playerY: int)
      requires Valid()
      modifies this, canvas
      ensures Valid()
      ensures forall c :: c in loadedChunks <==> Near(c, (ChunkOf(playerX), ChunkOf(playerY)))
      ensures forall c :: c in loadedChunks && c in old(loadedChunks) ==> tileElements[c] == old(tileElements)[c]
      ensures KeptRects(old(canvas.rectElements), canvas.rectElements)
      ensures NewRectsOwned(old(canvas.rectElements), canvas.rectElements, tileElements, old(loadedChunks))
      ensures (forall c :: Near(c, (ChunkOf(playerX), ChunkOf(playerY))) ==> c in old(loadedChunks)) ==>
        canvas.nextId == old(canvas.nextId) && canvas.rectElements == old(canvas.rectElements)
      ensures canvas.textElements == old(canvas.textElements) && canvas.imageElements == old(canvas.imageElements)
      ensures canvas.images == old(canvas.images) && canvas.loads == old(canvas.loads) && canvas.clearColor == old(canvas.clearColor)
      ensures canvas.animations == old(canvas.animations)
    {
      var center := (ChunkOf(playerX), ChunkOf(playerY));
      LoadAround(center);
      ghost var loaded := tileElements;
      DropFarChunks(center);
      forall id | id in canvas.rectElements && id !in old(canvas.rectElements)
        ensures exists c :: c in tileElements && c !in old(loadedChunks) && id in tileElements[c]
      {
        var c :| c in loaded && c !in old(loadedChunks) && id in loaded[c];
        assert c in tileElements && tileElements[c] == loaded[c];
      }
    }

    /**
     * `UpdateChunks` with the corrected unload: the same chunks are loaded, the rectangles of
     * dropped chunks are gone, and every rectangle no chunk owned, such as the player's, stays.
     */
    method UpdateChunksFixed(playerX: int, playerY: int)
      requires Valid()
      modifies this, canvas
      ensures Valid()
      ensures forall c :: c in loadedChunks <==> Near(c, (ChunkOf(playerX), ChunkOf(playerY)))
      ensures forall c :: c in loadedChunks && c in old(loadedChunks) ==> tileElements[c] == old(tileElements)[c]
      ensures forall c, id :: c in old(tileElements) && c !in loadedChunks && id in old(tileElements)[c] ==>
        id !in canvas.rectElements
      ensures forall id :: id in old(canvas.rectElements) && Unowned(id, old(tileElements)) ==>
        id in canvas.rectElements && canvas.rectElements[id] == old(canvas.rectElements)[id]
      ensures NewRectsOwned(old(canvas.rectElements), canvas.rectElements, tileElements, old(loadedChunks))
      ensures (forall c :: Near(c, (ChunkOf(playerX), ChunkOf(playerY))) ==> c in old(loadedChunks)) ==>
        canvas.nextId == old(canvas.nextId)
      ensures canvas.textElements == old(canvas.textElements) && canvas.imageElements == old(canvas.imageElements)
      ensures canvas.images == old(canvas.images) && canvas.loads == old(canvas.loads) && canvas.clearColor == old(canvas.clearColor)
      ensures canvas.animations == old(canvas.animations)
    {
      var center := (ChunkOf(playerX), ChunkOf(playerY));
      LoadAround(center);
      ghost var loaded := tileElements;
      ghost var drawn := canvas.rectElements;
      forall id | id in old(canvas.rectElements) && Unowned(id, old(tileElements))
        ensures Unowned(id, loaded)
      {
        forall c | c in loaded
          ensures id !in loaded[c]
        {
          assert id < old(canvas.nextId);
        }
      }
      DropFarChunksFixed(center);
      forall c, id | c in old(tileElements) && c !in loadedChunks && id in old(tileElements)[c]
        ensures id !in canvas.rectElements
      {
        assert loaded[c] == old(tileElements)[c];
      }
      forall id | id in canvas.rectElements && id !in old(canvas.rectElements)
        ensures exists c :: c in tileElements && c !in old(loadedChunks) && id in tileElements[c]
      {
        var c :| c in loaded && c !in old(loadedChunks) && id in loaded[c];
        assert c in tileElements && tileElements[c] == loaded[c];
      }
    }
  }

  /** Every rectangle of `before` is still in `after`, unchanged. */
  ghost predicate KeptRects(before: map<int, RectElement>, after: map<int, RectElement>)
  {
    forall id :: id in before ==> id in after && after[id] == before[id]
  }

  /** Every rectangle of `after` that `before` lacks is a tile of a chunk of `tiles` that was not in `loaded`. */
  ghost predicate NewRectsOwned(before: map<int, RectElement>, after: map<int, RectElement>,
                                tiles: map<(int, int), seq<int>>, loaded: set<(int, int)>)
  {
    forall id :: id in after && id !in before ==> exists c :: c in tiles && c !in loaded && id in tiles[c]
  }

  /** The handles of every chunk of `tiles` not in `loaded` were handed out from `base` on. */
  ghost predicate FreshHandles(tiles: map<(int, int), seq<int>>, loaded: set<(int, int)>, base: int)
  {
    forall c, id :: c in tiles && c !in loaded && id in tiles[c] ==> base <= id
  }

  /** No chunk of `tiles` owns `id`: the rectangle belongs to something else on the canvas, such as the player. */
  ghost predicate Unowned(id: int, tiles: map<(int, int), seq<int>>)
  {
    forall c :: c in tiles ==> id !in tiles[c]
  }

  /**
   * Loading chunks took the chunk table from `t0` to `t1`, the rectangle table from `r0` to `r1`
   * and the next id from `b0` to `b1`: every chunk of `t0` keeps its handles, no rectangle was
   * removed or changed, every new rectangle is a tile of a chunk new in `t1`, the handles of such
   * chunks were handed out from `b0` on, the next id did not go down, and when no chunk was
   * added nothing was drawn.
   */
  ghost predicate Grew(t0: map<(int, int), seq<int>>, r0: map<int, RectElement>, b0: int,
                       t1: map<(int, int), seq<int>>, r1: map<int, RectElement>, b1: int)
  {
    && (forall c :: c in t0 ==> c in t1 && t1[c] == t0[c])
    && KeptRects(r0, r1) && NewRectsOwned(r0, r1, t1, t0.Keys) && FreshHandles(t1, t0.Keys, b0)
    && b0 <= b1
    && (t1.Keys <= t0.Keys ==> r1 == r0 && b1 == b0)
  }

  /** Two rounds of loading compose into one. */
  lemma GrewTrans(t0: map<(int, int), seq<int>>, r0: map<int, RectElement>, b0: int,
                  t1: map<(int, int), seq<int>>, r1: map<int, RectElement>, b1: int,
                  t2: map<(int, int), seq<int>>, r2: map<int, RectElement>, b2: int)
    requires Grew(t0, r0, b0, t1, r1, b1) && Grew(t1, r1, b1, t2, r2, b2)
    ensures Grew(t0, r0, b0, t2, r2, b2)
  {
    OwnedTrans(r0, r1, r2, t1, t2, t0.Keys);
    FreshTrans(t1, t2, t0.Keys, b0, b1);
  }

  /**
   * Part way through `DropFarChunksFixed`, starting from chunks `t0` and rectangles `r0`: the far
   * chunks in `toRemove` are still loaded, the chunks already dropped have lost their rectangles,
   * and no other rectangle was removed or changed.
   */
  ghost predicate Dropping(center: (int, int), t0: map<(int, int), seq<int>>, r0: map<int, RectElement>,
                           toRemove: set<(int, int)>, tiles: map<(int, int), seq<int>>, rects: map<int, RectElement>)
  {
    && (forall c :: c in toRemove ==> !Near(c, center))
    && (forall c :: c in tiles <==> c in toRemove || (c in t0 && Near(c, center)))
    && (forall c :: c in tiles ==> c in t0 && tiles[c] == t0[c])
    && (forall c, id :: c in t0 && c !in tiles && id in t0[c] ==> id !in rects)
    && KeptRects(rects, r0)
    && (forall id :: id in r0 && Unowned(id, t0) ==> id in rects && rects[id] == r0[id])
  }

  /** Dropping one more far chunk, with its rectangles, keeps `Dropping`. */
  lemma DroppingStep(center: (int, int), t0: map<(int, int), seq<int>>, r0: map<int, RectElement>,
                     toRemove: set<(int, int)>, tiles: map<(int, int), seq<int>>, rects: map<int, RectElement>, c: (int, int))
    requires Dropping(center, t0, r0, toRemove, tiles, rects) && c in toRemove
    ensures Dropping(center, t0, r0, toRemove - {c}, tiles - {c}, rects - Ids(tiles[c]))
  {
  }

  /** Two rounds of loading compose: a rectangle new since the first round belongs to a chunk new since then. */
  lemma OwnedTrans(r0: map<int, RectElement>, r1: map<int, RectElement>, r2: map<int, RectElement>,
                   t1: map<(int, int), seq<int>>, t2: map<(int, int), seq<int>>, l0: set<(int, int)>)
    requires NewRectsOwned(r0, r1, t1, l0) && NewRectsOwned(r1, r2, t2, t1.Keys)
    requires l0 <= t1.Keys
    requires forall c :: c in t1 ==> c in t2 && t2[c] == t1[c]
    ensures NewRectsOwned(r0, r2, t2, l0)
  {
    forall id | id in r2 && id !in r0
      ensures exists c :: c in t2 && c !in l0 && id in t2[c]
    {
      if id in r1 {
        var c :| c in t1 && c !in l0 && id in t1[c];
        assert c in t2 && id in t2[c];
      } else {
        var c :| c in t2 && c !in t1.Keys && id in t2[c];
      }
    }
  }

  /** Two rounds of loading compose: handles of chunks new since the first round come from its base on. */
  lemma FreshTrans(t1: map<(int, int), seq<int>>, t2: map<(int, int), seq<int>>, l0: set<(int, int)>, b0: int, b1: int)
    requires FreshHandles(t1, l0, b0) && FreshHandles(t2, t1.Keys, b1) && b0 <= b1
    requires forall c :: c in t1 ==> c in t2 && t2[c] == t1[c]
    ensures FreshHandles(t2, l0, b0)
  {
    forall c, id | c in t2 && c !in l0 && id in t2[c]
      ensures b0 <= id
    {
      if c in t1 {
        assert id in t1[c];
      }
    }
  }

  /** No id belongs to two chunks. */
  ghost predicate HandlesDisjoint(tiles: map<(int, int), seq<int>>)
  {
    forall c1, c2, k1, k2 ::
      (&& c1 in tiles && c2 in tiles && 0 <= k1 < |tiles[c1]| && 0 <= k2 < |tiles[c2]|
       && tiles[c1][k1] == tiles[c2][k2])
      ==> c1 == c2
  }

  /** What `tileElements[chunkKey]?.forEach` iterates over: the chunk's ids, or nothing when the entry is absent. */
  function DeferredLookup(tileElements: map<(int, int), seq<int>>, c: (int, int)): (r: seq<int>)
    ensures c !in tileElements ==> r == []
    ensures c in tileElements ==> r == tileElements[c]
  {
    if c in tileElements then tileElements[c] else []
  }

  /** Chunk c is within `RenderDistance` of `center` on both axes. */
  predicate Near(c: (int, int), center: (int, int))
  {
    && center.0 - RenderDistance <= c.0 <= center.0 + RenderDistance
    && center.1 - RenderDistance <= c.1 <= center.1 + RenderDistance
  }

  /**
   * Chunk c is among those the loops of `updateChunks` have visited once the column offset
   * has reached `x` and, in that column, the row offset has reached `y`.
   */
  predicate Swept(c: (int, int), center: (int, int), x: int, y: int)
  {
    && center.0 - RenderDistance <= c.0 < center.0 + x
    && center.1 - RenderDistance <= c.1 < center.1 + y
  }

  /** Chunk c is in column `center.0 + x`, among the rows the inner loop has visited once its offset reached `y`. */
  predicate InColumn(c: (int, int), center: (int, int), x: int, y: int)
  {
    c.0 == center.0 + x && center.1 - RenderDistance <= c.1 < center.1 + y
  }

  /** One more step of the inner loop of `updateChunks` loads the chunk in row `center.1 + y` of the column. */
  lemma InColumnStep(before: set<(int, int)>, loaded: set<(int, int)>, loaded': set<(int, int)>,
                     center: (int, int), x: int, y: int)
    requires -RenderDistance <= y
    requires forall c :: c in loaded <==> c in before || InColumn(c, center, x, y)
    requires loaded' == loaded + {(center.0 + x, center.1 + y)}
    ensures forall c :: c in loaded' <==> c in before || InColumn(c, center, x, y + 1)
  {
    forall c | InColumn(c, center, x, y + 1) && !InColumn(c, center, x, y)
      ensures c == (center.0 + x, center.1 + y)
    {
      assert c == (c.0, c.1);
    }
    var here := (center.0 + x, center.1 + y);
    assert InColumn(here, center, x, y + 1);
  }

  /** The ids in a sequence of handles. */
  function Ids(ids: seq<int>): (r: set<int>)
    ensures forall id :: id in r <==> id in ids
  {
    set id | id in ids
  }

  /**
   * The deferred removal in `unloadChunk` as written runs after the chunk's entry is removed,
   * so it removes nothing, even for a chunk that drew tiles.
   */
  lemma DeferredLookupAfterRemoval(tileElements: map<(int, int), seq<int>>, c: (int, int))
    ensures DeferredLookup(tileElements - {c}, c) == []
  {
  }

  /** Concretely: chunk (0, 0) drew the rectangle with id 7, and unloading it as written leaves id 7 drawn. */
  lemma UnloadLeaksTiles()
    ensures var before := map[(0, 0) := [7]];
      DeferredLookup(before - {(0, 0)}, (0, 0)) == [] && DeferredLookup(before, (0, 0)) == [7]
  {
    var before := map[(0, 0) := [7]];
    assert (0, 0) !in before - {(0, 0)};
  }
}
