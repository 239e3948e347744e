/** The stateful part of src/tilemap.py: the `Layer` with its chunk cache
    and the `Tilemap` with its tileset, object catalog, pattern table and
    layers, each method proved against the specification functions of
    modules Patterns and Chunks. */
module Engine {
  import opened Common
  import opened Patterns
  import opened Chunks
  import opened Loading
  import opened Streaming

  /** A layer of the world and its cache of built chunks. Its configuration
      is fixed when it is made; only `chunks` changes. */
  class Layer {
    const genType: GenType
    const valueBased: seq<int>
    const obstacleTiles: seq<int>
    const generator: Option<Generator>
    var chunks: map<Point, Chunk>

    constructor (genType: GenType, valueBased: seq<int>, obstacleTiles: seq<int>, generator: Option<Generator>)
      ensures this.genType == genType && this.valueBased == valueBased
      ensures this.obstacleTiles == obstacleTiles && this.generator == generator
      ensures chunks == map[]
    {
      this.genType := genType;
      this.valueBased := valueBased;
      this.obstacleTiles := obstacleTiles;
      this.generator := generator;
      chunks := map[];
    }

    /** The configuration `build_chunk` reads. */
    function Setup(): Setup
    {
      Chunks.Setup(genType, valueBased, obstacleTiles, generator)
    }

    /** Every cached chunk has the kind of artifact the layer builds. */
    ghost predicate Valid()
      reads this
    {
      forall p :: p in chunks ==> (chunks[p].Props? <==> genType == Object)
    }

    /** `Layer.pattern_matching`: the key of cell `(i, j)`, its candidate list
        from the tile map, and the candidate the draw `roll` selects. */
    method PatternMatching(tm: Tilemap, grid: Grid, i: int, j: int, roll: nat) returns (r: Result<int>)
      requires Around(grid, i, j)
      ensures r == ChooseTile(tm.patterns, grid, i, j, valueBased, roll)
    {
      var key := CellKey(grid, i, j, valueBased);
      var indices := tm.GetPattern(key, grid[j][i]);
      if indices.Err? {
        return Err(indices.error);
      }
      if indices.value == [] {
        return Err(EmptyCandidates);
      }
      return Ok(indices.value[roll % |indices.value|]);
    }

    /** The body of the loops of `build_chunk` for interior cell `(i, j)`:
        the obstacle marker, then the tile or object the generation type
        asks for. */
    method BuildCell(tm: Tilemap, grid: Grid, pos: Point, i: int, j: int, pick: Picker, ghost f: CellFn) returns (r: Result<Parts>)
      requires tm.Sane() && GeneratorFits(Setup(), tm.chunkSize) && generator.Some?
      requires grid == generator.value(pos.0, pos.1)
      requires 1 <= i <= tm.chunkSize && 1 <= j <= tm.chunkSize
      requires Stands(f, tm, pos, pick)
      ensures r == f(i, j)
    {
      CellOf(f, tm, pos, pick, i, j);
      ghost var job := JobOf(tm.Snapshot(), Setup(), pos, pick);
      var cs := tm.chunkSize;
      var v := grid[j][i];
      var cell := (pos.0 * cs + i - 1, pos.1 * cs + j - 1);
      assert cell == job.WorldCell(i, j);
      var obstacles := if v in obstacleTiles then [cell] else [];
      assert obstacles == Marker(job, i, j);
      match genType {
        case PatternMatching =>
          r := PlaceTile(tm, grid, pos, i, j, pick, cell, obstacles, job);
        case Random =>
          r := PlaceRandom(tm, grid, pos, i, j, pick, obstacles, job);
        case Object =>
          r := PlaceObject(tm, grid, pos, i, j, pick, cell, obstacles, job);
        case Plain =>
          r := Ok(Parts([], obstacles, []));
      }
    }

    /** The PATTERN MATCHING branch of the loop body of `build_chunk`. */
    method PlaceTile(tm: Tilemap, grid: Grid, pos: Point, i: int, j: int, pick: Picker, cell: Point, obstacles: seq<Point>, ghost job: Job)
      returns (r: Result<Parts>)
      requires tm.Sane() && GeneratorFits(Setup(), tm.chunkSize) && generator.Some? && genType == GenType.PatternMatching
      requires 1 <= i <= tm.chunkSize && 1 <= j <= tm.chunkSize
      requires job == JobOf(tm.Snapshot(), Setup(), pos, pick) && grid == job.grid
      requires cell == job.WorldCell(i, j) && obstacles == Marker(job, i, j)
      ensures r == CellParts(job, i, j)
    {
      var ts := tm.tileSize;
      var index := PatternMatching(tm, grid, i, j, pick(cell.0, cell.1));
      JobChooses(tm.Snapshot(), Setup(), pos, pick);
      if index.Err? {
        return Err(index.error);
      }
      var t := PyIndex(index.value, |tm.tileset|);
      if t.None? {
        return Err(TileOutOfRange);
      }
      return Ok(Parts([Blit(t.value, (i - 1) * ts, (j - 1) * ts)], obstacles, []));
    }

    /** The RANDOM branch of the loop body of `build_chunk`. */
    method PlaceRandom(tm: Tilemap, grid: Grid, pos: Point, i: int, j: int, pick: Picker, obstacles: seq<Point>, ghost job: Job)
      returns (r: Result<Parts>)
      requires tm.Sane() && GeneratorFits(Setup(), tm.chunkSize) && generator.Some? && genType == Random
      requires 1 <= i <= tm.chunkSize && 1 <= j <= tm.chunkSize
      requires job == JobOf(tm.Snapshot(), Setup(), pos, pick) && grid == job.grid
      requires obstacles == Marker(job, i, j)
      ensures r == CellParts(job, i, j)
    {
      var ts := tm.tileSize;
      var v := grid[j][i];
      if v == 0 {
        return Ok(Parts([], obstacles, []));
      }
      var t := PyIndex(v, |tm.tileset|);
      if t.None? {
        return Err(TileOutOfRange);
      }
      return Ok(Parts([Blit(t.value, (i - 1) * ts, (j - 1) * ts)], obstacles, []));
    }

    /** The OBJECT branch of the loop body of `build_chunk`: the footprint
        as obstacles, and the object at its draw and anchor positions. */
    method PlaceObject(tm: Tilemap, grid: Grid, pos: Point, i: int, j: int, pick: Picker, cell: Point, obstacles: seq<Point>, ghost job: Job)
      returns (r: Result<Parts>)
      requires tm.Sane() && GeneratorFits(Setup(), tm.chunkSize) && generator.Some? && genType == Object
      requires 1 <= i <= tm.chunkSize && 1 <= j <= tm.chunkSize
      requires job == JobOf(tm.Snapshot(), Setup(), pos, pick) && grid == job.grid
      requires cell == job.WorldCell(i, j) && obstacles == Marker(job, i, j)
      ensures r == CellParts(job, i, j)
    {
      var cs, ts := tm.chunkSize, tm.tileSize;
      var v := grid[j][i];
      if v == -1 {
        return Ok(Parts([], obstacles, []));
      }
      if v !in tm.objects {
        return Err(UnknownObject);
      }
      var o := tm.objects[v];
      var marks := MarkFootprint(obstacles, cell, o.width);
      var at := ((i - 1) * ts + cs * ts * pos.0 + ts / 2 - o.center.0,
                 (j - 1) * ts + cs * ts * pos.1 + ts / 2 - o.center.1);
      var anchor := (cell.0 * ts + o.rightOffset, cell.1 * ts);
      return Ok(Parts([], marks, [Placed(o.image, at, anchor)]));
    }

    /** `build_chunk` stands for: `f` is the cell function of this layer's
        build of chunk `pos`. */
    ghost predicate Stands(f: CellFn, tm: Tilemap, pos: Point, pick: Picker)
      reads tm
      requires tm.Sane() && GeneratorFits(Setup(), tm.chunkSize) && generator.Some?
    {
      forall i, j {:trigger CellParts(JobOf(tm.Snapshot(), Setup(), pos, pick), i, j)} ::
        1 <= i <= tm.chunkSize && 1 <= j <= tm.chunkSize ==>
          f(i, j) == CellParts(JobOf(tm.Snapshot(), Setup(), pos, pick), i, j)
    }

    lemma CellOf(f: CellFn, tm: Tilemap, pos: Point, pick: Picker, i: int, j: int)
      requires tm.Sane() && GeneratorFits(Setup(), tm.chunkSize) && generator.Some?
      requires Stands(f, tm, pos, pick) && 1 <= i <= tm.chunkSize && 1 <= j <= tm.chunkSize
      ensures f(i, j) == CellParts(JobOf(tm.Snapshot(), Setup(), pos, pick), i, j)
    {
    }

    /** The inner loop of `build_chunk`: row `j` of the chunk, appended to
        the lists of the rows before it. */
    method BuildRow(tm: Tilemap, grid: Grid, pos: Point, j: int, pick: Picker, ghost f: CellFn, acc: Parts)
      returns (r: Result<Parts>)
      requires tm.Sane() && GeneratorFits(Setup(), tm.chunkSize) && generator.Some?
      requires grid == generator.value(pos.0, pos.1)
      requires 1 <= j <= tm.chunkSize && Stands(f, tm, pos, pick)
      requires Rows(f, tm.chunkSize, j - 1) == Ok(acc)
      ensures r == Rows(f, tm.chunkSize, j)
    {
      var cs := tm.chunkSize;
      var (tiles, obstacles, objects) := (acc.tiles, acc.obstacles, acc.objects);
      assert Join(acc, NoParts) == acc;
      var i := 1;
      while i <= cs
        invariant 1 <= i <= cs + 1
        invariant Then(Rows(f, cs, j - 1), Row(f, j, i - 1)) == Ok(Parts(tiles, obstacles, objects))
      {
        var cell := BuildCell(tm, grid, pos, i, j, pick, f);
        if cell.Err? {
          WalkStops(f, cs, j, i, j);
          return Err(cell.error);
        }
        WalkStep(f, cs, j, i, Parts(tiles, obstacles, objects));
        tiles := tiles + cell.value.tiles;
        obstacles := obstacles + cell.value.obstacles;
        objects := objects + cell.value.objects;
        i := i + 1;
      }
      WalkRow(f, cs, j, Parts(tiles, obstacles, objects));
      return Ok(Parts(tiles, obstacles, objects));
    }

    /** `Layer.build_chunk`: walk the interior cells row by row and store the
        artifact under `pos`; an exception leaves the cache as it was. */
    method BuildChunk(tm: Tilemap, pos: Point, pick: Picker) returns (st: Status)
      requires tm.Sane() && GeneratorFits(Setup(), tm.chunkSize)
      modifies this`chunks
      ensures old(Valid()) ==> Valid()
      ensures var r := Build(tm.Snapshot(), Setup(), pos, pick);
              && (r.Ok? ==> st == Pass && chunks == old(chunks)[pos := r.value])
              && (r.Err? ==> st == Fail(r.error) && chunks == old(chunks))
    {
      if generator.None? {
        return Fail(NoGenerator);
      }
      var cs := tm.chunkSize;
      var grid := generator.value(pos.0, pos.1);
      ghost var w := tm.Snapshot();
      ghost var f := Walker(w, Setup(), pos, pick);
      ghost var built := Build(w, Setup(), pos, pick);
      assert built == Assemble(genType, Rows(f, cs, cs));
      var acc := NoParts;
      var j := 1;
      while j <= cs
        invariant 1 <= j <= cs + 1
        invariant Rows(f, cs, j - 1) == Ok(acc)
        invariant chunks == old(chunks)
      {
        var row := BuildRow(tm, grid, pos, j, pick, f, acc);
        if row.Err? {
          RowsStuck(f, cs, j, cs);
          assert built == Err(row.error);
          return Fail(row.error);
        }
        acc := row.value;
        j := j + 1;
      }
      assert built == Ok(Finish(genType, acc));
      BuildKind(w, Setup(), pos, pick);
      chunks := chunks[pos := Finish(genType, acc)];
      assert w == tm.Snapshot();
      return Pass;
    }
  }

  /** The nested loops of the OBJECT branch of `build_chunk`: append the
      footprint of half-extent `width` around `cell`, row by row. */
  method MarkFootprint(obstacles: seq<Point>, cell: Point, width: Point) returns (out: seq<Point>)
    ensures out == obstacles + Footprint(cell.0, cell.1, width)
  {
    var (x, y) := cell;
    var (w0, w1) := width;
    out := obstacles;
    var l := -w1;
    while l < w1 + 1
      invariant -w1 <= l <= (if w1 + 1 < -w1 then -w1 else w1 + 1)
      invariant out == obstacles + FootRows(x, y - w1, w0, l + w1)
    {
      var k := -w0;
      while k < w0 + 1
        invariant -w0 <= k <= (if w0 + 1 < -w0 then -w0 else w0 + 1)
        invariant out == obstacles + FootRows(x, y - w1, w0, l + w1) + FootRow(x, y + l, w0)[..k + w0]
      {
        out := out + [(x + k, y + l)];
        k := k + 1;
      }
      assert FootRow(x, y + l, w0)[..k + w0] == FootRow(x, y + l, w0);
      l := l + 1;
    }
  }

  /** The slicing loops of `load_tileset`: `imageheight // tileheight`
      rows of `columns` slices, left to right, top to bottom. */
  method CutSlices(doc: TilesetDoc) returns (tiles: seq<Slice>)
    requires doc.tileHeight != 0
    ensures tiles == TilesOf(doc)
  {
    var tw, th := doc.tileWidth, doc.tileHeight;
    var rows, cols := Len(FloorDiv(doc.imageHeight, th)), Len(doc.columns);
    tiles := [];
    var y := 0;
    while y < rows
      invariant 0 <= y <= rows
      invariant tiles == SliceGrid(doc.image, tw, th, y, cols)
    {
      var x := 0;
      while x < cols
        invariant 0 <= x <= cols
        invariant tiles == SliceGrid(doc.image, tw, th, y, cols) + SliceRow(doc.image, tw, th, y, x)
      {
        tiles := tiles + [Slice(doc.image, x * tw, y * th, tw, th)];
        x := x + 1;
      }
      y := y + 1;
    }
  }

  /** The caches of `ls`, in order. */
  function Caches(ls: seq<Layer>): (r: seq<map<Point, Chunk>>)
    reads ls
    ensures |r| == |ls|
  {
    if ls == [] then [] else Caches(ls[..|ls| - 1]) + [ls[|ls| - 1].chunks]
  }

  /** Entry `n` of the caches is the cache of layer `n`. */
  lemma {:induction false} CachesAt(ls: seq<Layer>)
    ensures forall n :: 0 <= n < |ls| ==> Caches(ls)[n] == ls[n].chunks
  {
    if ls != [] {
      CachesAt(ls[..|ls| - 1]);
    }
  }

  /** Caches that agree with `before` on every layer but `k` are `before`
      with entry `k` replaced. */
  lemma CachesBut(ls: seq<Layer>, before: seq<map<Point, Chunk>>, k: nat)
    requires k < |ls| == |before|
    requires forall n :: 0 <= n < |ls| && n != k ==> ls[n].chunks == before[n]
    ensures Caches(ls) == before[k := ls[k].chunks]
  {
    CachesAt(ls);
  }

  /** Every layer of `ls` has a generator that fits chunks of size `cs`. */
  ghost predicate Fit(ls: seq<Layer>, cs: int)
  {
    forall n :: 0 <= n < |ls| ==> GeneratorFits(ls[n].Setup(), cs)
  }

  /** Layers `a` and `b` of `ls` are different objects. */
  predicate Apart(ls: seq<Layer>, a: nat, b: nat)
    requires a < |ls| && b < |ls|
  {
    ls[a] != ls[b]
  }

  /** No layer appears twice in `ls`. */
  predicate Distinct(ls: seq<Layer>)
  {
    forall a, b :: 0 <= a < b < |ls| ==> Apart(ls, a, b)
  }

  /** The build of each layer of `ls` on world `w`. */
  ghost function BuildsOf(w: World, ls: seq<Layer>, pick: Picker): (bs: seq<Point -> Result<Chunk>>)
    requires w.Sane() && Fit(ls, w.chunkSize)
    ensures |bs| == |ls|
  {
    if ls == [] then [] else BuildsOf(w, ls[..|ls| - 1], pick) + [Builds(w, ls[|ls| - 1].Setup(), pick)]
  }

  /** Entry `n` of `BuildsOf` is `build_chunk` of layer `n`. */
  lemma {:induction false} BuildsOfAt(w: World, ls: seq<Layer>, pick: Picker, n: nat, p: Point)
    requires w.Sane() && Fit(ls, w.chunkSize)
    requires n < |ls|
    ensures BuildsOf(w, ls, pick)[n](p) == Build(w, ls[n].Setup(), p, pick)
  {
    if n < |ls| - 1 {
      BuildsOfAt(w, ls[..|ls| - 1], pick, n, p);
    }
  }

  /** What layer `n` of `ls` builds at chunk `p` on world `w`. */
  ghost function LayerBuild(w: World, ls: seq<Layer>, n: nat, p: Point, pick: Picker): Result<Chunk>
    requires w.Sane() && n < |ls| && GeneratorFits(ls[n].Setup(), w.chunkSize)
  {
    Build(w, ls[n].Setup(), p, pick)
  }

  /** `bs` is what each layer of `ls` builds, chunk by chunk, on world `w`. */
  ghost predicate Makes(bs: seq<Point -> Result<Chunk>>, w: World, ls: seq<Layer>, pick: Picker)
    requires w.Sane() && Fit(ls, w.chunkSize)
  {
    && |bs| == |ls|
    && forall n: nat, p {:trigger LayerBuild(w, ls, n, p, pick)} :: n < |ls| ==> bs[n](p) == LayerBuild(w, ls, n, p, pick)
  }

  /** `BuildsOf` is what each layer builds. */
  lemma BuildsOfMake(w: World, ls: seq<Layer>, pick: Picker)
    requires w.Sane() && Fit(ls, w.chunkSize)
    ensures Makes(BuildsOf(w, ls, pick), w, ls, pick)
  {
    forall n: nat, p | n < |ls|
      ensures BuildsOf(w, ls, pick)[n](p) == LayerBuild(w, ls, n, p, pick)
    {
      BuildsOfAt(w, ls, pick, n, p);
    }
  }

  /** Every chunk cached for a layer is of the kind that layer builds. */
  ghost predicate KindsMatch(cs: seq<map<Point, Chunk>>, ls: seq<Layer>)
  {
    forall n, p :: 0 <= n < |ls| && n < |cs| && p in cs[n] ==> (cs[n][p].Props? <==> ls[n].genType == Object)
  }

  /** The layers are valid exactly when their caches match their kinds. */
  lemma ValidKinds(ls: seq<Layer>)
    ensures (forall n :: 0 <= n < |ls| ==> ls[n].Valid()) <==> KindsMatch(Caches(ls), ls)
  {
    CachesAt(ls);
  }

  /** Rebuilding caches with what their layers build keeps every cached
      chunk of the kind its layer builds. */
  lemma KindsKept(before: seq<map<Point, Chunk>>, after: seq<map<Point, Chunk>>, ps: seq<Point>,
                  bs: seq<Point -> Result<Chunk>>, w: World, ls: seq<Layer>, pick: Picker)
    requires w.Sane() && Fit(ls, w.chunkSize)
    requires Makes(bs, w, ls, pick) && EachRebuilt(before, after, ps, bs)
    requires KindsMatch(before, ls)
    ensures KindsMatch(after, ls)
  {
    forall n, p | 0 <= n < |ls| && p in after[n]
      ensures after[n][p].Props? <==> ls[n].genType == Object
    {
      assert Rebuilt(before[n], after[n], ps, bs[n]);
      if p !in before[n] || after[n][p] != before[n][p] {
        assert bs[n](p) == LayerBuild(w, ls, n, p, pick);
        BuildKind(w, ls[n].Setup(), p, pick);
      }
    }
  }

  /** Walking the rows of a window stores each point of it in turn, and
      keeps every cached chunk of the kind its layer builds. */
  lemma WalkKeepsKinds(start: seq<map<Point, Chunk>>, bs: seq<Point -> Result<Chunk>>, w: World, ls: seq<Layer>,
                       pick: Picker, win: Window, st: Status, after: seq<map<Point, Chunk>>)
    requires w.Sane() && Fit(ls, w.chunkSize) && Makes(bs, w, ls, pick) && |start| == |ls|
    requires (st, after) == RowsWalk(start, bs, win, win.height)
    requires KindsMatch(start, ls)
    ensures (st, after) == StoreEach(start, bs, Points(win))
    ensures KindsMatch(after, ls)
  {
    RowsWalkEach(start, bs, win, win.height);
    StoreEachRebuilt(start, bs, Points(win), Points(win));
    KindsKept(start, after, Points(win), bs, w, ls, pick);
  }

  /** The nested loops of `get_obstacles` and `get_objects` over one
      layer: `for j: for i: if (i, j) in chunks: out.extend(part(chunks[(i, j)]))`. */
  method GatherWindow<T>(chunks: map<Point, Chunk>, win: Window, part: Chunk -> seq<T>) returns (out: seq<T>)
    ensures out == Gather(chunks, Points(win), part)
  {
    out := [];
    var dy := 0;
    while dy < win.height
      invariant 0 <= dy <= win.height
      invariant out == Gather(chunks, Points(Window(win.left, win.top, win.width, dy)), part)
    {
      var row := GatherRow(chunks, win.left, win.top + dy, win.width, part);
      PointsNext(win, dy);
      GatherJoin(chunks, Points(Window(win.left, win.top, win.width, dy)), RowPoints(win.left, win.top + dy, win.width), part);
      out := out + row;
      dy := dy + 1;
    }
  }

  /** The inner loop of `GatherWindow`: row `y`, from `left` on, `n` chunks wide. */
  method GatherRow<T>(chunks: map<Point, Chunk>, left: int, y: int, n: nat, part: Chunk -> seq<T>) returns (row: seq<T>)
    ensures row == Gather(chunks, RowPoints(left, y, n), part)
  {
    row := [];
    var dx := 0;
    while dx < n
      invariant 0 <= dx <= n
      invariant row == Gather(chunks, RowPoints(left, y, dx), part)
    {
      var p := (left + dx, y);
      RowPointsSpec(left, y, dx);
      assert (RowPoints(left, y, dx) + [p])[..dx] == RowPoints(left, y, dx);
      if p in chunks {
        row := row + part(chunks[p]);
      }
      dx := dx + 1;
    }
  }

  /** The caches among `cs` whose kind in `ks` is OBJECT, in order. */
  function ObjectCaches(cs: seq<map<Point, Chunk>>, ks: seq<GenType>): seq<map<Point, Chunk>>
    requires |cs| == |ks|
  {
    if cs == [] then []
    else ObjectCaches(cs[..|cs| - 1], ks[..|ks| - 1]) + (if ks[|ks| - 1] == Object then [cs[|cs| - 1]] else [])
  }

  /** The object caches of the first `k + 1` layers. */
  lemma ObjectCachesNext(cs: seq<map<Point, Chunk>>, ks: seq<GenType>, k: nat)
    requires |cs| == |ks| && k < |cs|
    ensures ObjectCaches(cs[..k + 1], ks[..k + 1]) == ObjectCaches(cs[..k], ks[..k]) + (if ks[k] == Object then [cs[k]] else [])
  {
    assert cs[..k + 1][..k] == cs[..k];
    assert ks[..k + 1][..k] == ks[..k];
  }

  /** A cache is one of `ObjectCaches(cs, ks)` exactly when it is the cache
      of an OBJECT layer. */
  lemma {:induction false} ObjectCachesSpec(cs: seq<map<Point, Chunk>>, ks: seq<GenType>, c: map<Point, Chunk>)
    requires |cs| == |ks|
    ensures c in ObjectCaches(cs, ks) <==> exists n :: 0 <= n < |cs| && ks[n] == Object && cs[n] == c
  {
    if cs != [] {
      var cs', ks' := cs[..|cs| - 1], ks[..|ks| - 1];
      ObjectCachesSpec(cs', ks', c);
      if exists n :: 0 <= n < |cs| && ks[n] == Object && cs[n] == c {
        var n :| 0 <= n < |cs| && ks[n] == Object && cs[n] == c;
        if n < |cs| - 1 {
          assert cs'[n] == cs[n] && ks'[n] == ks[n];
        }
      }
      if exists n :: 0 <= n < |cs'| && ks'[n] == Object && cs'[n] == c {
        var n :| 0 <= n < |cs'| && ks'[n] == Object && cs'[n] == c;
        assert cs[n] == cs'[n] && ks[n] == ks'[n];
      }
    }
  }

/** The generation type of each layer. */
  function Kinds(ls: seq<Layer>): seq<GenType>
  {
    seq(|ls|, n requires 0 <= n < |ls| => ls[n].genType)
  }

  /** Drawing fills caches with what their layers build, so every cached
      chunk keeps the kind of artifact its layer builds. */
  lemma DrawKeepsKinds(start: seq<map<Point, Chunk>>, bs: seq<Point -> Result<Chunk>>, w: World, ls: seq<Layer>,
                       pick: Picker, ps: seq<Point>, span: int, camera: Point,
                       st: Status, after: seq<map<Point, Chunk>>, drawn: seq<seq<Sprite>>)
    requires w.Sane() && Fit(ls, w.chunkSize) && Makes(bs, w, ls, pick) && |start| == |ls|
    requires (st, after, drawn) == DrawFrom(start, bs, Kinds(ls), ps, span, camera, 0)
    requires KindsMatch(start, ls)
    ensures |after| == |ls|
    ensures KindsMatch(after, ls)
  {
    DrawFromSpec(start, bs, Kinds(ls), ps, span, camera, 0);
    forall n | 0 <= n < |ls|
      ensures Rebuilt(start[n], after[n], ps, bs[n])
    {
      GrownRebuilt(start[n], after[n], ps, bs[n]);
    }
    KindsKept(start, after, ps, bs, w, ls, pick);
  }

  /** The tile map: sizes, tile images, object catalog, Wang pattern table
      and the layers, drawn in order. */
  class Tilemap {
    const chunkSize: int
    const tileSize: int
    var tileset: seq<Slice>
    var layers: seq<Layer>
    var objects: map<int, MapObject>
    var patterns: Table

    /** A tile map of 16 x 16 chunks of 16-pixel tiles with one layer, the
        foreground, configured as `foreground` says. */
    constructor (foreground: Chunks.Setup)
      requires GeneratorFits(foreground, 16)
      ensures Valid()
      ensures chunkSize == 16 && tileSize == 16
      ensures tileset == [] && objects == map[] && patterns == []
      ensures |layers| == 1 && fresh(layers[0])
      ensures layers[0].Setup() == foreground && layers[0].chunks == map[]
    {
      chunkSize := 16;
      tileSize := 16;
      tileset := [];
      var layer := new Layer(foreground.genType, foreground.valueBased, foreground.obstacleTiles, foreground.generator);
      layers := [layer];
      objects := map[];
      patterns := [];
    }

    /** Positive sizes and an even tile size. */
    predicate Sane()
    {
      chunkSize > 0 && tileSize > 0 && tileSize % 2 == 0
    }

    /** What every operation keeps of the tile map itself: sane sizes, a
        well-formed pattern table, and distinct layers whose generators
        fit the chunk size. */
    ghost predicate Core()
      reads this
    {
      && Sane()
      && WellFormed(patterns)
      && Fit(layers, chunkSize)
      && Distinct(layers)
    }

    /** What every operation keeps: the tile map's own invariant, and
        layers whose caches hold the kind of artifact they build. */
    ghost predicate Valid()
      reads this, layers
    {
      Core() && forall n :: 0 <= n < |layers| ==> layers[n].Valid()
    }

    /** What a chunk build reads from the tile map. */
    function Snapshot(): (w: World)
      reads this
      ensures w.Sane() <==> Sane()
    {
      World(chunkSize, tileSize, |tileset|, patterns, objects)
    }

    /** The build of each layer, chunk by chunk, on the current tile map. */
    ghost function Builts(pick: Picker): (bs: seq<Point -> Result<Chunk>>)
      reads this
      requires Sane() && Fit(layers, chunkSize)
      ensures |bs| == |layers|
    {
      BuildsOf(Snapshot(), layers, pick)
    }

    /** `layers[name] = l` for a new name: the layer joins the others,
        last in insertion order. A layer object that is already one of
        the layers is refused and nothing changes. */
    method AddLayer(l: Layer) returns (st: Status)
      requires Valid() && GeneratorFits(l.Setup(), chunkSize) && l.Valid()
      modifies this
      ensures Valid()
      ensures l in old(layers) ==> st == Fail(SharedLayer) && layers == old(layers)
      ensures l !in old(layers) ==> st == Pass && layers == old(layers) + [l]
      ensures tileset == old(tileset) && objects == old(objects) && patterns == old(patterns)
    {
      if l in layers {
        return Fail(SharedLayer);
      }
      ghost var ls := layers;
      layers := layers + [l];
      forall a, b | 0 <= a < b < |layers|
        ensures Apart(layers, a, b)
      {
        if b < |ls| {
          assert Apart(ls, a, b);
        } else {
          assert layers[a] == ls[a];
        }
      }
      return Pass;
    }

    /** `load_tileset` on a parsed document: cut the image into slices
        row by row, register the wang tiles of every wangset in file
        order, then append the slices to the tileset. A zero tile height
        raises before anything changes. */
    method LoadTileset(doc: TilesetDoc) returns (st: Status)
      requires Valid()
      modifies this
      ensures Valid()
      ensures layers == old(layers) && objects == old(objects)
      ensures doc.tileHeight == 0 ==> st == Fail(ZeroTileHeight) && tileset == old(tileset) && patterns == old(patterns)
      ensures doc.tileHeight != 0 ==>
                st == Pass && tileset == old(tileset) + TilesOf(doc) && patterns == TableAfter(old(patterns), doc)
    {
      if doc.tileHeight == 0 {
        return Fail(ZeroTileHeight);
      }
      var tiles := CutSlices(doc);
      TableAfterSpec(patterns, doc);
      if doc.wangsets.Some? {
        RegisterWangsets(doc.wangsets.value);
      }
      tileset := tileset + tiles;
      return Pass;
    }

    /** The wangset loops of `load_tileset`: every wang tile of every
        wangset, in file order, joins the candidate list of its wangid. */
    method RegisterWangsets(sets: seq<seq<WangTile>>)
      modifies this`patterns
      ensures patterns == RegisterAll(old(patterns), Flatten(sets))
    {
      var k := 0;
      while k < |sets|
        invariant 0 <= k <= |sets|
        invariant patterns == RegisterAll(old(patterns), Flatten(sets[..k]))
      {
        RegisterAllJoin(old(patterns), Flatten(sets[..k]), sets[k]);
        RegisterWangset(sets[k]);
        assert sets[..k + 1][..k] == sets[..k];
        k := k + 1;
      }
      assert sets[..k] == sets;
    }

    /** The wang tiles of one wangset, in file order. */
    method RegisterWangset(ws: seq<WangTile>)
      modifies this`patterns
      ensures patterns == RegisterAll(old(patterns), ws)
    {
      var m := 0;
      while m < |ws|
        invariant 0 <= m <= |ws|
        invariant RegisterAll(patterns, ws[m..]) == RegisterAll(old(patterns), ws)
      {
        assert ws[m..][1..] == ws[m + 1..];
        RegisterWangTile(ws[m]);
        m := m + 1;
      }
    }

    /** One wang tile: a new wangid gets the list `[tileid]`, a known one
        has `tileid` appended to its list. */
    method RegisterWangTile(wt: WangTile)
      modifies this`patterns
      ensures patterns == Register(old(patterns), wt)
    {
      var at := Find(patterns, wt.wangid);
      if at.None? {
        patterns := patterns + [Entry(wt.wangid, [wt.tileid])];
      } else {
        patterns := patterns[at.value := Entry(wt.wangid, patterns[at.value].tiles + [wt.tileid])];
      }
    }

    /** `load_objects` on a parsed document: each object, in order, goes
        into the catalog under its id with its right offset. */
    method LoadObjects(descs: seq<ObjectDesc>)
      requires Valid()
      modifies this
      ensures Valid()
      ensures objects == Catalog(old(objects), descs)
      ensures layers == old(layers) && tileset == old(tileset) && patterns == old(patterns)
    {
      var n := 0;
      while n < |descs|
        invariant 0 <= n <= |descs|
        invariant objects == Catalog(old(objects), descs[..n])
        invariant layers == old(layers) && tileset == old(tileset) && patterns == old(patterns)
      {
        var d := descs[n];
        var o := MapObject(d.id, d.src, d.center, d.width, 0, d.image);
        o := o.(rightOffset := d.imageWidth - o.center.0);
        assert descs[..n + 1][..n] == descs[..n];
        objects := objects[d.id := o];
        n := n + 1;
      }
      assert descs[..n] == descs;
    }

    /** `generate(radius=3)`: every layer builds every chunk of
        `range(-radius, radius)` squared, row by row, replacing what it had
        built; the first exception stops the walk. */
    method Generate(pick: Picker, radius: int := 3) returns (st: Status)
      requires Valid()
      modifies layers`chunks
      ensures Valid() && layers == old(layers)
      ensures (st, Caches(layers)) == StoreEach(old(Caches(layers)), old(Builts(pick)), Points(Square(radius)))
    {
      ghost var ls: seq<Layer>, start: seq<map<Point, Chunk>>, bs := layers, Caches(layers), Builts(pick);
      ghost var w := Snapshot();
      BuildsOfMake(w, ls, pick);
      ValidKinds(ls);
      ghost var after;
      st, after := GenerateRows(Square(radius), pick, w, ls, bs, start);
      WalkKeepsKinds(start, bs, w, ls, pick, Square(radius), st, after);
      ValidKinds(ls);
    }

    /** The rows of a window, top to bottom. */
    method GenerateRows(win: Window, pick: Picker, ghost w: World, ghost ls: seq<Layer>,
                        ghost bs: seq<Point -> Result<Chunk>>, ghost start: seq<map<Point, Chunk>>)
      returns (st: Status, ghost after: seq<map<Point, Chunk>>)
      requires layers == ls && w == Snapshot() && w.Sane() && Fit(ls, w.chunkSize) && Distinct(ls)
      requires Makes(bs, w, ls, pick) && start == Caches(ls)
      modifies layers`chunks
      ensures w == Snapshot() && after == Caches(ls) && (st, after) == RowsWalk(start, bs, win, win.height)
    {
      after := start;
      var dy := 0;
      while dy < win.height
        invariant 0 <= dy <= win.height
        invariant w == Snapshot() && after == Caches(ls) && (Pass, after) == RowsWalk(start, bs, win, dy)
      {
        ghost var cur := after;
        st, after := GenerateRow(win, win.top + dy, pick, w, ls, bs, cur);
        RowsWalkNext(start, bs, win, dy, cur, st, after);
        if st.Fail? {
          return;
        }
        dy := dy + 1;
      }
      st := Pass;
    }

    /** Row `y` of a window, left to right. */
    method GenerateRow(win: Window, y: int, pick: Picker, ghost w: World, ghost ls: seq<Layer>,
                       ghost bs: seq<Point -> Result<Chunk>>, ghost start: seq<map<Point, Chunk>>)
      returns (st: Status, ghost after: seq<map<Point, Chunk>>)
      requires layers == ls && w == Snapshot() && w.Sane() && Fit(ls, w.chunkSize) && Distinct(ls)
      requires Makes(bs, w, ls, pick) && start == Caches(ls)
      modifies layers`chunks
      ensures w == Snapshot() && after == Caches(ls) && (st, after) == RowWalk(start, bs, win.left, y, win.width)
    {
      after := start;
      var dx := 0;
      while dx < win.width
        invariant 0 <= dx <= win.width
        invariant w == Snapshot() && after == Caches(ls) && (Pass, after) == RowWalk(start, bs, win.left, y, dx)
      {
        ghost var cur := after;
        st, after := BuildLayers((win.left + dx, y), pick, w, ls, bs, cur);
        RowWalkNext(start, bs, win.left, y, dx, win.width, cur, st, after);
        if st.Fail? {
          return;
        }
        dx := dx + 1;
      }
      st := Pass;
    }

    /** `for layer in self.layers: layer.build_chunk(self, p)`: the layers
        store their builds of `p` in order until one raises. */
    method BuildLayers(p: Point, pick: Picker, ghost w: World, ghost ls: seq<Layer>,
                       ghost bs: seq<Point -> Result<Chunk>>, ghost start: seq<map<Point, Chunk>>)
      returns (st: Status, ghost after: seq<map<Point, Chunk>>)
      requires layers == ls && w == Snapshot() && w.Sane() && Fit(ls, w.chunkSize) && Distinct(ls)
      requires Makes(bs, w, ls, pick) && start == Caches(ls)
      modifies layers`chunks
      ensures w == Snapshot() && after == Caches(ls) && (st, after) == StoreAll(start, bs, p, 0)
    {
      after := start;
      var k := 0;
      while k < |layers|
        invariant 0 <= k <= |ls| && layers == ls
        invariant w == Snapshot() && after == Caches(ls) && |after| == |bs|
        invariant StoreAll(after, bs, p, k) == StoreAll(start, bs, p, 0)
      {
        st := StoreLayer(layers[k], k, p, pick, w, ls, bs);
        StoreAllNext(after, bs, p, k);
        after := Caches(ls);
        if st.Fail? {
          return;
        }
        k := k + 1;
      }
      st := Pass;
    }

    /** `layer.build_chunk(self, p)` for layer `k`: it stores its build of
        `p`, or raises and keeps its cache; no other layer changes. */
    method StoreLayer(layer: Layer, k: nat, p: Point, pick: Picker, ghost w: World, ghost ls: seq<Layer>,
                      ghost bs: seq<Point -> Result<Chunk>>) returns (st: Status)
      requires layers == ls && w == Snapshot() && w.Sane() && Fit(ls, w.chunkSize) && Distinct(ls)
      requires Makes(bs, w, ls, pick) && k < |ls| && layer == ls[k]
      modifies layer`chunks
      ensures w == Snapshot()
      ensures bs[k](p).Err? ==> st == Fail(bs[k](p).error) && Caches(ls) == old(Caches(ls))
      ensures bs[k](p).Ok? ==> st == Pass && Caches(ls) == old(Caches(ls))[k := old(Caches(ls))[k][p := bs[k](p).value]]
    {
      ghost var before := Caches(ls);
      CachesAt(ls);
      st := layer.BuildChunk(this, p, pick);
      forall n | 0 <= n < |ls| && n != k
        ensures ls[n].chunks == before[n]
      {
        if n < k {
          assert Apart(ls, n, k);
        } else {
          assert Apart(ls, k, n);
        }
      }
      CachesBut(ls, before, k);
      assert bs[k](p) == LayerBuild(w, ls, k, p, pick);
    }

    /** `get_obstacles` for the player at pixel `player`: the obstacles of
        every built chunk of the obstacle window, layer by layer, each
        layer's chunks row by row. */
    method GetObstacles(player: Point) returns (obs: seq<Point>)
      requires Sane()
      ensures obs == GatherAll(Caches(layers), Points(ObstacleWindow(ChunkOf(player, chunkSize * tileSize))), Obstacles)
    {
      var win := ObstacleWindow(ChunkOf(player, chunkSize * tileSize));
      var caches := Caches(layers);
      obs := [];
      var k := 0;
      while k < |caches|
        invariant 0 <= k <= |caches|
        invariant obs == GatherAll(caches[..k], Points(win), Obstacles)
      {
        var more := GatherWindow(caches[k], win, Obstacles);
        assert caches[..k + 1] == caches[..k] + [caches[k]];
        GatherAllSnoc(caches[..k], caches[k], Points(win), Obstacles);
        obs := obs + more;
        k := k + 1;
      }
      assert caches[..k] == caches;
    }

    /** `get_objects` for the player at pixel `player`: the objects of every
        built chunk of the object window, skipping the layers that are not
        OBJECT layers. */
    method GetObjects(player: Point) returns (objs: seq<Placed>)
      requires Sane()
      ensures objs == GatherAll(ObjectCaches(Caches(layers), Kinds(layers)),
                                Points(ObjectWindow(ChunkOf(player, chunkSize * tileSize))), Objects)
    {
      var win := ObjectWindow(ChunkOf(player, chunkSize * tileSize));
      var caches, kinds := Caches(layers), Kinds(layers);
      objs := [];
      var k := 0;
      while k < |caches|
        invariant 0 <= k <= |caches|
        invariant objs == GatherAll(ObjectCaches(caches[..k], kinds[..k]), Points(win), Objects)
      {
        ObjectCachesNext(caches, kinds, k);
        if kinds[k] == Object {
          var more := GatherWindow(caches[k], win, Objects);
          GatherAllSnoc(ObjectCaches(caches[..k], kinds[..k]), caches[k], Points(win), Objects);
          objs := objs + more;
        } else {
          assert ObjectCaches(caches[..k], kinds[..k]) + [] == ObjectCaches(caches[..k], kinds[..k]);
        }
        k := k + 1;
      }
      assert caches[..k] == caches && kinds[..k] == kinds;
    }

    /** `draw(camera)` for the player at pixel `player` and a camera whose
        top-left corner is `camera`: layer by layer, build the chunks of
        the draw window the layer lacks, row by row, then hand the camera
        the layer's batch; returns the batches handed over, and the first
        exception ends the walk. */
    method Draw(player: Point, camera: Point, pick: Picker) returns (st: Status, drawn: seq<seq<Sprite>>)
      requires Valid()
      modifies layers`chunks
      ensures Valid() && layers == old(layers)
      ensures (st, Caches(layers), drawn) ==
                DrawFrom(old(Caches(layers)), old(Builts(pick)), Kinds(layers),
                         Points(DrawWindow(ChunkOf(player, chunkSize * tileSize))), chunkSize * tileSize, camera, 0)
    {
      ghost var ls: seq<Layer>, start: seq<map<Point, Chunk>>, bs := layers, Caches(layers), Builts(pick);
      ghost var w := Snapshot();
      BuildsOfMake(w, ls, pick);
      ValidKinds(ls);
      var span := chunkSize * tileSize;
      var win := DrawWindow(ChunkOf(player, span));
      ghost var after;
      st, drawn, after := DrawLayers(win, span, camera, pick, w, ls, bs, start);
      DrawKeepsKinds(start, bs, w, ls, pick, Points(win), span, camera, st, after, drawn);
      ValidKinds(ls);
    }

    /** `for layer in self.layers.values(): <draw layer>`. */
    method DrawLayers(win: Window, span: int, camera: Point, pick: Picker, ghost w: World, ghost ls: seq<Layer>,
                      ghost bs: seq<Point -> Result<Chunk>>, ghost start: seq<map<Point, Chunk>>)
      returns (st: Status, drawn: seq<seq<Sprite>>, ghost after: seq<map<Point, Chunk>>)
      requires layers == ls && w == Snapshot() && w.Sane() && Fit(ls, w.chunkSize) && Distinct(ls)
      requires Makes(bs, w, ls, pick) && start == Caches(ls)
      modifies layers`chunks
      ensures w == Snapshot() && after == Caches(ls)
      ensures (st, after, drawn) == DrawFrom(start, bs, Kinds(ls), Points(win), span, camera, 0)
    {
      ghost var ks, ps := Kinds(ls), Points(win);
      after := start;
      drawn := [];
      assert drawn + DrawFrom(after, bs, ks, ps, span, camera, 0).2 == DrawFrom(after, bs, ks, ps, span, camera, 0).2;
      var k := 0;
      while k < |layers|
        invariant 0 <= k <= |ls| && layers == ls
        invariant w == Snapshot() && after == Caches(ls) && |after| == |bs|
        invariant DrawFrom(start, bs, ks, ps, span, camera, 0) ==
                    (DrawFrom(after, bs, ks, ps, span, camera, k).0, DrawFrom(after, bs, ks, ps, span, camera, k).1,
                     drawn + DrawFrom(after, bs, ks, ps, span, camera, k).2)
      {
        var batch;
        st, batch := DrawLayer(layers[k], k, win, span, camera, pick, w, ls, bs);
        DrawFromNext(after, bs, ks, ps, span, camera, k);
        ghost var f := Fill(after[k], bs[k], ps);
        ghost var rest := DrawFrom(after[k := f.1], bs, ks, ps, span, camera, k + 1);
        after := Caches(ls);
        if st.Fail? {
          assert drawn + [] == drawn;
          return;
        }
        assert drawn + ([batch] + rest.2) == (drawn + [batch]) + rest.2;
        drawn := drawn + [batch];
        k := k + 1;
      }
      st := Pass;
      assert drawn + [] == drawn;
    }

    /** One layer of `draw`: it fills the chunks of `win` it lacks and, on
        success, its batch is the sprites of those chunks (none for an
        OBJECT layer); no other layer changes. */
    method DrawLayer(layer: Layer, k: nat, win: Window, span: int, camera: Point, pick: Picker,
                     ghost w: World, ghost ls: seq<Layer>, ghost bs: seq<Point -> Result<Chunk>>)
      returns (st: Status, batch: seq<Sprite>)
      requires layers == ls && w == Snapshot() && w.Sane() && Fit(ls, w.chunkSize) && Distinct(ls)
      requires Makes(bs, w, ls, pick) && k < |ls| && layer == ls[k]
      modifies layer`chunks
      ensures w == Snapshot()
      ensures var f := Fill(old(Caches(ls))[k], bs[k], Points(win));
              && st == f.0 && Caches(ls) == old(Caches(ls))[k := f.1]
              && (st == Pass ==> AllBuilt(f.1, Points(win)) &&
                                 batch == Batch(ls[k].genType, f.1, Points(win), span, camera))
    {
      ghost var before := Caches(ls);
      CachesAt(ls);
      st, batch := DrawRows(layer, k, win, span, camera, pick, w, ls, bs);
      forall n | 0 <= n < |ls| && n != k
        ensures ls[n].chunks == before[n]
      {
        if n < k {
          assert Apart(ls, n, k);
        } else {
          assert Apart(ls, k, n);
        }
      }
      CachesBut(ls, before, k);
    }

    /** `for j in range(cy - 2, cy + 2): <row j>` for one layer. */
    method DrawRows(layer: Layer, k: nat, win: Window, span: int, camera: Point, pick: Picker,
                    ghost w: World, ghost ls: seq<Layer>, ghost bs: seq<Point -> Result<Chunk>>)
      returns (st: Status, batch: seq<Sprite>)
      requires w == Snapshot() && w.Sane() && Fit(ls, w.chunkSize)
      requires Makes(bs, w, ls, pick) && k < |ls| && layer == ls[k]
      modifies layer`chunks
      ensures w == Snapshot()
      ensures (st, layer.chunks) == Fill(old(layer.chunks), bs[k], Points(win))
      ensures st == Pass ==> AllBuilt(layer.chunks, Points(win)) &&
                             batch == Batch(layer.genType, layer.chunks, Points(win), span, camera)
    {
      batch := [];
      var dy := 0;
      while dy < win.height
        invariant 0 <= dy <= win.height && w == Snapshot()
        invariant (Pass, layer.chunks) == Fill(old(layer.chunks), bs[k], Points(Window(win.left, win.top, win.width, dy)))
        invariant AllBuilt(layer.chunks, Points(Window(win.left, win.top, win.width, dy)))
        invariant batch == Batch(layer.genType, layer.chunks, Points(Window(win.left, win.top, win.width, dy)), span, camera)
      {
        ghost var done := Points(Window(win.left, win.top, win.width, dy));
        ghost var cur := layer.chunks;
        st, batch := DrawRow(layer, k, win.left, win.top + dy, win.width, span, camera, pick, w, ls, bs, done, batch);
        FillRowsNext(old(layer.chunks), bs[k], win, dy, cur, st, layer.chunks);
        if st.Fail? {
          return;
        }
        PointsNext(win, dy);
        dy := dy + 1;
      }
      st := Pass;
    }

    /** `for i in range(cx - 3, cx + 3): if (i, y) not in layer.chunks:
        layer.build_chunk(self, (i, y))`, appending each chunk's sprite to
        `batch` unless the layer is an OBJECT layer. */
    method DrawRow(layer: Layer, k: nat, left: int, y: int, n: nat, span: int, camera: Point, pick: Picker,
                   ghost w: World, ghost ls: seq<Layer>, ghost bs: seq<Point -> Result<Chunk>>,
                   ghost done: seq<Point>, batch0: seq<Sprite>)
      returns (st: Status, batch: seq<Sprite>)
      requires w == Snapshot() && w.Sane() && Fit(ls, w.chunkSize)
      requires Makes(bs, w, ls, pick) && k < |ls| && layer == ls[k]
      requires AllBuilt(layer.chunks, done)
      requires batch0 == Batch(layer.genType, layer.chunks, done, span, camera)
      modifies layer`chunks
      ensures w == Snapshot()
      ensures (st, layer.chunks) == Fill(old(layer.chunks), bs[k], RowPoints(left, y, n))
      ensures st == Pass ==> AllBuilt(layer.chunks, done + RowPoints(left, y, n)) &&
                             batch == Batch(layer.genType, layer.chunks, done + RowPoints(left, y, n), span, camera)
    {
      batch := batch0;
      assert done + RowPoints(left, y, 0) == done;
      var dx := 0;
      while dx < n
        invariant 0 <= dx <= n && w == Snapshot()
        invariant (Pass, layer.chunks) == Fill(old(layer.chunks), bs[k], RowPoints(left, y, dx))
        invariant AllBuilt(layer.chunks, done + RowPoints(left, y, dx))
        invariant batch == Batch(layer.genType, layer.chunks, done + RowPoints(left, y, dx), span, camera)
      {
        var p := (left + dx, y);
        ghost var seen := done + RowPoints(left, y, dx);
        ghost var mid := layer.chunks;
        assert done + RowPoints(left, y, dx + 1) == seen + [p];
        st, batch := DrawChunk(layer, k, p, span, camera, pick, w, ls, bs, seen, batch);
        FillRowNext(old(layer.chunks), bs[k], left, y, dx, n, mid, st, layer.chunks);
        if st.Fail? {
          return;
        }
        dx := dx + 1;
      }
      st := Pass;
    }

    /** One chunk of a row of `draw`: build chunk `p` if the layer lacks
        it, then append its sprite to `batch` unless the layer is an
        OBJECT layer. */
    method DrawChunk(layer: Layer, k: nat, p: Point, span: int, camera: Point, pick: Picker,
                     ghost w: World, ghost ls: seq<Layer>, ghost bs: seq<Point -> Result<Chunk>>,
                     ghost seen: seq<Point>, batch0: seq<Sprite>)
      returns (st: Status, batch: seq<Sprite>)
      requires w == Snapshot() && w.Sane() && Fit(ls, w.chunkSize)
      requires Makes(bs, w, ls, pick) && k < |ls| && layer == ls[k]
      requires AllBuilt(layer.chunks, seen)
      requires batch0 == Batch(layer.genType, layer.chunks, seen, span, camera)
      modifies layer`chunks
      ensures w == Snapshot()
      ensures (st, layer.chunks) == FillOne(old(layer.chunks), bs[k], p)
      ensures st == Pass ==> AllBuilt(layer.chunks, seen + [p]) &&
                             batch == Batch(layer.genType, layer.chunks, seen + [p], span, camera)
    {
      batch := batch0;
      st := Pass;
      if p !in layer.chunks {
        ghost var before := layer.chunks;
        st := layer.BuildChunk(this, p, pick);
        assert bs[k](p) == LayerBuild(w, ls, k, p, pick);
        if st.Fail? {
          return;
        }
        SpritesAgree(before, layer.chunks, seen, span, camera);
      }
      if layer.genType != Object {
        SpritesSnoc(layer.chunks, seen, p, span, camera);
        batch := batch + [Sprite(Surface(layer.chunks[p]), ScreenAt(p, span, camera))];
      }
    }

    /** `_find_similar_pattern`: the first stored key, in insertion order,
        that fits `query` position by position. */
    method FindSimilarPattern(query: Pattern) returns (r: Option<Pattern>)
      ensures r == SimilarKey(patterns, query)
    {
      var n := 0;
      while n < |patterns|
        invariant 0 <= n <= |patterns|
        invariant forall a :: 0 <= a < n ==> !Fits(patterns[a].key, query)
      {
        var p := patterns[n].key;
        var s: seq<int> := [];
        var d := 0;
        while d < 8
          invariant 0 <= d <= 8
          invariant s == Kept(p, query, d)
        {
          if query[d] == p[d] || p[d] == 0 {
            s := s + [p[d]];
          }
          d := d + 1;
        }
        KeptAll(p, query, 8);
        FitsEvery(p, query);
        if |s| == 8 {
          FirstFitAt(patterns, query, n);
          assert s == p;
          return Some(p);
        }
        n := n + 1;
      }
      return None;
    }

    /** `get_pattern`: exact key, then the first similar key, then the
        self-pattern of `original`, which must be a key. */
    method GetPattern(query: Pattern, original: int) returns (r: Result<seq<int>>)
      ensures r == Resolve(patterns, query, original)
    {
      var index := Lookup(patterns, query);
      if index.Some? {
        return Ok(index.value);
      }
      var p := FindSimilarPattern(query);
      var key := if p.None? then SelfPattern(original) else p.value;
      var c := Lookup(patterns, key);
      if c.None? {
        return Err(MissingPattern);
      }
      return Ok(c.value);
    }
  }
}
