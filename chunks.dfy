/** What `Layer.build_chunk` (src/tilemap.py) makes of one chunk, as pure
    functions: the per-cell contribution, the row-major walk over the
    interior cells of the halo grid, and the finished chunk artifact. */
module Chunks {
  import opened Common
  import opened Patterns

  /** One entry of a chunk's blit batch: the tileset position of the tile
      image and its pixel offset inside the chunk surface. */
  datatype Blit = Blit(tile: nat, x: int, y: int)

  /** An object placed by an OBJECT layer: its image, the world pixel where
      the image is drawn and the obstacle anchor used by gameplay. */
  datatype Placed = Placed(image: int, pos: Point, anchor: Point)

  /** A built chunk: the blit batch of a raster layer (composited into the
      chunk surface) or the placed objects of an OBJECT layer, with the
      obstacle world cells in both cases. */
  datatype Chunk =
    | Raster(tiles: seq<Blit>, obstacles: seq<Point>)
    | Props(objects: seq<Placed>, obstacles: seq<Point>)

  /** An entry of the object catalog (`MapObject`): `center` is the pixel
      centre of its image, `width` the obstacle half-extent in cells, and
      `rightOffset` the image width minus the centre's x. */
  datatype MapObject = MapObject(id: int, src: string, center: Point, width: Point, rightOffset: int, image: int)

  /** The four values of `Layer.generation_type` the engine distinguishes;
      `Plain` stands for every other string (the default ""). */
  datatype GenType = PatternMatching | Random | Object | Plain

  /** A generator function: the raw halo grid of a chunk coordinate. */
  type Generator = (int, int) -> Grid

  /** A random source: the draw `random.choice` makes at a world cell. */
  type Picker = (int, int) -> nat

  /** The tile id `pattern_matching` returns for interior cell `(i, j)` of a
      chunk, or the exception it raises. */
  type Chooser = (int, int) -> Result<int>

  /** The configuration of a layer that `build_chunk` reads. */
  datatype Setup = Setup(genType: GenType, valueBased: seq<int>, obstacleTiles: seq<int>, generator: Option<Generator>)

  /** The tile map state that `build_chunk` reads: sizes, the number of tile
      images, the pattern table and the object catalog. */
  datatype World = World(chunkSize: int, tileSize: int, tileCount: nat, patterns: Table, objects: map<int, MapObject>)
  {
    /** Positive sizes; an even tile size makes `tile_size * 0.5` exact. */
    predicate Sane()
    {
      chunkSize > 0 && tileSize > 0 && tileSize % 2 == 0
    }
  }

  /** The grid holds the chunk and its one-cell halo: rows and columns 0 to cs + 1. */
  predicate Covers(grid: Grid, cs: int)
  {
    |grid| >= cs + 2 && forall r :: 0 <= r < cs + 2 ==> |grid[r]| >= cs + 2
  }

  /** Every grid the layer's generator makes covers a chunk of size `cs`. */
  ghost predicate GeneratorFits(s: Setup, cs: int)
  {
    s.generator.Some? ==> forall x, y :: Covers(s.generator.value(x, y), cs)
  }

  lemma GeneratorCovers(s: Setup, cs: int, x: int, y: int)
    requires GeneratorFits(s, cs) && s.generator.Some?
    ensures Covers(s.generator.value(x, y), cs)
  {
  }

  /** Everything one chunk build depends on; `choose` stands for the calls
      to `pattern_matching` (see `Choices` and `ChoosesBy`). */
  datatype Job = Job(w: World, s: Setup, grid: Grid, chunk: Point, choose: Chooser)
  {
    predicate Ready()
    {
      w.Sane() && Covers(grid, w.chunkSize)
    }

    /** The interior cells: `1 <= i, j <= chunk_size`. */
    predicate Interior(i: int, j: int)
    {
      1 <= i <= w.chunkSize && 1 <= j <= w.chunkSize
    }

    /** The raw value of an interior cell. */
    function Raw(i: int, j: int): int
      requires Ready() && Interior(i, j)
    {
      grid[j][i]
    }

    /** The world cell of interior cell `(i, j)`. */
    function WorldCell(i: int, j: int): Point
    {
      (chunk.0 * w.chunkSize + i - 1, chunk.1 * w.chunkSize + j - 1)
    }

    /** `choose` is `pattern_matching` on this grid with the draws of `pick`. */
    ghost predicate ChoosesBy(pick: Picker)
      requires Ready()
    {
      forall i, j :: Interior(i, j) ==>
        var cell := WorldCell(i, j);
        choose(i, j) == ChooseTile(w.patterns, grid, i, j, s.valueBased, pick(cell.0, cell.1))
    }
  }

  /** `pattern_matching` for every cell of `grid`, drawing with `pick` at the
      world cell of chunk `chunk`. */
  function Choices(w: World, s: Setup, grid: Grid, chunk: Point, pick: Picker): Chooser
  {
    (i, j) =>
      if Around(grid, i, j)
      then ChooseTile(w.patterns, grid, i, j, s.valueBased, pick(chunk.0 * w.chunkSize + i - 1, chunk.1 * w.chunkSize + j - 1))
      else Err(MissingPattern)
  }

  /** `Choices` at a cell with a full neighbourhood is `pattern_matching` there. */
  lemma ChoiceAt(w: World, s: Setup, grid: Grid, chunk: Point, pick: Picker, i: int, j: int)
    requires Around(grid, i, j)
    ensures Choices(w, s, grid, chunk, pick)(i, j) ==
              ChooseTile(w.patterns, grid, i, j, s.valueBased, pick(chunk.0 * w.chunkSize + i - 1, chunk.1 * w.chunkSize + j - 1))
  {
  }

  /** The job of a chunk build chooses its pattern tiles with `pick`. */
  lemma JobChooses(w: World, s: Setup, chunk: Point, pick: Picker)
    requires w.Sane() && GeneratorFits(s, w.chunkSize) && s.generator.Some?
    ensures JobOf(w, s, chunk, pick).ChoosesBy(pick)
  {
    var job := JobOf(w, s, chunk, pick);
    var grid := job.grid;
    assert job.choose == Choices(w, s, grid, chunk, pick);
    forall i, j | job.Interior(i, j)
      ensures job.choose(i, j) ==
                ChooseTile(w.patterns, grid, i, j, s.valueBased, pick(job.WorldCell(i, j).0, job.WorldCell(i, j).1))
    {
      ChoiceIn(job, pick, i, j);
    }
  }

  /** An interior cell of a covering grid has a full neighbourhood, so the
      choice there is `pattern_matching`'s. */
  lemma ChoiceIn(job: Job, pick: Picker, i: int, j: int)
    requires job.Ready() && job.Interior(i, j) && job.choose == Choices(job.w, job.s, job.grid, job.chunk, pick)
    ensures job.choose(i, j) ==
              ChooseTile(job.w.patterns, job.grid, i, j, job.s.valueBased, pick(job.WorldCell(i, j).0, job.WorldCell(i, j).1))
  {
    var cs := job.w.chunkSize;
    assert |job.grid[j - 1]| >= cs + 2 && |job.grid[j]| >= cs + 2 && |job.grid[j + 1]| >= cs + 2;
    ChoiceAt(job.w, job.s, job.grid, job.chunk, pick, i, j);
  }

  /** What one cell adds to the three lists `build_chunk` fills. */
  datatype Parts = Parts(tiles: seq<Blit>, obstacles: seq<Point>, objects: seq<Placed>)

  const NoParts := Parts([], [], [])

  function Join(a: Parts, b: Parts): Parts
  {
    Parts(a.tiles + b.tiles, a.obstacles + b.obstacles, a.objects + b.objects)
  }

  /** Run `a`, then `b`: the first exception wins. */
  function Then(a: Result<Parts>, b: Result<Parts>): Result<Parts>
  {
    if a.Err? then a else if b.Err? then b else Ok(Join(a.value, b.value))
  }

  // ---------------------------------------------------------------------
  // Object footprints

  /** The cells `(x + k, y)` for `k` in `range(-w0, w0 + 1)`. */
  function FootRow(x: int, y: int, w0: int): seq<Point>
  {
    seq(Len(2 * w0 + 1), k => (x - w0 + k, y))
  }

  /** The rows `y0` to `y0 + rows - 1` of a footprint, in order. */
  function FootRows(x: int, y0: int, w0: int, rows: nat): seq<Point>
  {
    if rows == 0 then [] else FootRows(x, y0, w0, rows - 1) + FootRow(x, y0 + rows - 1, w0)
  }

  /** The obstacle cells an object of half-extent `width` marks around cell
      `(x, y)`, row by row (`l` outer, `k` inner). */
  function Footprint(x: int, y: int, width: Point): seq<Point>
  {
    FootRows(x, y - width.1, width.0, Len(2 * width.1 + 1))
  }

  lemma {:induction false} FootRowsSpec(x: int, y0: int, w0: int, rows: nat)
    ensures |FootRows(x, y0, w0, rows)| == rows * Len(2 * w0 + 1)
    ensures forall p: Point :: p in FootRows(x, y0, w0, rows) <==>
              x - w0 <= p.0 <= x + w0 && y0 <= p.1 < y0 + rows
  {
    if rows > 0 {
      FootRowsSpec(x, y0, w0, rows - 1);
      var row := FootRow(x, y0 + rows - 1, w0);
      forall p: Point | x - w0 <= p.0 <= x + w0 && p.1 == y0 + rows - 1
        ensures p in row
      {
        assert row[p.0 - x + w0] == p;
      }
    }
  }

  /** A footprint holds `(2*w0+1) * (2*w1+1)` cells (none on an axis whose
      half-extent is negative), exactly those of the box
      `[x-w0, x+w0] x [y-w1, y+w1]`. */
  lemma FootprintSpec(x: int, y: int, width: Point)
    ensures |Footprint(x, y, width)| == Len(2 * width.0 + 1) * Len(2 * width.1 + 1)
    ensures forall p: Point :: p in Footprint(x, y, width) <==>
              x - width.0 <= p.0 <= x + width.0 && y - width.1 <= p.1 <= y + width.1
  {
    FootRowsSpec(x, y - width.1, width.0, Len(2 * width.1 + 1));
  }

  /** The half-extent [1, 1] marks the 3 x 3 block around the cell. */
  lemma FootprintThreeByThree()
    ensures |Footprint(5, 5, (1, 1))| == 9
    ensures forall p: Point :: p in Footprint(5, 5, (1, 1)) <==> 4 <= p.0 <= 6 && 4 <= p.1 <= 6
  {
    FootprintSpec(5, 5, (1, 1));
  }

  // ---------------------------------------------------------------------
  // One cell

  /** The object an OBJECT layer places at interior cell `(i, j)` for catalog
      entry `o`: `(i-1, j-1)*ts + cs*ts*chunk + ts/2 - center`, anchored at
      `cell*ts + (right_offset, 0)`. */
  function PlacedAt(job: Job, i: int, j: int, o: MapObject): Placed
  {
    var ts, cs := job.w.tileSize, job.w.chunkSize;
    var cell := job.WorldCell(i, j);
    Placed(o.image,
           ((i - 1) * ts + cs * ts * job.chunk.0 + ts / 2 - o.center.0,
            (j - 1) * ts + cs * ts * job.chunk.1 + ts / 2 - o.center.1),
           (cell.0 * ts + o.rightOffset, cell.1 * ts))
  }

  /** The draw position centres the image on the object's world cell. */
  lemma PlacedCentred(job: Job, i: int, j: int, o: MapObject)
    ensures var cell := job.WorldCell(i, j);
            var ts := job.w.tileSize;
            PlacedAt(job, i, j, o).pos ==
              (cell.0 * ts + ts / 2 - o.center.0, cell.1 * ts + ts / 2 - o.center.1)
    ensures PlacedAt(job, i, j, o).anchor.0 - PlacedAt(job, i, j, o).pos.0 ==
              o.rightOffset + o.center.0 - job.w.tileSize / 2
  {
    var ts, cs := job.w.tileSize, job.w.chunkSize;
    assert (job.chunk.0 * cs + i - 1) * ts == (i - 1) * ts + cs * ts * job.chunk.0;
    assert (job.chunk.1 * cs + j - 1) * ts == (j - 1) * ts + cs * ts * job.chunk.1;
  }

  /** The obstacle marker of a cell whose raw value is an obstacle tile. */
  function Marker(job: Job, i: int, j: int): seq<Point>
    requires job.Ready() && job.Interior(i, j)
  {
    if job.Raw(i, j) in job.s.obstacleTiles then [job.WorldCell(i, j)] else []
  }

  /** What the loop body of `build_chunk` adds for interior cell `(i, j)`,
      or the exception it raises there. */
  function CellParts(job: Job, i: int, j: int): Result<Parts>
    requires job.Ready() && job.Interior(i, j)
  {
    var ts := job.w.tileSize;
    var v := job.Raw(i, j);
    var cell := job.WorldCell(i, j);
    var marker := Marker(job, i, j);
    match job.s.genType
    case PatternMatching =>
      (match job.choose(i, j)
       case Err(e) => Err(e)
       case Ok(index) =>
         (match PyIndex(index, job.w.tileCount)
          case None => Err(TileOutOfRange)
          case Some(t) => Ok(Parts([Blit(t, (i - 1) * ts, (j - 1) * ts)], marker, []))))
    case Random =>
      if v == 0 then Ok(Parts([], marker, []))
      else
        (match PyIndex(v, job.w.tileCount)
         case None => Err(TileOutOfRange)
         case Some(t) => Ok(Parts([Blit(t, (i - 1) * ts, (j - 1) * ts)], marker, [])))
    case Object =>
      if v == -1 then Ok(Parts([], marker, []))
      else if v !in job.w.objects then Err(UnknownObject)
      else
        var o := job.w.objects[v];
        Ok(Parts([], marker + Footprint(cell.0, cell.1, o.width), [PlacedAt(job, i, j, o)]))
    case Plain => Ok(Parts([], marker, []))
  }

  /** The cells of a job as a function value, so that the walk below can be
      reasoned about without unfolding `CellParts`. */
  function Cells(job: Job): CellFn
    requires job.Ready()
  {
    (i, j) => if job.Interior(i, j) then CellParts(job, i, j) else Ok(NoParts)
  }

  // ---------------------------------------------------------------------
  // The row-major walk

  /** The contribution of every cell `(i, j)`. */
  type CellFn = (int, int) -> Result<Parts>

  /** The contribution of a cell, or nothing when the cell raises. */
  function Made(f: CellFn, i: int, j: int): Parts
  {
    match f(i, j)
    case Ok(p) => p
    case Err(_) => NoParts
  }

  /** Cells `(1, j)` to `(n, j)` of row `j`, left to right. */
  function Row(f: CellFn, j: int, n: nat): Result<Parts>
  {
    if n == 0 then Ok(NoParts) else Then(Row(f, j, n - 1), f(n, j))
  }

  /** Rows 1 to `m` of width `width`, top to bottom. */
  function Rows(f: CellFn, width: nat, m: nat): Result<Parts>
  {
    if m == 0 then Ok(NoParts) else Then(Rows(f, width, m - 1), Row(f, m, width))
  }

  /** The chunk artifact `build_chunk` stores: objects for an OBJECT layer,
      the blit batch otherwise, with the obstacle list in both cases. */
  function Finish(genType: GenType, p: Parts): Chunk
  {
    if genType == Object then Props(p.objects, p.obstacles) else Raster(p.tiles, p.obstacles)
  }

  /** The whole build for a given raw grid. */
  function BuildFrom(job: Job): Result<Chunk>
    requires job.Ready()
  {
    Assemble(job.s.genType, Rows(Cells(job), job.w.chunkSize, job.w.chunkSize))
  }

  /** The artifact of a finished walk, or the exception it raised. */
  function Assemble(genType: GenType, r: Result<Parts>): Result<Chunk>
  {
    match r
    case Err(e) => Err(e)
    case Ok(p) => Ok(Finish(genType, p))
  }

  /** The build job of chunk `chunk` for a layer that has a generator. */
  function JobOf(w: World, s: Setup, chunk: Point, pick: Picker): (job: Job)
    requires w.Sane() && GeneratorFits(s, w.chunkSize) && s.generator.Some?
    ensures job.Ready()
    ensures job.w == w && job.s == s && job.chunk == chunk && job.grid == s.generator.value(chunk.0, chunk.1)
  {
    var grid := s.generator.value(chunk.0, chunk.1);
    GeneratorCovers(s, w.chunkSize, chunk.0, chunk.1);
    Job(w, s, grid, chunk, Choices(w, s, grid, chunk, pick))
  }

  /** `build_chunk(tilemap, chunk)`: NoGenerator without a generator
      function, otherwise the build of the grid it makes for `chunk`. */
  function Build(w: World, s: Setup, chunk: Point, pick: Picker): Result<Chunk>
    requires w.Sane() && GeneratorFits(s, w.chunkSize)
  {
    if s.generator.None? then Err(NoGenerator) else BuildFrom(JobOf(w, s, chunk, pick))
  }

  /** `build_chunk` of one layer as a function of the chunk coordinate. */
  function Builds(w: World, s: Setup, pick: Picker): Point -> Result<Chunk>
    requires w.Sane() && GeneratorFits(s, w.chunkSize)
  {
    p => Build(w, s, p, pick)
  }

  /** The artifact kind always matches the layer's generation type. */
  lemma BuildKind(w: World, s: Setup, chunk: Point, pick: Picker)
    requires w.Sane() && GeneratorFits(s, w.chunkSize)
    ensures Build(w, s, chunk, pick).Ok? ==> (Build(w, s, chunk, pick).value.Props? <==> s.genType == Object)
  {
  }

  // ---------------------------------------------------------------------
  // What the walk collects

  /** A row succeeds when each of its cells does. */
  lemma {:induction false} RowOk(f: CellFn, j: int, n: nat)
    ensures Row(f, j, n).Ok? <==> forall i :: 1 <= i <= n ==> f(i, j).Ok?
  {
    if n > 0 {
      RowOk(f, j, n - 1);
    }
  }

  /** A row collects exactly what its cells contribute. */
  lemma {:induction false} RowMembers(f: CellFn, j: int, n: nat)
    requires Row(f, j, n).Ok?
    ensures forall x :: x in Row(f, j, n).value.obstacles <==> exists i :: 1 <= i <= n && x in Made(f, i, j).obstacles
    ensures forall x :: x in Row(f, j, n).value.tiles <==> exists i :: 1 <= i <= n && x in Made(f, i, j).tiles
    ensures forall x :: x in Row(f, j, n).value.objects <==> exists i :: 1 <= i <= n && x in Made(f, i, j).objects
  {
    if n > 0 {
      RowMembers(f, j, n - 1);
      assert Made(f, n, j) == f(n, j).value;
    }
  }

  /** The walk succeeds when every cell does. */
  lemma {:induction false} RowsOk(f: CellFn, width: nat, m: nat)
    ensures Rows(f, width, m).Ok? <==> forall i, j :: 1 <= i <= width && 1 <= j <= m ==> f(i, j).Ok?
  {
    if m > 0 {
      RowsOk(f, width, m - 1);
      RowOk(f, m, width);
    }
  }

  /** The walk collects exactly what the cells contribute. */
  lemma {:induction false} RowsMembers(f: CellFn, width: nat, m: nat)
    requires Rows(f, width, m).Ok?
    ensures forall x :: x in Rows(f, width, m).value.obstacles <==>
              exists i, j :: 1 <= i <= width && 1 <= j <= m && x in Made(f, i, j).obstacles
    ensures forall x :: x in Rows(f, width, m).value.tiles <==>
              exists i, j :: 1 <= i <= width && 1 <= j <= m && x in Made(f, i, j).tiles
    ensures forall x :: x in Rows(f, width, m).value.objects <==>
              exists i, j :: 1 <= i <= width && 1 <= j <= m && x in Made(f, i, j).objects
  {
    if m > 0 {
      RowsMembers(f, width, m - 1);
      RowMembers(f, m, width);
    }
  }

  /** Once a row has raised, the rest of the row raises the same exception. */
  lemma {:induction false} RowStuck(f: CellFn, j: int, a: nat, n: nat)
    requires a <= n && Row(f, j, a).Err?
    ensures Row(f, j, n) == Row(f, j, a)
  {
    if a < n {
      RowStuck(f, j, a, n - 1);
    }
  }

  /** Once the walk has raised, later rows do not run. */
  lemma {:induction false} RowsStuck(f: CellFn, width: nat, a: nat, m: nat)
    requires a <= m && Rows(f, width, a).Err?
    ensures Rows(f, width, m) == Rows(f, width, a)
  {
    if a < m {
      RowsStuck(f, width, a, m - 1);
    }
  }

  /** The walk raises the exception of the first cell, in row-major order,
      that raises. */
  lemma WalkStops(f: CellFn, width: nat, m: nat, i: nat, j: nat)
    requires 1 <= i <= width && 1 <= j <= m
    requires Rows(f, width, j - 1).Ok? && Row(f, j, i - 1).Ok? && f(i, j).Err?
    ensures Rows(f, width, m) == Err(f(i, j).error)
  {
    RowStuck(f, j, i, width);
    RowsStuck(f, width, j, m);
  }

  /** One more cell of row `j` after a walk that has not raised. */
  lemma WalkStep(f: CellFn, width: nat, j: nat, i: nat, acc: Parts)
    requires 1 <= j && 1 <= i
    requires Then(Rows(f, width, j - 1), Row(f, j, i - 1)) == Ok(acc) && f(i, j).Ok?
    ensures Then(Rows(f, width, j - 1), Row(f, j, i)) == Ok(Join(acc, f(i, j).value))
  {
    var r := Rows(f, width, j - 1).value;
    var w := Row(f, j, i - 1).value;
    var c := f(i, j).value;
    assert Join(Join(r, w), c) == Join(r, Join(w, c));
  }

  /** The end of row `j` is the walk of the first `j` rows. */
  lemma WalkRow(f: CellFn, width: nat, j: nat, acc: Parts)
    requires 1 <= j && Then(Rows(f, width, j - 1), Row(f, j, width)) == Ok(acc)
    ensures Rows(f, width, j) == Ok(acc)
  {
  }

  /** A cell function that stands for the cells of a chunk build wherever
      a cell's parts are mentioned, and whose walk is that build. */
  lemma Walker(w: World, s: Setup, chunk: Point, pick: Picker) returns (f: CellFn)
    requires w.Sane() && GeneratorFits(s, w.chunkSize) && s.generator.Some?
    ensures forall i, j {:trigger CellParts(JobOf(w, s, chunk, pick), i, j)} ::
              1 <= i <= w.chunkSize && 1 <= j <= w.chunkSize ==> f(i, j) == CellParts(JobOf(w, s, chunk, pick), i, j)
    ensures Build(w, s, chunk, pick) == Assemble(s.genType, Rows(f, w.chunkSize, w.chunkSize))
  {
    f := Cells(JobOf(w, s, chunk, pick));
  }

  /** Two cell functions that agree on the walked cells give the same walk. */
  lemma {:induction false} RowsSame(f: CellFn, g: CellFn, width: nat, m: nat)
    requires forall i, j :: 1 <= i <= width && 1 <= j <= m ==> f(i, j) == g(i, j)
    ensures Rows(f, width, m) == Rows(g, width, m)
  {
    if m > 0 {
      RowsSame(f, g, width, m - 1);
      RowSame(f, g, m, width);
    }
  }

  lemma {:induction false} RowSame(f: CellFn, g: CellFn, j: int, n: nat)
    requires forall i :: 1 <= i <= n ==> f(i, j) == g(i, j)
    ensures Row(f, j, n) == Row(g, j, n)
  {
    if n > 0 {
      RowSame(f, g, j, n - 1);
    }
  }

  // ---------------------------------------------------------------------
  // Row-major order

  /** `a` comes before `b` in row-major order of world cells. */
  predicate Before(a: Point, b: Point)
  {
    a.1 < b.1 || (a.1 == b.1 && a.0 < b.0)
  }

  /** Strictly increasing in row-major order, hence without repetition. */
  predicate RowMajor(s: seq<Point>)
  {
    forall a, b :: 0 <= a < b < |s| ==> Before(s[a], s[b])
  }

  lemma RowMajorJoin(s: seq<Point>, t: seq<Point>)
    requires RowMajor(s) && RowMajor(t)
    requires forall a, b :: 0 <= a < |s| && 0 <= b < |t| ==> Before(s[a], t[b])
    ensures RowMajor(s + t)
  {
    forall a, b | 0 <= a < b < |s + t|
      ensures Before((s + t)[a], (s + t)[b])
    {
      if b < |s| {
      } else if a >= |s| {
        assert Before(t[a - |s|], t[b - |s|]);
      } else {
        assert Before(s[a], t[b - |s|]);
      }
    }
  }

  /** Each cell marks at most its own cell `(x0 + i, y0 + j)`. */
  ghost predicate MarksOwnCell(f: CellFn, x0: int, y0: int, width: nat, m: nat)
  {
    forall i, j :: 1 <= i <= width && 1 <= j <= m ==>
      Made(f, i, j).obstacles == [] || Made(f, i, j).obstacles == [(x0 + i, y0 + j)]
  }

  lemma {:induction false} RowRowMajor(f: CellFn, x0: int, y0: int, width: nat, j: int, n: nat)
    requires 1 <= j && n <= width && MarksOwnCell(f, x0, y0, width, j) && Row(f, j, n).Ok?
    ensures RowMajor(Row(f, j, n).value.obstacles)
    ensures forall c :: c in Row(f, j, n).value.obstacles ==> c.1 == y0 + j && x0 < c.0 <= x0 + n
  {
    if n > 0 {
      RowRowMajor(f, x0, y0, width, j, n - 1);
      var prev := Row(f, j, n - 1).value.obstacles;
      var cell := f(n, j).value.obstacles;
      assert Made(f, n, j).obstacles == cell;
      RowMajorJoin(prev, cell);
      assert Row(f, j, n).value.obstacles == prev + cell;
    }
  }

  lemma {:induction false} RowsRowMajor(f: CellFn, x0: int, y0: int, width: nat, m: nat)
    requires MarksOwnCell(f, x0, y0, width, m) && Rows(f, width, m).Ok?
    ensures RowMajor(Rows(f, width, m).value.obstacles)
    ensures forall c :: c in Rows(f, width, m).value.obstacles ==> y0 < c.1 <= y0 + m
  {
    if m > 0 {
      RowsRowMajor(f, x0, y0, width, m - 1);
      RowRowMajor(f, x0, y0, width, m, width);
      var prev := Rows(f, width, m - 1).value.obstacles;
      var row := Row(f, m, width).value.obstacles;
      forall a, b | 0 <= a < |prev| && 0 <= b < |row|
        ensures Before(prev[a], row[b])
      {
        assert prev[a] in prev && row[b] in row;
      }
      RowMajorJoin(prev, row);
    }
  }

  // ---------------------------------------------------------------------
  // One tile per cell

  lemma {:induction false} RowOneEach(f: CellFn, j: int, n: nat)
    requires Row(f, j, n).Ok?
    requires forall i :: 1 <= i <= n ==> |Made(f, i, j).tiles| == 1
    ensures |Row(f, j, n).value.tiles| == n
    ensures forall i :: 1 <= i <= n ==> Row(f, j, n).value.tiles[i - 1] == Made(f, i, j).tiles[0]
  {
    if n > 0 {
      RowOneEach(f, j, n - 1);
      assert Made(f, n, j) == f(n, j).value;
    }
  }

  lemma {:induction false} RowsOneLength(f: CellFn, width: nat, m: nat)
    requires Rows(f, width, m).Ok?
    requires forall i, j :: 1 <= i <= width && 1 <= j <= m ==> |Made(f, i, j).tiles| == 1
    ensures |Rows(f, width, m).value.tiles| == m * width
  {
    if m > 0 {
      RowsOneLength(f, width, m - 1);
      RowOneEach(f, m, width);
      assert (m - 1) * width + width == m * width;
    }
  }

  lemma {:induction false} RowsOneAt(f: CellFn, width: nat, m: nat, i: int, j: int)
    requires Rows(f, width, m).Ok?
    requires forall i, j :: 1 <= i <= width && 1 <= j <= m ==> |Made(f, i, j).tiles| == 1
    requires 1 <= i <= width && 1 <= j <= m
    ensures 0 <= (j - 1) * width + (i - 1) < |Rows(f, width, m).value.tiles|
    ensures Rows(f, width, m).value.tiles[(j - 1) * width + (i - 1)] == Made(f, i, j).tiles[0]
  {
    RowsOneLength(f, width, m - 1);
    RowOneEach(f, m, width);
    SlotBounds(i, j, width, m);
    var prev := Rows(f, width, m - 1).value.tiles;
    var row := Row(f, m, width).value.tiles;
    assert Rows(f, width, m).value.tiles == prev + row;
    if j < m {
      RowsOneAt(f, width, m - 1, i, j);
      assert (prev + row)[(j - 1) * width + (i - 1)] == prev[(j - 1) * width + (i - 1)];
    } else {
      assert (prev + row)[(j - 1) * width + (i - 1)] == row[i - 1];
    }
  }

  lemma SlotBounds(i: int, j: int, width: nat, m: nat)
    requires 1 <= i <= width && 1 <= j <= m
    ensures 0 <= (j - 1) * width + (i - 1) < m * width
    ensures m * width == (m - 1) * width + width
    ensures j < m ==> (j - 1) * width + (i - 1) < (m - 1) * width
    ensures j == m ==> (j - 1) * width + (i - 1) == (m - 1) * width + (i - 1)
  {
    assert (j - 1) * width + width == j * width;
    if j < m {
      assert j * width <= (m - 1) * width;
    }
  }

  // ---------------------------------------------------------------------
  // What each generation type builds

  /** Whatever the generation type, a build succeeds when every interior cell does. */
  lemma BuildCells(job: Job)
    requires job.Ready()
    ensures BuildFrom(job).Ok? <==> forall i, j :: job.Interior(i, j) ==> CellParts(job, i, j).Ok?
  {
    var cs := job.w.chunkSize;
    RowsOk(Cells(job), cs, cs);
    forall i, j | job.Interior(i, j) ensures Cells(job)(i, j) == CellParts(job, i, j) {}
  }

  lemma WorldCellShift(job: Job, i: int, j: int)
    ensures job.WorldCell(i, j) == (job.WorldCell(0, 0).0 + i, job.WorldCell(0, 0).1 + j)
  {
  }

  /** Outside OBJECT layers a cell marks its own world cell exactly when its
      raw value is an obstacle tile. */
  lemma MarkerCell(job: Job, i: int, j: int)
    requires job.Ready() && job.Interior(i, j) && job.s.genType != Object
    ensures CellParts(job, i, j).Ok? ==> Made(Cells(job), i, j).obstacles == Marker(job, i, j)
    ensures Marker(job, i, j) == if job.Raw(i, j) in job.s.obstacleTiles then [job.WorldCell(i, j)] else []
  {
  }

  /** Every interior cell of a successful build outside OBJECT layers
      contributes its marker. */
  lemma MarkerCells(job: Job)
    requires job.Ready() && job.s.genType != Object && BuildFrom(job).Ok?
    ensures Rows(Cells(job), job.w.chunkSize, job.w.chunkSize).Ok?
    ensures forall i, j :: job.Interior(i, j) ==> Made(Cells(job), i, j).obstacles == Marker(job, i, j)
  {
    BuildCells(job);
    forall i, j | job.Interior(i, j)
      ensures Made(Cells(job), i, j).obstacles == Marker(job, i, j)
    {
      MarkerCell(job, i, j);
    }
  }

  /** Outside OBJECT layers the obstacle list holds, in row-major order and
      once each, exactly the world cells of the interior cells whose raw
      value is an obstacle tile; halo cells never appear. */
  lemma ObstacleCells(job: Job)
    requires job.Ready() && job.s.genType != Object && BuildFrom(job).Ok?
    ensures RowMajor(BuildFrom(job).value.obstacles)
    ensures forall c: Point :: c in BuildFrom(job).value.obstacles <==>
              exists i, j :: job.Interior(i, j) && job.Raw(i, j) in job.s.obstacleTiles && c == job.WorldCell(i, j)
  {
    var cs := job.w.chunkSize;
    var f := Cells(job);
    MarkerCells(job);
    var x0, y0 := job.WorldCell(0, 0).0, job.WorldCell(0, 0).1;
    forall i, j | 1 <= i <= cs && 1 <= j <= cs
      ensures Made(f, i, j).obstacles == [] || Made(f, i, j).obstacles == [(x0 + i, y0 + j)]
    {
      MarkerCell(job, i, j);
      WorldCellShift(job, i, j);
    }
    RowsRowMajor(f, x0, y0, cs, cs);
    RowsMembers(f, cs, cs);
    var obs := Rows(f, cs, cs).value.obstacles;
    assert BuildFrom(job).value.obstacles == obs;
    forall c: Point
      ensures c in obs <==> exists i, j :: job.Interior(i, j) && job.Raw(i, j) in job.s.obstacleTiles && c == job.WorldCell(i, j)
    {
      if c in obs {
        var i, j :| 1 <= i <= cs && 1 <= j <= cs && c in Made(f, i, j).obstacles;
        MarkerCell(job, i, j);
      }
      if exists i, j :: job.Interior(i, j) && job.Raw(i, j) in job.s.obstacleTiles && c == job.WorldCell(i, j) {
        var i, j :| job.Interior(i, j) && job.Raw(i, j) in job.s.obstacleTiles && c == job.WorldCell(i, j);
        MarkerCell(job, i, j);
        assert c in Made(f, i, j).obstacles;
      }
    }
  }

  /** The blit a PATTERN MATCHING layer may make at interior cell `(i, j)`:
      at the cell's offset, with a tile whose index is a candidate of the
      list the resolver gives for the cell's key. */
  ghost predicate Candidate(job: Job, i: int, j: int, b: Blit)
    requires job.Ready() && job.Interior(i, j)
  {
    var ts := job.w.tileSize;
    var r := Resolve(job.w.patterns, CellKey(job.grid, i, j, job.s.valueBased), job.grid[j][i]);
    && b.x == (i - 1) * ts && b.y == (j - 1) * ts
    && r.Ok? && exists x :: x in r.value && PyIndex(x, job.w.tileCount) == Some(b.tile)
  }

  lemma PatternCell(job: Job, pick: Picker, i: int, j: int)
    requires job.Ready() && job.ChoosesBy(pick) && job.Interior(i, j)
    requires job.s.genType == PatternMatching && CellParts(job, i, j).Ok?
    ensures |Made(Cells(job), i, j).tiles| == 1 && Candidate(job, i, j, Made(Cells(job), i, j).tiles[0])
  {
    var cell := job.WorldCell(i, j);
    ChooseTileSpec(job.w.patterns, job.grid, i, j, job.s.valueBased, pick(cell.0, cell.1));
  }

  lemma PatternCells(job: Job, pick: Picker)
    requires job.Ready() && job.ChoosesBy(pick) && job.s.genType == PatternMatching && BuildFrom(job).Ok?
    ensures Rows(Cells(job), job.w.chunkSize, job.w.chunkSize).Ok?
    ensures forall i, j :: 1 <= i <= job.w.chunkSize && 1 <= j <= job.w.chunkSize ==>
              |Made(Cells(job), i, j).tiles| == 1 && Candidate(job, i, j, Made(Cells(job), i, j).tiles[0])
  {
    BuildCells(job);
    forall i, j | 1 <= i <= job.w.chunkSize && 1 <= j <= job.w.chunkSize
      ensures |Made(Cells(job), i, j).tiles| == 1 && Candidate(job, i, j, Made(Cells(job), i, j).tiles[0])
    {
      PatternCell(job, pick, i, j);
    }
  }

  /** A PATTERN MATCHING layer blits exactly one tile per interior cell, in
      row-major order: tile `(j - 1) * chunkSize + (i - 1)` is a candidate
      for cell `(i, j)`. */
  lemma PatternBatch(job: Job, pick: Picker, i: int, j: int)
    requires job.Ready() && job.ChoosesBy(pick) && job.s.genType == PatternMatching && BuildFrom(job).Ok?
    requires job.Interior(i, j)
    ensures |BuildFrom(job).value.tiles| == job.w.chunkSize * job.w.chunkSize
    ensures 0 <= (j - 1) * job.w.chunkSize + (i - 1) < |BuildFrom(job).value.tiles|
    ensures Candidate(job, i, j, BuildFrom(job).value.tiles[(j - 1) * job.w.chunkSize + (i - 1)])
  {
    var cs := job.w.chunkSize;
    var f := Cells(job);
    PatternCells(job, pick);
    RowsOneLength(f, cs, cs);
    RowsOneAt(f, cs, cs, i, j);
    assert BuildFrom(job).value.tiles == Rows(f, cs, cs).value.tiles;
  }

  /** The blits a RANDOM cell makes: none for raw value 0, otherwise the
      tile its raw value names (Python indexing) at the cell's offset. */
  function RandomBlits(job: Job, i: int, j: int): seq<Blit>
    requires job.Ready() && job.Interior(i, j)
  {
    var v, ts := job.Raw(i, j), job.w.tileSize;
    if v == 0 || PyIndex(v, job.w.tileCount).None? then []
    else [Blit(PyIndex(v, job.w.tileCount).value, (i - 1) * ts, (j - 1) * ts)]
  }

  lemma RandomCell(job: Job, i: int, j: int)
    requires job.Ready() && job.Interior(i, j) && job.s.genType == Random
    ensures CellParts(job, i, j).Ok? <==> (job.Raw(i, j) != 0 ==> PyIndex(job.Raw(i, j), job.w.tileCount).Some?)
    ensures CellParts(job, i, j).Ok? ==> Made(Cells(job), i, j).tiles == RandomBlits(job, i, j)
  {
  }

  /** A RANDOM layer succeeds when every non-zero raw value indexes the
      tileset, and then blits exactly the non-zero cells, each with the tile
      its raw value names, at its own offset. */
  lemma RandomBatch(job: Job)
    requires job.Ready() && job.s.genType == Random
    ensures BuildFrom(job).Ok? <==>
              forall i, j :: job.Interior(i, j) && job.Raw(i, j) != 0 ==> PyIndex(job.Raw(i, j), job.w.tileCount).Some?
    ensures BuildFrom(job).Ok? ==>
              forall b :: b in BuildFrom(job).value.tiles <==>
                exists i, j :: job.Interior(i, j) && job.Raw(i, j) != 0 &&
                  b == Blit(PyIndex(job.Raw(i, j), job.w.tileCount).value, (i - 1) * job.w.tileSize, (j - 1) * job.w.tileSize)
  {
    var cs := job.w.chunkSize;
    var f := Cells(job);
    BuildCells(job);
    forall i, j | job.Interior(i, j)
      ensures CellParts(job, i, j).Ok? <==> (job.Raw(i, j) != 0 ==> PyIndex(job.Raw(i, j), job.w.tileCount).Some?)
    {
      RandomCell(job, i, j);
    }
    if BuildFrom(job).Ok? {
      forall i, j | 1 <= i <= cs && 1 <= j <= cs
        ensures Made(f, i, j).tiles == RandomBlits(job, i, j)
      {
        RandomCell(job, i, j);
      }
      assert Rows(f, cs, cs).Ok?;
      RowsMembers(f, cs, cs);
      var tiles := Rows(f, cs, cs).value.tiles;
      assert BuildFrom(job).value.tiles == tiles;
      forall b
        ensures b in tiles <==> exists i, j :: (job.Interior(i, j) && job.Raw(i, j) != 0 &&
                  b == Blit(PyIndex(job.Raw(i, j), job.w.tileCount).value, (i - 1) * job.w.tileSize, (j - 1) * job.w.tileSize))
      {
        if b in tiles {
          var i, j :| 1 <= i <= cs && 1 <= j <= cs && b in Made(f, i, j).tiles;
          assert b in RandomBlits(job, i, j);
        }
        if exists i, j :: job.Interior(i, j) && job.Raw(i, j) != 0 &&
             b == Blit(PyIndex(job.Raw(i, j), job.w.tileCount).value, (i - 1) * job.w.tileSize, (j - 1) * job.w.tileSize) {
          var i, j :| job.Interior(i, j) && job.Raw(i, j) != 0 &&
             b == Blit(PyIndex(job.Raw(i, j), job.w.tileCount).value, (i - 1) * job.w.tileSize, (j - 1) * job.w.tileSize);
          assert b in Made(f, i, j).tiles;
        }
      }
    }
  }

  /** The obstacle cells an OBJECT cell contributes, as a set condition: its
      own world cell when the raw value is an obstacle tile, and the
      footprint box of the object it places. */
  ghost predicate ObjectMarks(job: Job, i: int, j: int, c: Point)
    requires job.Ready() && job.Interior(i, j)
  {
    var v, cell := job.Raw(i, j), job.WorldCell(i, j);
    || (v in job.s.obstacleTiles && c == cell)
    || (v != -1 && v in job.w.objects &&
        var wd := job.w.objects[v].width;
        cell.0 - wd.0 <= c.0 <= cell.0 + wd.0 && cell.1 - wd.1 <= c.1 <= cell.1 + wd.1)
  }

  lemma ObjectCell(job: Job, i: int, j: int)
    requires job.Ready() && job.Interior(i, j) && job.s.genType == Object
    ensures CellParts(job, i, j).Ok? <==> (job.Raw(i, j) != -1 ==> job.Raw(i, j) in job.w.objects)
    ensures CellParts(job, i, j).Ok? ==>
              Made(Cells(job), i, j).objects ==
                (if job.Raw(i, j) == -1 then [] else [PlacedAt(job, i, j, job.w.objects[job.Raw(i, j)])])
    ensures CellParts(job, i, j).Ok? ==>
              forall c: Point :: c in Made(Cells(job), i, j).obstacles <==> ObjectMarks(job, i, j, c)
  {
    var v, cell := job.Raw(i, j), job.WorldCell(i, j);
    if v != -1 && v in job.w.objects {
      FootprintSpec(cell.0, cell.1, job.w.objects[v].width);
    }
  }

  /** An OBJECT layer succeeds when every raw value other than -1 is in the
      catalog; it then places one object per such cell, centred on it, and
      marks the obstacle tiles plus each object's whole footprint (which may
      reach into neighbouring chunks). */
  lemma ObjectPlacement(job: Job)
    requires job.Ready() && job.s.genType == Object
    ensures BuildFrom(job).Ok? <==>
              forall i, j :: job.Interior(i, j) && job.Raw(i, j) != -1 ==> job.Raw(i, j) in job.w.objects
    ensures BuildFrom(job).Ok? ==>
              forall o :: o in BuildFrom(job).value.objects <==>
                exists i, j :: job.Interior(i, j) && job.Raw(i, j) != -1 && job.Raw(i, j) in job.w.objects &&
                  o == PlacedAt(job, i, j, job.w.objects[job.Raw(i, j)])
    ensures BuildFrom(job).Ok? ==>
              forall c: Point :: c in BuildFrom(job).value.obstacles <==>
                exists i, j :: job.Interior(i, j) && ObjectMarks(job, i, j, c)
  {
    var cs := job.w.chunkSize;
    var f := Cells(job);
    BuildCells(job);
    forall i, j | job.Interior(i, j)
      ensures CellParts(job, i, j).Ok? <==> (job.Raw(i, j) != -1 ==> job.Raw(i, j) in job.w.objects)
    {
      ObjectCell(job, i, j);
    }
    if BuildFrom(job).Ok? {
      assert Rows(f, cs, cs).Ok?;
      RowsMembers(f, cs, cs);
      var p := Rows(f, cs, cs).value;
      assert BuildFrom(job).value.objects == p.objects;
      assert BuildFrom(job).value.obstacles == p.obstacles;
      forall o
        ensures o in p.objects <==> exists i, j :: (job.Interior(i, j) && job.Raw(i, j) != -1 && job.Raw(i, j) in job.w.objects &&
                  o == PlacedAt(job, i, j, job.w.objects[job.Raw(i, j)]))
      {
        if o in p.objects {
          var i, j :| 1 <= i <= cs && 1 <= j <= cs && o in Made(f, i, j).objects;
          ObjectCell(job, i, j);
        }
        if exists i, j :: job.Interior(i, j) && job.Raw(i, j) != -1 && job.Raw(i, j) in job.w.objects &&
             o == PlacedAt(job, i, j, job.w.objects[job.Raw(i, j)]) {
          var i, j :| job.Interior(i, j) && job.Raw(i, j) != -1 && job.Raw(i, j) in job.w.objects &&
             o == PlacedAt(job, i, j, job.w.objects[job.Raw(i, j)]);
          ObjectCell(job, i, j);
          assert o in Made(f, i, j).objects;
        }
      }
      forall c: Point
        ensures c in p.obstacles <==> exists i, j :: job.Interior(i, j) && ObjectMarks(job, i, j, c)
      {
        if c in p.obstacles {
          var i, j :| 1 <= i <= cs && 1 <= j <= cs && c in Made(f, i, j).obstacles;
          ObjectCell(job, i, j);
        }
        if exists i, j :: job.Interior(i, j) && ObjectMarks(job, i, j, c) {
          var i, j :| job.Interior(i, j) && ObjectMarks(job, i, j, c);
          ObjectCell(job, i, j);
          assert c in Made(f, i, j).obstacles;
        }
      }
    }
  }

  /** Outside PATTERN MATCHING layers the halo is never read: two grids that
      agree on the interior cells build the same chunk. */
  lemma HaloIgnored(job: Job, grid: Grid)
    requires job.Ready() && job.s.genType != PatternMatching && Covers(grid, job.w.chunkSize)
    requires forall i, j :: job.Interior(i, j) ==> grid[j][i] == job.grid[j][i]
    ensures BuildFrom(job.(grid := grid)) == BuildFrom(job)
  {
    var other := job.(grid := grid);
    var cs := job.w.chunkSize;
    forall i, j | 1 <= i <= cs && 1 <= j <= cs
      ensures Cells(other)(i, j) == Cells(job)(i, j)
    {
      assert other.WorldCell(i, j) == job.WorldCell(i, j);
    }
    RowsSame(Cells(other), Cells(job), cs, cs);
  }
}
