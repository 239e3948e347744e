# Tilemap: a verified model of the chunked tile world

This project models the tile-map engine of `src/tilemap.py`: an infinite
world cut into square chunks, drawn in layers. A `Layer` builds a chunk on
demand from a raw grid its generator function makes (the chunk plus a
one-cell halo) and caches the result; what it builds depends on its
generation type:

- PATTERN MATCHING picks, for each cell, a tile whose Wang pattern fits the
  cell's eight neighbours, choosing at random among the candidates;
- RANDOM uses the raw value as a tile index (0 is empty);
- OBJECT places catalogued objects and marks their footprints as obstacles.

Every layer also marks the cells whose raw value is an obstacle tile. The
`Tilemap` holds the tileset, the Wang pattern table, the object catalog and
the layers. It loads tilesets and objects from parsed documents, generates a
square of chunks up front, builds the chunks around the player while
drawing, and answers the obstacle and object queries of the game loop.

The Dafny modules follow the program:

- `Common`: Python indexing and floor division, windows of chunk coordinates.
- `Patterns`: the pattern table, the three-stage resolver
  (`get_pattern` / `_find_similar_pattern`), wangset registration, the
  neighbourhood key and the tile choice of `pattern_matching`.
- `Chunks`: `build_chunk` as pure functions over a cell walk that mirrors
  its two nested loops, with the properties of each generation type.
- `Loading`: what `load_tileset` and `load_objects` take from their documents.
- `Streaming`: the windows of `generate`, `draw`, `get_obstacles` and
  `get_objects`, the row-by-row walks over them, and what they gather.
- `Engine`: the classes `Layer` and `Tilemap`. Their fields are updated in
  place by imperative methods, and each method is proved equal to the
  specification functions above.

## Model

| member | source | states |
|---|---|---|
| Common.PyIndex | src/tilemap.py:52 | `xs[index]` on a list of length n succeeds exactly when `-n <= index < n`, giving `index` or `index + n` |
| Common.FloorDiv | src/tilemap.py:227-229 | `a // b` is the floor of the quotient: `q*b <= a < q*b + b` for a positive divisor |
| Common.Span | src/tilemap.py:233-234 | the window of `range(x0, x1)` by `range(y0, y1)` contains exactly the points in those ranges |
| Patterns.SelfPattern | src/tilemap.py:102 | the degenerate pattern repeats the cell's value in all eight positions |
| Patterns.Find | src/tilemap.py:148 | the position of a key in the table is where that key is stored, and it is absent only when no entry has that key |
| Patterns.LookupStored | src/tilemap.py:148-151 | in a well-formed table, looking up a stored key gives that key's own candidate list |
| Patterns.KeptAll | src/tilemap.py:137-142 | the inner loop keeps all eight codes exactly when every stored code equals the query's or is the wildcard 0, and the kept codes are then the stored key itself |
| Patterns.FitsEvery | src/tilemap.py:139 | a stored key fits a query exactly when each of the eight positions fits |
| Patterns.FirstFit | src/tilemap.py:136-145 | the similar key is the first entry in insertion order that fits; none is found only when no entry fits |
| Patterns.FirstFitAt | src/tilemap.py:136-143 | an entry that fits, with no fitting entry before it, is the one the scan returns |
| Patterns.ResolveExact | src/tilemap.py:148-151 | a stored query is answered with its own list, whatever other keys fit |
| Patterns.ResolveFirstFit | src/tilemap.py:153-158 | with no exact key, the answer is the list of the first fitting key |
| Patterns.ResolveFallback | src/tilemap.py:155-156 | when no key fits, the answer is the self-pattern's list, and the lookup raises exactly when the self-pattern is not a key |
| Patterns.ResolveStored | src/tilemap.py:147-158 | every successful answer is the list of some stored key; a stored self-pattern guarantees an answer |
| Patterns.ExactBeforeWildcard | src/tilemap.py:148-158 | with a wildcard key stored first, the exact stage still wins for a stored query, which shows why the stages are ordered |
| Patterns.RegisterAllJoin | src/tilemap.py:189-195 | registering the wang tiles of `a` and then those of `b` is registering `a + b` |
| Patterns.RegisterAllSpec | src/tilemap.py:189-195 | registration keeps the table well formed and never moves or drops a key; each key's list becomes its old list (or a new one) extended by that key's tile ids in file order |
| Patterns.ExtendedTwice | src/tilemap.py:192-195 | appending two batches of ids to an entry is appending their concatenation |
| Patterns.RegisterKeys | src/tilemap.py:192-195 | one registration keeps the table well formed and its keys in place |
| Patterns.RegisterLookup | src/tilemap.py:192-195 | one registration appends the tile id to its own wangid's list and changes no other list |
| Patterns.CompassClockwise | src/tilemap.py:105-114 | the eight pattern positions start at north, turn clockwise a quarter every two steps, and name eight distinct neighbours |
| Patterns.Neighbourhood | src/tilemap.py:105-114 | position d of the key is the neighbour in compass direction d of cell (i, j) |
| Patterns.CellKey | src/tilemap.py:100-115 | a value-based cell is keyed by its self-pattern, any other cell by its neighbourhood |
| Patterns.ChooseTileSpec | src/tilemap.py:98-116 | the chosen tile is in the resolved candidate list and every candidate can be chosen; the choice raises exactly when resolution raises or the list is empty |
| Chunks.ChoiceIn | src/tilemap.py:50 | an interior cell of a covering grid has a full neighbourhood, so its choice is `pattern_matching` |
| Chunks.FootRowsSpec | src/tilemap.py:67-70 | the first rows of a footprint hold `rows * max(0, 2*w0+1)` cells, exactly those of the box |
| Chunks.FootprintSpec | src/tilemap.py:67-70 | an object of half-extent (w0, w1) marks `max(0, 2*w0+1) * max(0, 2*w1+1)` cells, exactly the box around its cell |
| Chunks.FootprintThreeByThree | src/tilemap.py:67-70 | half-extent (1, 1) marks the 3 x 3 block around the cell |
| Chunks.PlacedCentred | src/tilemap.py:73-81 | the draw position centres the image on the object's world cell, and the anchor lies `right_offset` to the right of that cell's corner |
| Chunks.BuildKind | src/tilemap.py:88-96 | a built chunk holds objects exactly when the layer is an OBJECT layer, and a surface otherwise |
| Chunks.RowOk | src/tilemap.py:45 | a row of the walk succeeds exactly when each of its cells does |
| Chunks.RowMembers | src/tilemap.py:45-84 | a row collects exactly the tiles, obstacles and objects its cells contribute |
| Chunks.RowsOk | src/tilemap.py:44-45 | the walk succeeds exactly when every interior cell does |
| Chunks.RowsMembers | src/tilemap.py:44-84 | the walk collects exactly what the interior cells contribute |
| Chunks.RowStuck | src/tilemap.py:45 | once a row has raised, the rest of the row raises the same exception |
| Chunks.RowsStuck | src/tilemap.py:44 | once the walk has raised, later rows do not run |
| Chunks.WalkStops | src/tilemap.py:44-84 | the walk raises the exception of the first failing cell in row-major order |
| Chunks.WalkStep | src/tilemap.py:45-84 | one more cell after a walk that has not raised appends that cell's contribution |
| Chunks.WalkRow | src/tilemap.py:44-45 | the end of row j is the walk of the first j rows |
| Chunks.Walker | src/tilemap.py:31-96 | there is a cell function standing for every interior cell of a chunk build, and the build is the assembled walk of it |
| Chunks.RowsSame | src/tilemap.py:44-45 | two cell functions that agree on the walked cells give the same walk |
| Chunks.RowSame | src/tilemap.py:45 | two cell functions that agree on a row give the same row |
| Chunks.RowMajorJoin | src/tilemap.py:44-45 | two row-major lists, the first wholly before the second, join into a row-major list |
| Chunks.RowRowMajor | src/tilemap.py:45-47 | when each cell marks at most its own cell, a row's obstacles are strictly increasing and lie on that row |
| Chunks.RowsRowMajor | src/tilemap.py:44-47 | when each cell marks at most its own cell, the walk's obstacles are strictly increasing in row-major order |
| Chunks.RowOneEach | src/tilemap.py:45-55 | with one tile per cell, tile i-1 of a row is cell i's tile |
| Chunks.RowsOneLength | src/tilemap.py:44-55 | with one tile per cell, the walk blits `m * width` tiles |
| Chunks.RowsOneAt | src/tilemap.py:44-55 | with one tile per cell, tile `(j-1)*width + (i-1)` is the tile of cell (i, j) |
| Chunks.BuildCells | src/tilemap.py:31-96 | whatever the generation type, a build succeeds exactly when every interior cell does |
| Chunks.MarkerCell | src/tilemap.py:46-47 | outside OBJECT layers, a cell marks its own world cell exactly when its raw value is an obstacle tile |
| Chunks.MarkerCells | src/tilemap.py:44-47 | in a successful build outside OBJECT layers, every interior cell contributes exactly its marker |
| Chunks.ObstacleCells | src/tilemap.py:44-47 | outside OBJECT layers, the obstacle list holds exactly the world cells of obstacle-tile values, in row-major order and each once |
| Chunks.PatternCell | src/tilemap.py:49-55 | a PATTERN MATCHING cell blits one tile, a candidate of its key, at its pixel offset |
| Chunks.PatternCells | src/tilemap.py:44-55 | every cell of a successful PATTERN MATCHING build blits one candidate tile |
| Chunks.PatternBatch | src/tilemap.py:44-55 | a PATTERN MATCHING chunk blits `chunk_size²` tiles, and slot `(j-1)*cs + (i-1)` holds a candidate for cell (i, j) |
| Chunks.RandomCell | src/tilemap.py:57-62 | a RANDOM cell raises exactly when its non-zero value is out of the tileset's range, and otherwise blits that tile or nothing for 0 |
| Chunks.RandomBatch | src/tilemap.py:44-62 | a RANDOM chunk succeeds exactly when every non-zero value indexes the tileset, and blits exactly the tiles of the non-zero cells |
| Chunks.ObjectCell | src/tilemap.py:64-84 | an OBJECT cell raises exactly when its value other than -1 is not in the catalog, and otherwise places that object and marks its footprint |
| Chunks.ObjectPlacement | src/tilemap.py:44-84 | an OBJECT chunk succeeds exactly when every value other than -1 is catalogued; it places exactly those objects and marks exactly their footprints |
| Chunks.HaloIgnored | src/tilemap.py:46-84 | outside PATTERN MATCHING layers the halo is never read: grids that agree on the interior build the same chunk |
| Loading.SliceRowSpec | src/tilemap.py:175-183 | a slice row holds n slices, slice x at `(x*tw, y*th)` |
| Loading.SliceGridLength | src/tilemap.py:174-183 | the slicing loops cut `rows * cols` slices |
| Loading.SliceGridAt | src/tilemap.py:174-183 | slice `y*cols + x` is the rectangle at `(x*tw, y*th)`: the tiles come in row-major order |
| Loading.TableAfterSpec | src/tilemap.py:185-197 | loading keeps the table well formed and every key in place; without wangsets it is unchanged, otherwise each key's list is extended by its tile ids in file order |
| Loading.CatalogEntry | src/tilemap.py:206-210 | an id is catalogued when it was before or some description names it; an id no description names keeps its entry |
| Loading.CatalogLast | src/tilemap.py:206-210 | the last description of an id decides its entry |
| Loading.CatalogSpec | src/tilemap.py:206-210 | the catalog holds exactly the old ids and the described ids; the last description of an id wins, and other entries are kept |
| Loading.CatalogOffset | src/tilemap.py:207-209 | an object's right offset is its image width minus its centre's x, and its footprint half-extent is the described width |
| Streaming.Windows | src/tilemap.py:227-234 | the player's pixel lies in the chunk the floor division names; the draw, obstacle and object windows are 6x4, 6x5 and 5x4 chunks around it and contain it |
| Streaming.WindowsNest | src/tilemap.py:233-234 | the draw window lies inside the obstacle window, and the object window inside the draw window |
| Streaming.RowPointsSpec | src/tilemap.py:221 | a row enumerates `(left + k, y)` for k from 0 to n-1 |
| Streaming.PointsSpec | src/tilemap.py:220-221 | a window's enumeration lists each of its chunks exactly once, in row-major order |
| Streaming.GatherJoin | src/tilemap.py:233-236 | gathering over `a + b` is gathering over a, then over b |
| Streaming.GatherMembers | src/tilemap.py:233-236 | exactly what some built chunk of the window holds is gathered |
| Streaming.GatherAllSnoc | src/tilemap.py:232-236 | gathering from one more layer appends what that layer holds |
| Streaming.GatherAllMembers | src/tilemap.py:232-236 | exactly what some built chunk of some layer holds is gathered |
| Streaming.GatherAllAt | src/tilemap.py:232-236 | an item of a built chunk in the window is gathered, and every gathered item is one |
| Streaming.GatherAllHas | src/tilemap.py:232-236 | what one layer gathers is in the whole gathering |
| Streaming.GatherAllFrom | src/tilemap.py:232-236 | every gathered item comes from some layer's gathering |
| Streaming.SpritesSpec | src/tilemap.py:276-287 | one sprite per chunk, the k-th being that chunk's surface at its screen position |
| Streaming.SpritesSnoc | src/tilemap.py:277-287 | one more chunk appends its sprite |
| Streaming.SpritesAgree | src/tilemap.py:276-287 | sprites only look at the chunks listed |
| Streaming.RebuiltStep | src/tilemap.py:223 | storing the build of one of the chunks keeps a cache rebuilt within them |
| Streaming.HeldStored | src/tilemap.py:222-223 | storing a build never loses a held chunk |
| Streaming.EachRebuiltStep | src/tilemap.py:222-223 | storing the builds of a chunk keeps every layer's cache rebuilt within the window |
| Streaming.StoreAllSpec | src/tilemap.py:222-223 | layers before k are left alone; on success every later layer holds its build of p; an exception is some layer's build of p |
| Streaming.StoreAllNext | src/tilemap.py:222-223 | layer k either raises, ending the walk unchanged, or stores its build of p and the walk goes on |
| Streaming.StoreEachNext | src/tilemap.py:220-223 | one more chunk continues the walk unless it has raised |
| Streaming.StoreEachJoin | src/tilemap.py:220-223 | walking `a + b` walks a, then b unless a raised |
| Streaming.StoreEachRebuilt | src/tilemap.py:220-223 | the walk changes a cache only by storing builds of the walked chunks |
| Streaming.StoreEachHeld | src/tilemap.py:220-223 | the walk never loses a held chunk, and on success every layer holds its build of each walked chunk |
| Streaming.StoreEachFails | src/tilemap.py:220-223 | an exception is some layer's build of one of the walked chunks |
| Streaming.RowWalkEach | src/tilemap.py:221-223 | a row of the walk is the walk over that row's chunks |
| Streaming.RowWalkNext | src/tilemap.py:221-223 | one more chunk of a row continues the row; a failure there is the failure of the whole row |
| Streaming.RowWalkStops | src/tilemap.py:221-223 | once a row has raised, the rest of the row changes nothing |
| Streaming.RowsWalkEach | src/tilemap.py:220-223 | the first h rows of the walk are the walk over their chunks |
| Streaming.RowsWalkNext | src/tilemap.py:220-223 | one more row continues the walk; a failure there is the failure of the whole window |
| Streaming.RowsWalkStops | src/tilemap.py:220-223 | once a row has raised, the remaining rows change nothing |
| Streaming.StoreWindowSpec | src/tilemap.py:212-223 | `generate` changes caches only within its window; on success every layer holds its build of every chunk of the window; an exception is some layer's build of a chunk of it |
| Streaming.FillSpec | src/tilemap.py:271-275 | drawing a layer keeps every chunk it had and adds only builds of window chunks; on success every window chunk is built; an exception is the build of a chunk the layer lacked |
| Streaming.FillJoin | src/tilemap.py:271-275 | filling `a + b` is filling a, then b unless a raised |
| Streaming.FillRowStops | src/tilemap.py:272-275 | a row that raised at a chunk stops there |
| Streaming.FillRowNext | src/tilemap.py:272-275 | filling one more chunk continues the row; a failure there is the failure of the whole row |
| Streaming.FillRowsNext | src/tilemap.py:271-275 | filling one more row continues the window; a failure there is the failure of the whole window |
| Streaming.FillRowsStops | src/tilemap.py:271-275 | rows after a failure change nothing |
| Streaming.DrawFromSpec | src/tilemap.py:260-289 | `draw` lets each layer only gain builds of window chunks; on success each layer has every window chunk and hands over one batch, its sprites (none for OBJECT layers); an exception is the build of a chunk some layer lacked, and only earlier layers were drawn |
| Streaming.DrawFromNext | src/tilemap.py:268-289 | one layer fills its chunks, then raises, ending the walk, or hands over its batch and the walk goes on |
| Engine.Layer.constructor | src/tilemap.py:20-29 | a new layer has the given configuration and an empty chunk cache |
| Engine.Layer.PatternMatching | src/tilemap.py:98-116 | the tile id `pattern_matching` returns is the choice among the candidates of the cell's key |
| Engine.Layer.BuildCell | src/tilemap.py:46-84 | the loop body for interior cell (i, j) contributes what the build's cell function says |
| Engine.Layer.PlaceTile | src/tilemap.py:49-55 | the PATTERN MATCHING branch blits the chosen tile at the cell's pixel offset, or raises |
| Engine.Layer.PlaceRandom | src/tilemap.py:57-62 | the RANDOM branch blits the tile the raw value indexes, nothing for 0, or raises |
| Engine.Layer.PlaceObject | src/tilemap.py:64-84 | the OBJECT branch marks the footprint and places the object at its draw and anchor positions, or raises |
| Engine.Layer.BuildRow | src/tilemap.py:45-84 | the inner loop extends the lists of the rows before with row j |
| Engine.Layer.BuildChunk | src/tilemap.py:31-96 | `build_chunk` stores the built chunk under its position, or raises and leaves the cache unchanged; cached chunks keep their layer's kind |
| Engine.MarkFootprint | src/tilemap.py:67-70 | the nested footprint loops append exactly the object's footprint |
| Engine.CutSlices | src/tilemap.py:174-183 | the slicing loops cut exactly the tileset's slices |
| Engine.ValidKinds | src/tilemap.py:88-96 | the layers are valid exactly when every cached chunk has its layer's kind |
| Engine.KindsKept | src/tilemap.py:88-96 | rebuilding caches with what their layers build keeps every cached chunk of its layer's kind |
| Engine.WalkKeepsKinds | src/tilemap.py:220-223 | the generate walk over a window is the walk over its chunks and keeps cached chunks of their layers' kinds |
| Engine.GatherWindow | src/tilemap.py:233-236 | the nested query loops over one layer gather exactly what its built chunks of the window hold |
| Engine.GatherRow | src/tilemap.py:234-236 | the inner query loop gathers exactly what the row's built chunks hold |
| Engine.ObjectCachesNext | src/tilemap.py:247-250 | one more layer adds its cache exactly when it is an OBJECT layer |
| Engine.ObjectCachesSpec | src/tilemap.py:247-250 | a cache is among the object caches exactly when it belongs to an OBJECT layer |
| Engine.DrawKeepsKinds | src/tilemap.py:268-275 | drawing keeps every cached chunk of the kind its layer builds |
| Engine.Tilemap.constructor | src/tilemap.py:119-133 | a new tile map has 16 x 16 chunks of 16-pixel tiles, empty tileset, catalog and table, and one foreground layer with the given configuration and no chunks |
| Engine.Tilemap.AddLayer | src/tilemap.py:126 | a configured layer joins the layers last; a layer object already among them is refused with no change; tileset, catalog and table never change |
| Engine.Tilemap.LoadTileset | src/tilemap.py:160-197 | a zero tile height raises and changes nothing; otherwise the slices are appended to the tileset and the table becomes the table after the document's wangsets |
| Engine.Tilemap.RegisterWangsets | src/tilemap.py:189-195 | the wangset loops register every wang tile of every wangset in file order |
| Engine.Tilemap.RegisterWangset | src/tilemap.py:190-195 | the wang tiles of one wangset are registered in file order |
| Engine.Tilemap.RegisterWangTile | src/tilemap.py:191-195 | a new wangid gets `[tileid]`; a known one has tileid appended |
| Engine.Tilemap.LoadObjects | src/tilemap.py:199-210 | the catalog becomes the old catalog with each description stored in order under its id; nothing else changes |
| Engine.Tilemap.Generate | src/tilemap.py:212-223 | with `radius` 3 unless given, every layer builds every chunk of `range(-radius, radius)` squared, row by row, until the first exception; the caches are the walk's result and keep their layers' kinds |
| Engine.Tilemap.GenerateRows | src/tilemap.py:220-223 | the outer loop of `generate` walks the rows of the window |
| Engine.Tilemap.GenerateRow | src/tilemap.py:221-223 | the middle loop of `generate` walks one row |
| Engine.Tilemap.BuildLayers | src/tilemap.py:222-223 | the layers store their builds of one chunk in order until one raises |
| Engine.Tilemap.StoreLayer | src/tilemap.py:223 | one layer stores its build or raises keeping its cache; no other layer changes |
| Engine.Tilemap.GetObstacles | src/tilemap.py:225-238 | the obstacles of every built chunk of the 6x5 window around the player, layer by layer, each layer row by row |
| Engine.Tilemap.GetObjects | src/tilemap.py:240-257 | the objects of every built chunk of the 5x4 window around the player, from OBJECT layers only |
| Engine.Tilemap.Draw | src/tilemap.py:260-289 | layer by layer, the missing chunks of the 6x4 window are built and the layer's batch is handed to the camera; the caches, the batches and the first exception are those of the draw walk, and cached chunks keep their layers' kinds |
| Engine.Tilemap.DrawLayers | src/tilemap.py:268-289 | the layer loop of `draw` is the draw walk |
| Engine.Tilemap.DrawLayer | src/tilemap.py:269-289 | one layer fills its missing window chunks and, on success, hands over its sprites; no other layer changes |
| Engine.Tilemap.DrawRows | src/tilemap.py:271-287 | the row loop of one layer fills the window and collects its sprites |
| Engine.Tilemap.DrawRow | src/tilemap.py:272-287 | the inner loop fills one row and appends its sprites |
| Engine.Tilemap.DrawChunk | src/tilemap.py:274-287 | a missing chunk is built, then its sprite is appended unless the layer is an OBJECT layer |
| Engine.Tilemap.FindSimilarPattern | src/tilemap.py:135-145 | the first stored key, in insertion order, that fits the query, or none |
| Engine.Tilemap.GetPattern | src/tilemap.py:147-158 | the candidates of the exact key, else of the first similar key, else of the self-pattern, which raises when it is not a key |

## Left out

- Rendering is not modelled. pygame surfaces, `Surface(...)`, `fblits` and `subsurface` become data: a chunk holds its blit batch, a tile is a tileset position with a rectangle, and an image is an integer handle.
- `camera.draw` is not called. `Draw` returns the batches it would hand to the camera, and `camera.rect.topleft` is a parameter.
- Floating-point `pygame.Vector2` arithmetic and `round` are modelled on integers. The tile size is required to be even, so `tile_size * 0.5` is exact and `round` is the identity on the whole-pixel positions drawn. The OBJECT footprint cells, which the source appends as `Vector2`, are modelled as integer pairs like the other obstacles.
- File, JSON and image I/O are not modelled. `LoadTileset` and `LoadObjects` take the parsed documents, including each object's image handle and width.
- The generator function and opensimplex are a parameter. Each layer carries an optional function from chunk coordinates to the raw grid, and it must cover the chunk and its halo. `generate`'s seed, the `OpenSimplex` noise object it gives the foreground and the module `generation` are not modelled, and neither are `noise_generator` and `based_layer`.
- `random.choice` is modelled by a draw. A `Picker` gives a non-negative number per world cell, and the candidate at that number modulo the list length is chosen. One `Picker` serves a whole `Generate` or `Draw` call, so every layer sees the same draw at a world cell; the source draws afresh each time.
- The layers dict of the source is a sequence in insertion order. It is keyed by name, and only the foreground layer is made by the constructor. `AddLayer` models a `layers[name] = layer` insertion under a new name; no caller in the source performs one, so every tile map the source builds has the foreground as its only layer. `game.py` is not part of this model.
- Engine.Tilemap.AddLayer: the layers are distinct objects. A layer object already held is refused (`SharedLayer`) instead of being stored under a second name, and replacing the layer of an existing name is not modelled. So the model does not capture an aliased layer building its chunks twice in `generate` and handing its batch to the camera twice in `draw`.
- Patterns are eight codes long (the `Pattern` subset type), as Tiled writes wangids. A wangid of another length cannot be represented: in the source a shorter stored key makes `_find_similar_pattern` raise IndexError, and a longer one yields a truncated key that `get_pattern` then fails to find.
- `thresholds`, the tile map's own `value_based_tiles` and `player` are not modelled. The first two are never read by the core; the player's hitbox position is a pixel parameter of the queries and of `Draw`.
- The generation type is one of four values. The source compares strings, and any other string builds like a plain layer (marking obstacles only).
- Engine.Tilemap.Generate: its ensures only ties the new caches and status to the `StoreEach` walk over the window. The derived properties (changes only within the window, every chunk held on success, the exception's origin) are proved once in `Streaming.StoreWindowSpec` about that walk.
- Engine.Tilemap.GetObstacles and Engine.Tilemap.GetObjects read a snapshot of the caches taken at the start. The source reads `layer.chunks` as it goes, which is the same value because the queries change nothing.
- A layer's configuration (generation type, value-based tiles, obstacle tiles, generator) is fixed when it is made, and the foreground's is given to the tile map's constructor. The source assigns these attributes after construction and never changes them during the operations modelled.
- Object entries keep their `src` path, but the image loaded from it is modelled by the handle given in the document.
