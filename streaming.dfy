/** The chunk windows of `Tilemap.generate`, `draw`, `get_obstacles` and
    `get_objects` (src/tilemap.py), walked row by row as their nested
    loops do, and what the queries gather from the built chunks. */
module Streaming {
  import opened Common
  import opened Chunks

  // ---------------------------------------------------------------------
  // Windows around the player

  /** The chunk holding pixel `px`: `px // (chunk_size * tile_size)`. */
  function ChunkOf(px: Point, span: int): Point
    requires span > 0
  {
    (FloorDiv(px.0, span), FloorDiv(px.1, span))
  }

  /** The chunks `draw` keeps built: `range(cx - 3, cx + 3)` by `range(cy - 2, cy + 2)`. */
  function DrawWindow(c: Point): Window
  {
    Span(c.0 - 3, c.0 + 3, c.1 - 2, c.1 + 2)
  }

  /** The chunks `get_obstacles` reads: `range(cx - 3, cx + 3)` by `range(cy - 2, cy + 3)`. */
  function ObstacleWindow(c: Point): Window
  {
    Span(c.0 - 3, c.0 + 3, c.1 - 2, c.1 + 3)
  }

  /** The chunks `get_objects` reads: `range(cx - 2, cx + 3)` by `range(cy - 2, cy + 2)`. */
  function ObjectWindow(c: Point): Window
  {
    Span(c.0 - 2, c.0 + 3, c.1 - 2, c.1 + 2)
  }

  /** The chunks `generate(radius)` builds: `range(-radius, radius)` squared. */
  function Square(radius: int): Window
  {
    Span(-radius, radius, -radius, radius)
  }

  /** The player's pixel lies inside the chunk `ChunkOf` names, and the
      windows are 6 x 4, 6 x 5 and 5 x 4 chunks around it. */
  lemma Windows(px: Point, span: int)
    requires span > 0
    ensures var c := ChunkOf(px, span);
            c.0 * span <= px.0 < c.0 * span + span && c.1 * span <= px.1 < c.1 * span + span
    ensures var c := ChunkOf(px, span);
            DrawWindow(c) == Window(c.0 - 3, c.1 - 2, 6, 4) &&
            ObstacleWindow(c) == Window(c.0 - 3, c.1 - 2, 6, 5) &&
            ObjectWindow(c) == Window(c.0 - 2, c.1 - 2, 5, 4)
    ensures var c := ChunkOf(px, span); DrawWindow(c).Contains(c) && ObstacleWindow(c).Contains(c) && ObjectWindow(c).Contains(c)
  {
  }

  /** The window `draw` keeps built lies inside the one `get_obstacles`
      reads, and the one `get_objects` reads lies inside both. */
  lemma WindowsNest(c: Point)
    ensures forall p: Point :: DrawWindow(c).Contains(p) ==> ObstacleWindow(c).Contains(p)
    ensures forall p: Point :: ObjectWindow(c).Contains(p) ==> DrawWindow(c).Contains(p)
  {
  }

  // ---------------------------------------------------------------------
  // Row-major enumeration of a window

  /** The chunks `(left, y)` to `(left + n - 1, y)`. */
  function RowPoints(left: int, y: int, n: nat): seq<Point>
  {
    if n == 0 then [] else RowPoints(left, y, n - 1) + [(left + n - 1, y)]
  }

  /** The chunks of `w` in the order of the loops `for j: for i:`. */
  function Points(w: Window): seq<Point>
    decreases w.height
  {
    if w.height == 0 then []
    else Points(Window(w.left, w.top, w.width, w.height - 1)) + RowPoints(w.left, w.top + w.height - 1, w.width)
  }

  /** One more row of a window appends that row's chunks. */
  lemma PointsNext(win: Window, dy: nat)
    ensures Points(Window(win.left, win.top, win.width, dy + 1))
         == Points(Window(win.left, win.top, win.width, dy)) + RowPoints(win.left, win.top + dy, win.width)
  {
  }

  lemma {:induction false} RowPointsSpec(left: int, y: int, n: nat)
    ensures |RowPoints(left, y, n)| == n
    ensures forall k :: 0 <= k < n ==> RowPoints(left, y, n)[k] == (left + k, y)
  {
    if n > 0 {
      RowPointsSpec(left, y, n - 1);
    }
  }

  /** A window's enumeration has each of its chunks exactly once, in
      row-major order. */
  lemma {:induction false} PointsSpec(w: Window)
    ensures |Points(w)| == w.width * w.height
    ensures forall p: Point :: p in Points(w) <==> w.Contains(p)
    ensures RowMajor(Points(w))
    decreases w.height
  {
    if w.height > 0 {
      var up := Window(w.left, w.top, w.width, w.height - 1);
      PointsSpec(up);
      RowPointsSpec(w.left, w.top + w.height - 1, w.width);
      var row := RowPoints(w.left, w.top + w.height - 1, w.width);
      assert w.width * w.height == w.width * (w.height - 1) + w.width;
      forall p: Point | w.Contains(p) ensures p in Points(up) + row {
        if p.1 < w.top + w.height - 1 {
          assert up.Contains(p);
        } else {
          assert row[p.0 - w.left] == p;
        }
      }
      assert RowMajor(row);
      forall a, b | 0 <= a < |Points(up)| && 0 <= b < |row|
        ensures Before(Points(up)[a], row[b])
      {
        assert Points(up)[a] in Points(up);
      }
      RowMajorJoin(Points(up), row);
    }
  }

  // ---------------------------------------------------------------------
  // Gathering from built chunks

  /** `for p in pts: if p in chunks: out.extend(part(chunks[p]))`. */
  function Gather<T>(chunks: map<Point, Chunk>, pts: seq<Point>, part: Chunk -> seq<T>): seq<T>
  {
    if pts == [] then []
    else
      var p := pts[|pts| - 1];
      Gather(chunks, pts[..|pts| - 1], part) + (if p in chunks then part(chunks[p]) else [])
  }

  /** The `"obstacles"` list of a chunk. */
  function Obstacles(c: Chunk): seq<Point>
  {
    c.obstacles
  }

  /** The `"objects"` list of a chunk; only OBJECT layers store one. */
  function Objects(c: Chunk): seq<Placed>
  {
    if c.Props? then c.objects else []
  }

  /** Gathering over two runs of chunks concatenates their gatherings. */
  lemma {:induction false} GatherJoin<T>(chunks: map<Point, Chunk>, a: seq<Point>, b: seq<Point>, part: Chunk -> seq<T>)
    ensures Gather(chunks, a + b, part) == Gather(chunks, a, part) + Gather(chunks, b, part)
    decreases |b|
  {
    if b == [] {
      assert a + b == a;
    } else {
      var b' := b[..|b| - 1];
      assert (a + b)[..|a + b| - 1] == a + b';
      assert (a + b)[|a + b| - 1] == b[|b| - 1];
      GatherJoin(chunks, a, b', part);
      var p := b[|b| - 1];
      var tail := if p in chunks then part(chunks[p]) else [];
      assert Gather(chunks, a + b, part) == Gather(chunks, a + b', part) + tail;
      assert Gather(chunks, b, part) == Gather(chunks, b', part) + tail;
      var ga, gb := Gather(chunks, a, part), Gather(chunks, b', part);
      assert ga + gb + tail == ga + (gb + tail);
    }
  }

  /** Exactly what some built chunk among `pts` holds is gathered; a chunk
      that is not built contributes nothing. */
  lemma {:induction false} GatherMembers<T>(chunks: map<Point, Chunk>, pts: seq<Point>, part: Chunk -> seq<T>)
    ensures forall x :: x in Gather(chunks, pts, part) <==>
              exists p :: p in pts && p in chunks && x in part(chunks[p])
  {
    if pts != [] {
      var init := pts[..|pts| - 1];
      GatherMembers(chunks, init, part);
      forall x | exists p :: p in pts && p in chunks && x in part(chunks[p])
        ensures x in Gather(chunks, pts, part)
      {
        var p :| p in pts && p in chunks && x in part(chunks[p]);
        if p != pts[|pts| - 1] {
          assert p in init by {
            var k :| 0 <= k < |pts| && pts[k] == p;
            assert init[k] == p;
          }
        }
      }
    }
  }

  /** `Gather` for each cache of `caches`, one after the other. */
  function GatherAll<T>(caches: seq<map<Point, Chunk>>, pts: seq<Point>, part: Chunk -> seq<T>): seq<T>
  {
    if caches == [] then []
    else GatherAll(caches[..|caches| - 1], pts, part) + Gather(caches[|caches| - 1], pts, part)
  }

  /** Gathering from one more cache appends what it holds. */
  lemma GatherAllSnoc<T>(caches: seq<map<Point, Chunk>>, c: map<Point, Chunk>, pts: seq<Point>, part: Chunk -> seq<T>)
    ensures GatherAll(caches + [c], pts, part) == GatherAll(caches, pts, part) + Gather(c, pts, part)
  {
    assert (caches + [c])[..|caches|] == caches;
  }

  /** Exactly what some built chunk of some cache holds is gathered. */
  lemma GatherAllMembers<T>(caches: seq<map<Point, Chunk>>, pts: seq<Point>, part: Chunk -> seq<T>)
    ensures forall x :: x in GatherAll(caches, pts, part) <==>
              exists n, p :: 0 <= n < |caches| && p in pts && p in caches[n] && x in part(caches[n][p])
  {
    forall x: T
      ensures x in GatherAll(caches, pts, part) <==>
                exists n, p :: 0 <= n < |caches| && p in pts && p in caches[n] && x in part(caches[n][p])
    {
      GatherAllAt(caches, pts, part, x);
    }
  }

  lemma {:induction false} GatherAllAt<T>(caches: seq<map<Point, Chunk>>, pts: seq<Point>, part: Chunk -> seq<T>, x: T)
    ensures x in GatherAll(caches, pts, part) <==>
              exists n, p :: 0 <= n < |caches| && p in pts && p in caches[n] && x in part(caches[n][p])
  {
    if x in GatherAll(caches, pts, part) {
      var n := GatherAllFrom(caches, pts, part, x);
      GatherMembers(caches[n], pts, part);
    }
    if exists n, p :: 0 <= n < |caches| && p in pts && p in caches[n] && x in part(caches[n][p]) {
      var n, p :| 0 <= n < |caches| && p in pts && p in caches[n] && x in part(caches[n][p]);
      GatherMembers(caches[n], pts, part);
      GatherAllHas(caches, pts, part, n, x);
    }
  }

  /** What one cache contributes is among what is gathered from all. */
  lemma {:induction false} GatherAllHas<T>(caches: seq<map<Point, Chunk>>, pts: seq<Point>, part: Chunk -> seq<T>, n: nat, x: T)
    requires n < |caches| && x in Gather(caches[n], pts, part)
    ensures x in GatherAll(caches, pts, part)
  {
    var m := |caches| - 1;
    assert GatherAll(caches, pts, part) == GatherAll(caches[..m], pts, part) + Gather(caches[m], pts, part);
    if n < m {
      assert caches[..m][n] == caches[n];
      GatherAllHas(caches[..m], pts, part, n, x);
    }
  }

  /** Whatever is gathered from all caches comes from one of them, `n`. */
  lemma {:induction false} GatherAllFrom<T>(caches: seq<map<Point, Chunk>>, pts: seq<Point>, part: Chunk -> seq<T>, x: T)
    returns (n: nat)
    requires x in GatherAll(caches, pts, part)
    ensures n < |caches| && x in Gather(caches[n], pts, part)
  {
    var m := |caches| - 1;
    var before := GatherAll(caches[..m], pts, part);
    assert GatherAll(caches, pts, part) == before + Gather(caches[m], pts, part);
    if x in before {
      n := GatherAllFrom(caches[..m], pts, part, x);
      assert caches[..m][n] == caches[n];
    } else {
      n := m;
    }
  }

  // ---------------------------------------------------------------------
  // The batches `draw` hands to the camera

  /** A chunk's tile batch drawn at a screen position. */
  datatype Sprite = Sprite(tiles: seq<Blit>, at: Point)

  /** The tile batch of a chunk; an OBJECT chunk has none. */
  function Surface(c: Chunk): seq<Blit>
  {
    if c.Raster? then c.tiles else []
  }

  /** Where chunk `p` lands on screen: `p * chunk_size * tile_size - camera`. */
  function ScreenAt(p: Point, span: int, camera: Point): Point
  {
    (p.0 * span - camera.0, p.1 * span - camera.1)
  }

  /** Every chunk of `pts` is built in `chunks`. */
  predicate AllBuilt(chunks: map<Point, Chunk>, pts: seq<Point>)
  {
    forall p :: p in pts ==> p in chunks
  }

  /** The batch of every chunk of `pts`, in order, each at its screen position. */
  function Sprites(chunks: map<Point, Chunk>, pts: seq<Point>, span: int, camera: Point): seq<Sprite>
    requires AllBuilt(chunks, pts)
  {
    if pts == [] then []
    else
      var p := pts[|pts| - 1];
      Sprites(chunks, pts[..|pts| - 1], span, camera) + [Sprite(Surface(chunks[p]), ScreenAt(p, span, camera))]
  }

  /** One sprite per chunk of `pts`, the `k`-th for the `k`-th chunk. */
  lemma {:induction false} SpritesSpec(chunks: map<Point, Chunk>, pts: seq<Point>, span: int, camera: Point)
    requires AllBuilt(chunks, pts)
    ensures |Sprites(chunks, pts, span, camera)| == |pts|
    ensures forall k :: 0 <= k < |pts| ==>
              Sprites(chunks, pts, span, camera)[k] == Sprite(Surface(chunks[pts[k]]), ScreenAt(pts[k], span, camera))
  {
    if pts != [] {
      SpritesSpec(chunks, pts[..|pts| - 1], span, camera);
    }
  }

  /** Appending one chunk's sprite to the sprites of a prefix. */
  lemma SpritesSnoc(chunks: map<Point, Chunk>, pts: seq<Point>, p: Point, span: int, camera: Point)
    requires AllBuilt(chunks, pts + [p])
    ensures Sprites(chunks, pts + [p], span, camera) ==
              Sprites(chunks, pts, span, camera) + [Sprite(Surface(chunks[p]), ScreenAt(p, span, camera))]
  {
    assert (pts + [p])[..|pts|] == pts;
  }

  /** Sprites only look at the chunks of `pts`. */
  lemma {:induction false} SpritesAgree(a: map<Point, Chunk>, b: map<Point, Chunk>, pts: seq<Point>, span: int, camera: Point)
    requires forall p :: p in pts ==> p in a && p in b && a[p] == b[p]
    ensures Sprites(a, pts, span, camera) == Sprites(b, pts, span, camera)
  {
    if pts != [] {
      SpritesAgree(a, b, pts[..|pts| - 1], span, camera);
    }
  }

  // ---------------------------------------------------------------------
  // How the caches change: one cache per layer, `builts[n]` being what
  // `build_chunk` of layer `n` makes of a chunk coordinate

  /** Cache `c` holds what `built` makes at `p`. */
  ghost predicate Holds(c: map<Point, Chunk>, built: Point -> Result<Chunk>, p: Point)
  {
    p in c && built(p) == Ok(c[p])
  }

  /** `after` is `before`, or `before` with the build of `p` stored under `p`. */
  ghost predicate StoredAt(before: map<Point, Chunk>, after: map<Point, Chunk>, built: Point -> Result<Chunk>, p: Point)
  {
    after == before || (built(p).Ok? && after == before[p := built(p).value])
  }

  /** `after` holds every chunk of `before`, unchanged, and each chunk it
      adds is one of `ps` and is what `built` makes there. */
  ghost predicate Grown(before: map<Point, Chunk>, after: map<Point, Chunk>, ps: seq<Point>, built: Point -> Result<Chunk>)
  {
    && (forall p :: p in before ==> p in after && after[p] == before[p])
    && (forall p :: p in after && p !in before ==> p in ps && built(p) == Ok(after[p]))
  }

  /** `after` holds every chunk of `before`; each one it changes or adds
      is one of `ps` and is what `built` makes there. */
  ghost predicate Rebuilt(before: map<Point, Chunk>, after: map<Point, Chunk>, ps: seq<Point>, built: Point -> Result<Chunk>)
  {
    && (forall p :: p in before ==> p in after)
    && (forall p :: p in after && (p !in before || after[p] != before[p]) ==> p in ps && built(p) == Ok(after[p]))
  }

  /** Every layer's cache is as it was or has its build of `p` stored. */
  ghost predicate EachStoredAt(before: seq<map<Point, Chunk>>, after: seq<map<Point, Chunk>>, builts: seq<Point -> Result<Chunk>>, p: Point)
  {
    && |before| == |builts| && |after| == |builts|
    && forall n :: 0 <= n < |builts| ==> StoredAt(before[n], after[n], builts[n], p)
  }

  /** Every layer's cache has been rebuilt within `ps`. */
  ghost predicate EachRebuilt(before: seq<map<Point, Chunk>>, after: seq<map<Point, Chunk>>, ps: seq<Point>, builts: seq<Point -> Result<Chunk>>)
  {
    && |before| == |builts| && |after| == |builts|
    && forall n :: 0 <= n < |builts| ==> Rebuilt(before[n], after[n], ps, builts[n])
  }

  /** Every layer's cache holds its build of `p`. */
  ghost predicate Held(caches: seq<map<Point, Chunk>>, builts: seq<Point -> Result<Chunk>>, p: Point)
  {
    |caches| == |builts| && forall n :: 0 <= n < |builts| ==> Holds(caches[n], builts[n], p)
  }

  /** Some layer's build of `p` raises `e`. */
  ghost predicate SomeFails(builts: seq<Point -> Result<Chunk>>, p: Point, e: Error)
  {
    exists n :: 0 <= n < |builts| && builts[n](p) == Err(e)
  }

  lemma RebuiltTrans(a: map<Point, Chunk>, b: map<Point, Chunk>, c: map<Point, Chunk>, ps: seq<Point>, built: Point -> Result<Chunk>)
    requires Rebuilt(a, b, ps, built) && Rebuilt(b, c, ps, built)
    ensures Rebuilt(a, c, ps, built)
  {
  }

  /** Storing the build of one of `ps` keeps a cache rebuilt within `ps`. */
  lemma RebuiltStep(a: map<Point, Chunk>, b: map<Point, Chunk>, c: map<Point, Chunk>, ps: seq<Point>, built: Point -> Result<Chunk>, p: Point)
    requires Rebuilt(a, b, ps, built) && p in ps && StoredAt(b, c, built, p)
    ensures Rebuilt(a, c, ps, built)
  {
  }

  /** Storing a build never loses a held chunk. */
  lemma HeldStored(before: seq<map<Point, Chunk>>, after: seq<map<Point, Chunk>>, builts: seq<Point -> Result<Chunk>>, p: Point, q: Point)
    requires EachStoredAt(before, after, builts, p) && Held(before, builts, q)
    ensures Held(after, builts, q)
  {
    forall n | 0 <= n < |builts|
      ensures Holds(after[n], builts[n], q)
    {
      assert Holds(before[n], builts[n], q);
    }
  }

  lemma EachRebuiltStep(a: seq<map<Point, Chunk>>, b: seq<map<Point, Chunk>>, c: seq<map<Point, Chunk>>, ps: seq<Point>, builts: seq<Point -> Result<Chunk>>, p: Point)
    requires EachRebuilt(a, b, ps, builts) && p in ps && EachStoredAt(b, c, builts, p)
    ensures EachRebuilt(a, c, ps, builts)
  {
    forall n | 0 <= n < |builts|
      ensures Rebuilt(a[n], c[n], ps, builts[n])
    {
      RebuiltStep(a[n], b[n], c[n], ps, builts[n], p);
    }
  }

  /** The last element of a non-empty sequence, and every element of its
      prefix, are elements of it. */
  lemma InPrefix(ps: seq<Point>, q: Point)
    requires ps != []
    ensures ps[|ps| - 1] in ps
    ensures q in ps <==> q in ps[..|ps| - 1] || q == ps[|ps| - 1]
  {
    assert ps == ps[..|ps| - 1] + [ps[|ps| - 1]];
  }

  // ---------------------------------------------------------------------
  // `generate`: every layer builds every chunk of the window, row by row

  /** `for layer in layers[k:]: layer.build_chunk(p)`: each layer from `k`
      on stores its build of `p`, and the first build that raises stops
      the walk with that exception. */
  function StoreAll(caches: seq<map<Point, Chunk>>, builts: seq<Point -> Result<Chunk>>, p: Point, k: nat): (r: (Status, seq<map<Point, Chunk>>))
    requires |caches| == |builts|
    ensures |r.1| == |caches|
    decreases |caches| - k
  {
    if k >= |caches| then (Pass, caches)
    else
      match builts[k](p)
      case Err(e) => (Fail(e), caches)
      case Ok(c) => StoreAll(caches[k := caches[k][p := c]], builts, p, k + 1)
  }

  /** Layers before `k` are left alone; every other layer stores its build
      of `p` unless an earlier one raised; on success every layer from `k`
      on holds its build of `p`, and an exception is some layer's build. */
  lemma {:induction false} StoreAllSpec(caches: seq<map<Point, Chunk>>, builts: seq<Point -> Result<Chunk>>, p: Point, k: nat)
    requires |caches| == |builts|
    ensures var r := StoreAll(caches, builts, p, k);
            && EachStoredAt(caches, r.1, builts, p)
            && (forall n :: 0 <= n < k && n < |caches| ==> r.1[n] == caches[n])
            && (r.0 == Pass ==> forall n :: k <= n < |caches| ==> Holds(r.1[n], builts[n], p))
            && (r.0.Fail? ==> exists n :: k <= n < |caches| && builts[n](p) == Err(r.0.error))
    decreases |caches| - k
  {
    if k < |caches| && builts[k](p).Ok? {
      var next := caches[k := caches[k][p := builts[k](p).value]];
      StoreAllSpec(next, builts, p, k + 1);
      var r := StoreAll(next, builts, p, k + 1);
      assert r.1[k] == next[k];
      forall n | 0 <= n < |builts|
        ensures StoredAt(caches[n], r.1[n], builts[n], p)
      {
        if n != k {
          assert next[n] == caches[n];
        }
      }
    }
  }

  /** One layer of `StoreAll`: layer `k` raises, which ends the walk, or
      stores its build of `p` and the walk goes on from `k + 1`. */
  lemma StoreAllNext(caches: seq<map<Point, Chunk>>, builts: seq<Point -> Result<Chunk>>, p: Point, k: nat)
    requires |caches| == |builts| && k < |caches|
    ensures builts[k](p).Err? ==> StoreAll(caches, builts, p, k) == (Fail(builts[k](p).error), caches)
    ensures builts[k](p).Ok? ==>
              StoreAll(caches, builts, p, k) == StoreAll(caches[k := caches[k][p := builts[k](p).value]], builts, p, k + 1)
  {
  }

  /** `for p in ps: for layer in layers: layer.build_chunk(p)`: the chunks
      of `ps` in order, every layer storing its build of each, until a
      build raises. */
  function StoreEach(caches: seq<map<Point, Chunk>>, builts: seq<Point -> Result<Chunk>>, ps: seq<Point>): (r: (Status, seq<map<Point, Chunk>>))
    requires |caches| == |builts|
    ensures |r.1| == |caches|
    decreases |ps|
  {
    if ps == [] then (Pass, caches)
    else
      var s := StoreEach(caches, builts, ps[..|ps| - 1]);
      if s.0.Fail? then s else StoreAll(s.1, builts, ps[|ps| - 1], 0)
  }

  /** One more chunk for `StoreEach`. */
  lemma StoreEachNext(caches: seq<map<Point, Chunk>>, builts: seq<Point -> Result<Chunk>>, ps: seq<Point>, p: Point)
    requires |caches| == |builts|
    ensures StoreEach(caches, builts, ps + [p]) ==
              var s := StoreEach(caches, builts, ps); if s.0.Fail? then s else StoreAll(s.1, builts, p, 0)
  {
    assert (ps + [p])[..|ps|] == ps;
  }

  /** Walking `a + b` walks `a`, then `b` unless `a` raised. */
  lemma {:induction false} StoreEachJoin(caches: seq<map<Point, Chunk>>, builts: seq<Point -> Result<Chunk>>, a: seq<Point>, b: seq<Point>)
    requires |caches| == |builts|
    ensures StoreEach(caches, builts, a + b) ==
              var s := StoreEach(caches, builts, a); if s.0.Fail? then s else StoreEach(s.1, builts, b)
    decreases |b|
  {
    if b == [] {
      assert a + b == a;
    } else {
      var b' := b[..|b| - 1];
      assert (a + b)[..|a + b| - 1] == a + b';
      assert (a + b)[|a + b| - 1] == b[|b| - 1];
      StoreEachJoin(caches, builts, a, b');
    }
  }

  /** The walk rebuilds the caches within any sequence holding its chunks. */
  lemma {:induction false} StoreEachRebuilt(caches: seq<map<Point, Chunk>>, builts: seq<Point -> Result<Chunk>>, ps: seq<Point>, within: seq<Point>)
    requires |caches| == |builts| && forall p :: p in ps ==> p in within
    ensures EachRebuilt(caches, StoreEach(caches, builts, ps).1, within, builts)
    decreases |ps|
  {
    if ps != [] {
      var init, p := ps[..|ps| - 1], ps[|ps| - 1];
      forall q | q in init
        ensures q in within
      {
        InPrefix(ps, q);
      }
      InPrefix(ps, p);
      StoreEachRebuilt(caches, builts, init, within);
      var s := StoreEach(caches, builts, init);
      if s.0.Pass? {
        StoreAllSpec(s.1, builts, p, 0);
        EachRebuiltStep(caches, s.1, StoreAll(s.1, builts, p, 0).1, within, builts, p);
      }
    }
  }

  /** The walk never loses a chunk some layer held, and on success every
      layer holds its build of each chunk of `ps`. */
  lemma {:induction false} StoreEachHeld(caches: seq<map<Point, Chunk>>, builts: seq<Point -> Result<Chunk>>, ps: seq<Point>, q: Point)
    requires |caches| == |builts|
    ensures var r := StoreEach(caches, builts, ps);
            && (Held(caches, builts, q) ==> Held(r.1, builts, q))
            && (r.0 == Pass && q in ps ==> Held(r.1, builts, q))
    decreases |ps|
  {
    if ps != [] {
      var init, p := ps[..|ps| - 1], ps[|ps| - 1];
      InPrefix(ps, q);
      StoreEachHeld(caches, builts, init, q);
      var s := StoreEach(caches, builts, init);
      if s.0.Pass? {
        StoreAllSpec(s.1, builts, p, 0);
        if Held(s.1, builts, q) {
          HeldStored(s.1, StoreAll(s.1, builts, p, 0).1, builts, p, q);
        }
      }
    }
  }

  /** An exception is some layer's build of one of the chunks of `ps`. */
  lemma {:induction false} StoreEachFails(caches: seq<map<Point, Chunk>>, builts: seq<Point -> Result<Chunk>>, ps: seq<Point>)
    requires |caches| == |builts|
    ensures var r := StoreEach(caches, builts, ps);
            r.0.Fail? ==> exists q :: q in ps && SomeFails(builts, q, r.0.error)
    decreases |ps|
  {
    if ps != [] {
      var init, p := ps[..|ps| - 1], ps[|ps| - 1];
      StoreEachFails(caches, builts, init);
      var s := StoreEach(caches, builts, init);
      if s.0.Fail? {
        var q :| q in init && SomeFails(builts, q, s.0.error);
        InPrefix(ps, q);
      } else {
        StoreAllSpec(s.1, builts, p, 0);
        InPrefix(ps, p);
      }
    }
  }

  /** `for i in range(n): for layer in layers: layer.build_chunk((left + i, y))`:
      one row of the walk, stopping at the first exception. */
  function RowWalk(caches: seq<map<Point, Chunk>>, builts: seq<Point -> Result<Chunk>>, left: int, y: int, n: nat): (r: (Status, seq<map<Point, Chunk>>))
    requires |caches| == |builts|
    ensures |r.1| == |caches|
  {
    if n == 0 then (Pass, caches)
    else
      var s := RowWalk(caches, builts, left, y, n - 1);
      if s.0.Fail? then s else StoreAll(s.1, builts, (left + n - 1, y), 0)
  }

  /** A row of the walk is `StoreEach` over the row's chunks. */
  lemma {:induction false} RowWalkEach(caches: seq<map<Point, Chunk>>, builts: seq<Point -> Result<Chunk>>, left: int, y: int, n: nat)
    requires |caches| == |builts|
    ensures RowWalk(caches, builts, left, y, n) == StoreEach(caches, builts, RowPoints(left, y, n))
  {
    if n > 0 {
      RowWalkEach(caches, builts, left, y, n - 1);
      StoreEachNext(caches, builts, RowPoints(left, y, n - 1), (left + n - 1, y));
    }
  }

  /** One more chunk of a row. */
  lemma RowWalkNext(caches: seq<map<Point, Chunk>>, builts: seq<Point -> Result<Chunk>>, left: int, y: int, dx: nat, n: nat,
                    cur: seq<map<Point, Chunk>>, st: Status, after: seq<map<Point, Chunk>>)
    requires |caches| == |builts|
    requires (Pass, cur) == RowWalk(caches, builts, left, y, dx)
    requires (st, after) == StoreAll(cur, builts, (left + dx, y), 0)
    ensures (st, after) == RowWalk(caches, builts, left, y, dx + 1)
    ensures dx < n && st.Fail? ==> (st, after) == RowWalk(caches, builts, left, y, n)
  {
    if dx < n && st.Fail? {
      RowWalkStops(caches, builts, left, y, dx + 1, n);
    }
  }

  /** Once a row raised, the rest of the row changes nothing. */
  lemma {:induction false} RowWalkStops(caches: seq<map<Point, Chunk>>, builts: seq<Point -> Result<Chunk>>, left: int, y: int, m: nat, n: nat)
    requires |caches| == |builts| && m <= n && RowWalk(caches, builts, left, y, m).0.Fail?
    ensures RowWalk(caches, builts, left, y, n) == RowWalk(caches, builts, left, y, m)
    decreases n
  {
    if m < n {
      RowWalkStops(caches, builts, left, y, m, n - 1);
    }
  }

  /** `for j in range(h): <row win.top + j>`: the first `h` rows of the
      window, stopping at the first exception. */
  function RowsWalk(caches: seq<map<Point, Chunk>>, builts: seq<Point -> Result<Chunk>>, win: Window, h: nat): (r: (Status, seq<map<Point, Chunk>>))
    requires |caches| == |builts|
    ensures |r.1| == |caches|
  {
    if h == 0 then (Pass, caches)
    else
      var s := RowsWalk(caches, builts, win, h - 1);
      if s.0.Fail? then s else RowWalk(s.1, builts, win.left, win.top + h - 1, win.width)
  }

  /** The first `h` rows of the walk are `StoreEach` over their chunks. */
  lemma {:induction false} RowsWalkEach(caches: seq<map<Point, Chunk>>, builts: seq<Point -> Result<Chunk>>, win: Window, h: nat)
    requires |caches| == |builts|
    ensures RowsWalk(caches, builts, win, h) == StoreEach(caches, builts, Points(Window(win.left, win.top, win.width, h)))
  {
    if h > 0 {
      var up := Points(Window(win.left, win.top, win.width, h - 1));
      var row := RowPoints(win.left, win.top + h - 1, win.width);
      RowsWalkEach(caches, builts, win, h - 1);
      assert Points(Window(win.left, win.top, win.width, h)) == up + row;
      StoreEachJoin(caches, builts, up, row);
      var s := RowsWalk(caches, builts, win, h - 1);
      if s.0.Pass? {
        RowWalkEach(s.1, builts, win.left, win.top + h - 1, win.width);
      }
    }
  }

  /** One more row of a window. */
  lemma RowsWalkNext(caches: seq<map<Point, Chunk>>, builts: seq<Point -> Result<Chunk>>, win: Window, dy: nat,
                     cur: seq<map<Point, Chunk>>, st: Status, after: seq<map<Point, Chunk>>)
    requires |caches| == |builts|
    requires (Pass, cur) == RowsWalk(caches, builts, win, dy)
    requires (st, after) == RowWalk(cur, builts, win.left, win.top + dy, win.width)
    ensures (st, after) == RowsWalk(caches, builts, win, dy + 1)
    ensures dy < win.height && st.Fail? ==> (st, after) == RowsWalk(caches, builts, win, win.height)
  {
    if dy < win.height && st.Fail? {
      RowsWalkStops(caches, builts, win, dy + 1, win.height);
    }
  }

  /** Once a row raised, the remaining rows change nothing. */
  lemma {:induction false} RowsWalkStops(caches: seq<map<Point, Chunk>>, builts: seq<Point -> Result<Chunk>>, win: Window, m: nat, n: nat)
    requires |caches| == |builts| && m <= n && RowsWalk(caches, builts, win, m).0.Fail?
    ensures RowsWalk(caches, builts, win, n) == RowsWalk(caches, builts, win, m)
    decreases n
  {
    if m < n {
      RowsWalkStops(caches, builts, win, m, n - 1);
    }
  }

  /** What `generate` promises for its window: caches rebuilt only within
      it; on success every layer holds its build of every chunk of it; an
      exception is some layer's build of one of its chunks. */
  lemma StoreWindowSpec(caches: seq<map<Point, Chunk>>, builts: seq<Point -> Result<Chunk>>, win: Window)
    requires |caches| == |builts|
    ensures var r := StoreEach(caches, builts, Points(win));
            && EachRebuilt(caches, r.1, Points(win), builts)
            && (r.0 == Pass ==> forall q :: win.Contains(q) ==> Held(r.1, builts, q))
            && (r.0.Fail? ==> exists q :: win.Contains(q) && SomeFails(builts, q, r.0.error))
  {
    var ps := Points(win);
    PointsSpec(win);
    StoreEachRebuilt(caches, builts, ps, ps);
    StoreEachFails(caches, builts, ps);
    forall q | win.Contains(q)
      ensures StoreEach(caches, builts, ps).0 == Pass ==> Held(StoreEach(caches, builts, ps).1, builts, q)
    {
      StoreEachHeld(caches, builts, ps, q);
    }
  }

  // ---------------------------------------------------------------------
  // `draw`: each layer builds the chunks of the window it lacks, then
  // hands its batch to the camera

  /** `if p not in layer.chunks: layer.build_chunk(p)`: a missing chunk is
      built and stored; an exception leaves the cache as it was. */
  function FillOne(c: map<Point, Chunk>, built: Point -> Result<Chunk>, p: Point): (Status, map<Point, Chunk>)
  {
    if p in c then (Pass, c)
    else
      match built(p)
      case Err(e) => (Fail(e), c)
      case Ok(v) => (Pass, c[p := v])
  }

  /** The missing chunks of `ps` built in order, until a build raises. */
  function Fill(c: map<Point, Chunk>, built: Point -> Result<Chunk>, ps: seq<Point>): (Status, map<Point, Chunk>)
    decreases |ps|
  {
    if ps == [] then (Pass, c)
    else
      var s := Fill(c, built, ps[..|ps| - 1]);
      if s.0.Fail? then s else FillOne(s.1, built, ps[|ps| - 1])
  }

  /** Filling keeps every chunk the cache had and adds only builds of
      chunks of `ps`; on success every chunk of `ps` is there, and an
      exception is the build of a chunk of `ps` the cache lacked. */
  lemma {:induction false} FillSpec(c: map<Point, Chunk>, built: Point -> Result<Chunk>, ps: seq<Point>)
    ensures Grown(c, Fill(c, built, ps).1, ps, built)
    ensures Fill(c, built, ps).0 == Pass ==> AllBuilt(Fill(c, built, ps).1, ps)
    ensures Fill(c, built, ps).0.Fail? ==>
              exists p :: p in ps && p !in c && built(p) == Err(Fill(c, built, ps).0.error)
    decreases |ps|
  {
    if ps != [] {
      var init, p := ps[..|ps| - 1], ps[|ps| - 1];
      assert ps == init + [p];
      FillSpec(c, built, init);
      var s := Fill(c, built, init);
      if s.0.Pass? {
        var r := FillOne(s.1, built, p);
        assert Fill(c, built, ps) == r;
        forall q | q in ps && r.0 == Pass
          ensures q in r.1
        {
          if q != p {
            assert q in init;
          }
        }
      }
    }
  }

  /** Filling `a + b` is filling `a`, then `b` unless `a` raised. */
  lemma {:induction false} FillJoin(c: map<Point, Chunk>, built: Point -> Result<Chunk>, a: seq<Point>, b: seq<Point>)
    ensures Fill(c, built, a + b) ==
              var s := Fill(c, built, a); if s.0.Fail? then s else Fill(s.1, built, b)
    decreases |b|
  {
    if b == [] {
      assert a + b == a;
    } else {
      var b' := b[..|b| - 1];
      assert (a + b)[..|a + b| - 1] == a + b';
      assert (a + b)[|a + b| - 1] == b[|b| - 1];
      FillJoin(c, built, a, b');
    }
  }

  /** A walk along a row that raised at its `m`-th chunk stops there. */
  lemma {:induction false} FillRowStops(c: map<Point, Chunk>, built: Point -> Result<Chunk>, left: int, y: int, m: nat, n: nat)
    requires m <= n && Fill(c, built, RowPoints(left, y, m)).0.Fail?
    ensures Fill(c, built, RowPoints(left, y, n)) == Fill(c, built, RowPoints(left, y, m))
    decreases n
  {
    if m < n {
      FillRowStops(c, built, left, y, m, n - 1);
      FillJoin(c, built, RowPoints(left, y, n - 1), [(left + n - 1, y)]);
    }
  }

  /** Filling one more chunk of a row continues from the chunks before it;
      a failure there is the failure of the whole row. */
  lemma FillRowNext(c: map<Point, Chunk>, built: Point -> Result<Chunk>, left: int, y: int, dx: nat, n: nat,
                    mid: map<Point, Chunk>, st: Status, after: map<Point, Chunk>)
    requires (Pass, mid) == Fill(c, built, RowPoints(left, y, dx))
    requires (st, after) == FillOne(mid, built, (left + dx, y))
    ensures (st, after) == Fill(c, built, RowPoints(left, y, dx + 1))
    ensures dx < n && st.Fail? ==> (st, after) == Fill(c, built, RowPoints(left, y, n))
  {
    FillJoin(c, built, RowPoints(left, y, dx), [(left + dx, y)]);
    if dx < n && st.Fail? {
      FillRowStops(c, built, left, y, dx + 1, n);
    }
  }

  /** Filling one more row of a window continues from the rows before it;
      a failure in that row is the failure of the whole window. */
  lemma FillRowsNext(c: map<Point, Chunk>, built: Point -> Result<Chunk>, win: Window, dy: nat,
                     mid: map<Point, Chunk>, st: Status, after: map<Point, Chunk>)
    requires (Pass, mid) == Fill(c, built, Points(Window(win.left, win.top, win.width, dy)))
    requires (st, after) == Fill(mid, built, RowPoints(win.left, win.top + dy, win.width))
    ensures (st, after) == Fill(c, built, Points(Window(win.left, win.top, win.width, dy + 1)))
    ensures dy < win.height && st.Fail? ==> (st, after) == Fill(c, built, Points(win))
  {
    PointsNext(win, dy);
    FillJoin(c, built, Points(Window(win.left, win.top, win.width, dy)), RowPoints(win.left, win.top + dy, win.width));
    if dy < win.height && st.Fail? {
      FillRowsStops(c, built, win, dy + 1, win.height);
    }
  }

/** A walk over the rows of a window that raised within its first `m`
      rows stops there. */
  lemma {:induction false} FillRowsStops(c: map<Point, Chunk>, built: Point -> Result<Chunk>, win: Window, m: nat, n: nat)
    requires m <= n && Fill(c, built, Points(Window(win.left, win.top, win.width, m))).0.Fail?
    ensures Fill(c, built, Points(Window(win.left, win.top, win.width, n))) ==
              Fill(c, built, Points(Window(win.left, win.top, win.width, m)))
    decreases n
  {
    if m < n {
      FillRowsStops(c, built, win, m, n - 1);
      FillJoin(c, built, Points(Window(win.left, win.top, win.width, n - 1)), RowPoints(win.left, win.top + n - 1, win.width));
    }
  }

  /** The batch a layer of kind `kind` hands to the camera: one sprite per
      chunk of `ps`, none for an OBJECT layer. */
  function Batch(kind: GenType, c: map<Point, Chunk>, ps: seq<Point>, span: int, camera: Point): seq<Sprite>
    requires AllBuilt(c, ps)
  {
    if kind == Object then [] else Sprites(c, ps, span, camera)
  }

  /** `draw` from layer `k` on: each layer fills the chunks of `ps` it
      lacks, then its batch is drawn; the first exception stops the walk
      before its layer's batch is drawn. */
  function DrawFrom(caches: seq<map<Point, Chunk>>, builts: seq<Point -> Result<Chunk>>, kinds: seq<GenType>,
                    ps: seq<Point>, span: int, camera: Point, k: nat): (r: (Status, seq<map<Point, Chunk>>, seq<seq<Sprite>>))
    requires |caches| == |builts| == |kinds|
    ensures |r.1| == |caches|
    decreases |caches| - k
  {
    if k >= |caches| then (Pass, caches, [])
    else
      var f := Fill(caches[k], builts[k], ps);
      if f.0.Fail? then (f.0, caches[k := f.1], [])
      else
        FillSpec(caches[k], builts[k], ps);
        var rest := DrawFrom(caches[k := f.1], builts, kinds, ps, span, camera, k + 1);
        (rest.0, rest.1, [Batch(kinds[k], f.1, ps, span, camera)] + rest.2)
  }

  /** `draw` leaves the layers before `k` alone and lets every other layer
      only gain builds of chunks of `ps`; on success every layer from `k`
      on has every chunk of `ps` and one batch is drawn per layer, that
      layer's batch of those chunks; an exception is the build of a chunk
      some layer lacked, and only the layers before that one were drawn. */
  lemma {:induction false} DrawFromSpec(caches: seq<map<Point, Chunk>>, builts: seq<Point -> Result<Chunk>>, kinds: seq<GenType>,
                                        ps: seq<Point>, span: int, camera: Point, k: nat)
    requires |caches| == |builts| == |kinds| && k <= |caches|
    ensures var r := DrawFrom(caches, builts, kinds, ps, span, camera, k);
            && (forall n :: 0 <= n < |caches| && n < k ==> r.1[n] == caches[n])
            && (forall n :: k <= n < |caches| ==> Grown(caches[n], r.1[n], ps, builts[n]))
            && (r.0 == Pass ==>
                  && |r.2| == |caches| - k
                  && (forall n, p :: k <= n < |caches| && p in ps ==> p in r.1[n])
                  && (forall n :: k <= n < |caches| ==> r.2[n - k] == Batch(kinds[n], r.1[n], ps, span, camera)))
            && (r.0.Fail? ==>
                  exists n, p :: k <= n < |caches| && n - k == |r.2| && p in ps && p !in caches[n] &&
                    builts[n](p) == Err(r.0.error))
    decreases |caches| - k
  {
    if k < |caches| {
      var f := Fill(caches[k], builts[k], ps);
      FillSpec(caches[k], builts[k], ps);
      if f.0.Pass? {
        var next := caches[k := f.1];
        DrawFromSpec(next, builts, kinds, ps, span, camera, k + 1);
        var r := DrawFrom(next, builts, kinds, ps, span, camera, k + 1);
        assert DrawFrom(caches, builts, kinds, ps, span, camera, k) == (r.0, r.1, [Batch(kinds[k], f.1, ps, span, camera)] + r.2);
        assert r.1[k] == f.1;
        forall n | k < n < |caches|
          ensures Grown(caches[n], r.1[n], ps, builts[n])
        {
          assert next[n] == caches[n];
        }
        if r.0.Fail? {
          var n, p :| k + 1 <= n < |caches| && n - (k + 1) == |r.2| && p in ps && p !in next[n] &&
                    builts[n](p) == Err(r.0.error);
          assert next[n] == caches[n];
        }
      }
    }
  }

  /** One layer of `DrawFrom`: layer `k` fills its chunks, then raises,
      which ends the walk, or has its batch drawn and the walk goes on. */
  lemma DrawFromNext(caches: seq<map<Point, Chunk>>, builts: seq<Point -> Result<Chunk>>, kinds: seq<GenType>,
                     ps: seq<Point>, span: int, camera: Point, k: nat)
    requires |caches| == |builts| == |kinds| && k < |caches|
    ensures var f := Fill(caches[k], builts[k], ps);
            && (f.0.Fail? ==> DrawFrom(caches, builts, kinds, ps, span, camera, k) == (f.0, caches[k := f.1], []))
            && (f.0.Pass? ==>
                  AllBuilt(f.1, ps) &&
                  var rest := DrawFrom(caches[k := f.1], builts, kinds, ps, span, camera, k + 1);
                  DrawFrom(caches, builts, kinds, ps, span, camera, k) ==
                    (rest.0, rest.1, [Batch(kinds[k], f.1, ps, span, camera)] + rest.2))
  {
    FillSpec(caches[k], builts[k], ps);
  }

  /** Growing a cache is a way of rebuilding it. */
  lemma GrownRebuilt(before: map<Point, Chunk>, after: map<Point, Chunk>, ps: seq<Point>, built: Point -> Result<Chunk>)
    requires Grown(before, after, ps, built)
    ensures Rebuilt(before, after, ps, built)
  {
  }
}
