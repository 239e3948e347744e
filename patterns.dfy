/** The Wang pattern table of the tile map and the resolver that picks a
    candidate list for the eight-neighbour code of a cell (src/tilemap.py,
    `Tilemap.get_pattern`, `Tilemap._find_similar_pattern`,
    `Layer.pattern_matching` and the wangset part of `Tilemap.load_tileset`). */
module Patterns {
  import opened Common

  /** Eight edge/corner codes, clockwise from north: N, NE, E, SE, S, SW, W, NW.
      In a stored key the code 0 is a wildcard. */
  type Pattern = s: seq<int> | |s| == 8 witness [0, 0, 0, 0, 0, 0, 0, 0]

  /** One key of the pattern dictionary with its candidate tile ids. */
  datatype Entry = Entry(key: Pattern, tiles: seq<int>)

  /** The pattern dictionary, in insertion order (Python dicts keep it). */
  type Table = seq<Entry>

  /** What a table built by `load_tileset` always satisfies: each key once,
      each candidate list non-empty. */
  ghost predicate WellFormed(t: Table)
  {
    && (forall a, b :: 0 <= a < b < |t| ==> t[a].key != t[b].key)
    && (forall a :: 0 <= a < |t| ==> t[a].tiles != [])
  }

  /** The degenerate pattern `(v,) * 8`. */
  function SelfPattern(v: int): (p: Pattern)
    ensures forall d :: 0 <= d < 8 ==> p[d] == v
  {
    [v, v, v, v, v, v, v, v]
  }

  // ---------------------------------------------------------------------
  // Exact lookup: `patterns.get(key)`

  /** Position of the entry whose key is `key`, if any (the first one). */
  function Find(t: Table, key: Pattern): (r: Option<nat>)
    ensures r.Some? ==> r.value < |t| && t[r.value].key == key
    ensures r.Some? ==> forall a :: 0 <= a < r.value ==> t[a].key != key
    ensures r.None? <==> forall a :: 0 <= a < |t| ==> t[a].key != key
  {
    if t == [] then None
    else
      match Find(t[..|t| - 1], key)
      case Some(a) => Some(a)
      case None => if t[|t| - 1].key == key then Some(|t| - 1) else None
  }

  /** `patterns.get(key, None)`. */
  function Lookup(t: Table, key: Pattern): Option<seq<int>>
  {
    match Find(t, key)
    case Some(a) => Some(t[a].tiles)
    case None => None
  }

  /** In a well-formed table, the lookup of a stored key gives its own list. */
  lemma LookupStored(t: Table, a: nat)
    requires WellFormed(t) && a < |t|
    ensures Lookup(t, t[a].key) == Some(t[a].tiles)
  {
    var r := Find(t, t[a].key);
    assert r.Some?;
  }

  // ---------------------------------------------------------------------
  // Approximate lookup: `_find_similar_pattern`

  /** A stored key fits a query when every position equals the query's code
      or is the wildcard 0. */
  predicate Fits(stored: Pattern, query: Pattern)
  {
    && CodeFits(stored[0], query[0]) && CodeFits(stored[1], query[1])
    && CodeFits(stored[2], query[2]) && CodeFits(stored[3], query[3])
    && CodeFits(stored[4], query[4]) && CodeFits(stored[5], query[5])
    && CodeFits(stored[6], query[6]) && CodeFits(stored[7], query[7])
  }

  /** One stored code fits one query code. */
  predicate CodeFits(s: int, q: int)
  {
    s == q || s == 0
  }

  /** `Fits` checks all eight positions. */
  lemma FitsEvery(stored: Pattern, query: Pattern)
    ensures Fits(stored, query) <==> forall d :: 0 <= d < 8 ==> CodeFits(stored[d], query[d])
  {
  }

  /** The codes of `stored` that the inner loop of `_find_similar_pattern`
      keeps among the first `d` positions. */
  function Kept(stored: Pattern, query: Pattern, d: nat): (s: seq<int>)
    requires d <= 8
    ensures |s| <= d
  {
    if d == 0 then []
    else
      var s := Kept(stored, query, d - 1);
      if query[d - 1] == stored[d - 1] || stored[d - 1] == 0 then s + [stored[d - 1]] else s
  }

  /** The kept codes are all eight exactly when the key fits, and then they
      spell the stored key itself: the tuple returned is the stored key. */
  lemma {:induction false} KeptAll(stored: Pattern, query: Pattern, d: nat)
    requires d <= 8
    ensures |Kept(stored, query, d)| == d <==>
              forall e :: 0 <= e < d ==> stored[e] == query[e] || stored[e] == 0
    ensures |Kept(stored, query, d)| == d ==> Kept(stored, query, d) == stored[..d]
  {
    if d > 0 {
      KeptAll(stored, query, d - 1);
      var s := Kept(stored, query, d - 1);
      assert |s| <= d - 1;
      if |Kept(stored, query, d)| == d {
        assert stored[..d] == stored[..d - 1] + [stored[d - 1]];
      }
    }
  }

  /** Position of the first entry, in insertion order, whose key fits `query`. */
  function FirstFit(t: Table, query: Pattern): (r: Option<nat>)
    ensures r.Some? ==> r.value < |t| && Fits(t[r.value].key, query)
    ensures r.Some? ==> forall a :: 0 <= a < r.value ==> !Fits(t[a].key, query)
    ensures r.None? <==> forall a :: 0 <= a < |t| ==> !Fits(t[a].key, query)
  {
    if t == [] then None
    else
      match FirstFit(t[..|t| - 1], query)
      case Some(a) => Some(a)
      case None => if Fits(t[|t| - 1].key, query) then Some(|t| - 1) else None
  }

  /** The first fitting entry is the one all earlier entries fail to fit. */
  lemma FirstFitAt(t: Table, query: Pattern, a: nat)
    requires a < |t| && Fits(t[a].key, query)
    requires forall b :: 0 <= b < a ==> !Fits(t[b].key, query)
    ensures FirstFit(t, query) == Some(a)
  {
    var f := FirstFit(t, query);
    if f.Some? {
      if f.value < a {
      } else if f.value > a {
      }
    }
  }

  /** The value `_find_similar_pattern` returns: the fitting key, or None. */
  function SimilarKey(t: Table, query: Pattern): Option<Pattern>
  {
    match FirstFit(t, query)
    case Some(a) => Some(t[a].key)
    case None => None
  }

  // ---------------------------------------------------------------------
  // The three-stage resolver: `get_pattern`

  /** `get_pattern(query, original)`: exact hit, else the list of the first
      fitting key, else the list of the self-pattern of `original`, which
      must be a key (KeyError otherwise). */
  function Resolve(t: Table, query: Pattern, original: int): Result<seq<int>>
  {
    match Lookup(t, query)
    case Some(c) => Ok(c)
    case None =>
      match SimilarKey(t, query)
      case Some(p) =>
        (match Lookup(t, p)
         case Some(c) => Ok(c)
         case None => Err(MissingPattern))
      case None =>
        match Lookup(t, SelfPattern(original))
        case Some(c) => Ok(c)
        case None => Err(MissingPattern)
  }

  /** Stage one: a stored key is answered with its own list, whatever other
      keys would also fit. */
  lemma ResolveExact(t: Table, query: Pattern, original: int, a: nat)
    requires WellFormed(t) && a < |t| && t[a].key == query
    ensures Resolve(t, query, original) == Ok(t[a].tiles)
  {
    LookupStored(t, a);
  }

  /** Stage two: with no exact key, the answer is the list of the first key
      in insertion order that fits, even when a later key fits better. */
  lemma ResolveFirstFit(t: Table, query: Pattern, original: int, a: nat)
    requires a < |t| && Fits(t[a].key, query)
    requires forall b :: 0 <= b < a ==> !Fits(t[b].key, query)
    requires forall b :: 0 <= b < |t| ==> t[b].key != query
    ensures Resolve(t, query, original) == Ok(t[a].tiles)
  {
    FirstFitAt(t, query, a);
    var k := Find(t, t[a].key);
    assert k == Some(a);
  }

  /** Stage three: when no key fits, the answer is the list of the
      self-pattern of the original value, and a missing self-pattern is the
      one failure of the resolver. */
  lemma ResolveFallback(t: Table, query: Pattern, original: int)
    requires forall b :: 0 <= b < |t| ==> !Fits(t[b].key, query)
    ensures Resolve(t, query, original).Err? <==>
              forall b :: 0 <= b < |t| ==> t[b].key != SelfPattern(original)
    ensures forall b :: 0 <= b < |t| && t[b].key == SelfPattern(original) && WellFormed(t) ==>
              Resolve(t, query, original) == Ok(t[b].tiles)
  {
    assert Lookup(t, query).None?;
    forall b | 0 <= b < |t| && t[b].key == SelfPattern(original) && WellFormed(t)
      ensures Resolve(t, query, original) == Ok(t[b].tiles)
    {
      LookupStored(t, b);
    }
  }

  /** Whatever the query, a successful resolution is one of the stored
      candidate lists; and it always succeeds with a non-empty list when the
      table is well formed and holds the self-pattern of the original value. */
  lemma ResolveStored(t: Table, query: Pattern, original: int)
    ensures Resolve(t, query, original).Ok? ==>
              exists a :: 0 <= a < |t| && t[a].tiles == Resolve(t, query, original).value
    ensures WellFormed(t) && Lookup(t, SelfPattern(original)).Some? ==>
              Resolve(t, query, original).Ok? && Resolve(t, query, original).value != []
  {
  }

  /** Why the stages are ordered: a wildcard key stored first fits every
      query, yet a query that is itself a key gets its own list. */
  lemma ExactBeforeWildcard()
    ensures
      var t := [Entry([0, 0, 0, 0, 0, 0, 0, 0], [1]), Entry(SelfPattern(5), [2])];
      && Resolve(t, SelfPattern(5), 5) == Ok([2])
      && Resolve(t, SelfPattern(6), 6) == Ok([1])
  {
    var t := [Entry([0, 0, 0, 0, 0, 0, 0, 0], [1]), Entry(SelfPattern(5), [2])];
    assert t[0].key != SelfPattern(5) && t[1].key != SelfPattern(6);
    assert Fits(t[0].key, SelfPattern(6));
    assert WellFormed(t);
    ResolveExact(t, SelfPattern(5), 5, 1);
    ResolveFirstFit(t, SelfPattern(6), 6, 0);
  }

  // ---------------------------------------------------------------------
  // Wangset accumulation in `load_tileset`

  /** One wang tile of a tileset document: its wangid and its tile id. */
  datatype WangTile = WangTile(wangid: Pattern, tileid: int)

  /** Registering one wang tile: the first occurrence of a wangid creates
      its key at the end, later ones append to its list. */
  function Register(t: Table, w: WangTile): Table
  {
    match Find(t, w.wangid)
    case None => t + [Entry(w.wangid, [w.tileid])]
    case Some(a) => t[a := Entry(w.wangid, t[a].tiles + [w.tileid])]
  }

  /** Registering the wang tiles of `ws` in file order. */
  function RegisterAll(t: Table, ws: seq<WangTile>): Table
    decreases |ws|
  {
    if ws == [] then t else RegisterAll(Register(t, ws[0]), ws[1..])
  }

  /** Registering `a` then `b` is registering `a + b`: the wang tiles of
      several wangsets go into one table in file order. */
  lemma {:induction false} RegisterAllJoin(t: Table, a: seq<WangTile>, b: seq<WangTile>)
    ensures RegisterAll(t, a + b) == RegisterAll(RegisterAll(t, a), b)
    decreases |a|
  {
    if a == [] {
      assert a + b == b;
    } else {
      assert (a + b)[1..] == a[1..] + b;
      RegisterAllJoin(Register(t, a[0]), a[1..], b);
    }
  }

  /** The tile ids of `ws` whose wangid is `key`, in file order. */
  function IdsOf(ws: seq<WangTile>, key: Pattern): seq<int>
  {
    if ws == [] then []
    else (if ws[0].wangid == key then [ws[0].tileid] else []) + IdsOf(ws[1..], key)
  }

  /** A dictionary entry after appending `ids` to it: created when absent
      and `ids` is not empty. */
  function Extended(entry: Option<seq<int>>, ids: seq<int>): Option<seq<int>>
  {
    match entry
    case Some(c) => Some(c + ids)
    case None => if ids == [] then None else Some(ids)
  }

  /** Registration keeps the table well formed, never moves or drops a key,
      and gives every key its old list followed by the tile ids of the new
      wang tiles with that key, in file order. */
  lemma {:induction false} RegisterAllSpec(t: Table, ws: seq<WangTile>)
    requires WellFormed(t)
    ensures WellFormed(RegisterAll(t, ws))
    ensures |t| <= |RegisterAll(t, ws)|
    ensures forall a :: 0 <= a < |t| ==> RegisterAll(t, ws)[a].key == t[a].key
    ensures forall key: Pattern :: Lookup(RegisterAll(t, ws), key) == Extended(Lookup(t, key), IdsOf(ws, key))
    decreases |ws|
  {
    if ws == [] {
      forall key: Pattern | Lookup(t, key).Some? ensures Lookup(t, key).value + [] == Lookup(t, key).value {}
    } else {
      var t1 := Register(t, ws[0]);
      RegisterKeys(t, ws[0]);
      RegisterAllSpec(t1, ws[1..]);
      assert RegisterAll(t, ws) == RegisterAll(t1, ws[1..]);
      forall key: Pattern
        ensures Lookup(RegisterAll(t, ws), key) == Extended(Lookup(t, key), IdsOf(ws, key))
      {
        RegisterLookup(t, ws[0], key);
        var head := if ws[0].wangid == key then [ws[0].tileid] else [];
        assert IdsOf(ws, key) == head + IdsOf(ws[1..], key);
        ExtendedTwice(Lookup(t, key), head, IdsOf(ws[1..], key));
      }
    }
  }

  /** Appending twice is appending the concatenation. */
  lemma ExtendedTwice(entry: Option<seq<int>>, a: seq<int>, b: seq<int>)
    ensures Extended(Extended(entry, a), b) == Extended(entry, a + b)
  {
    if entry.Some? {
      assert entry.value + a + b == entry.value + (a + b);
    } else if a == [] {
      assert a + b == b;
    }
  }

  /** One registration step keeps the table well formed and its keys in place. */
  lemma RegisterKeys(t: Table, w: WangTile)
    requires WellFormed(t)
    ensures WellFormed(Register(t, w))
    ensures |t| <= |Register(t, w)|
    ensures forall a :: 0 <= a < |t| ==> Register(t, w)[a].key == t[a].key
  {
    var t1 := Register(t, w);
    match Find(t, w.wangid)
    case None =>
      assert t1 == t + [Entry(w.wangid, [w.tileid])];
      assert forall a :: 0 <= a < |t| ==> t1[a] == t[a];
    case Some(b) =>
      assert t1 == t[b := Entry(w.wangid, t[b].tiles + [w.tileid])];
  }

  /** One registration step appends the tile id to the list of its wangid only. */
  lemma RegisterLookup(t: Table, w: WangTile, key: Pattern)
    requires WellFormed(t)
    ensures Lookup(Register(t, w), key) ==
              Extended(Lookup(t, key), if w.wangid == key then [w.tileid] else [])
  {
    RegisterKeys(t, w);
    var t1 := Register(t, w);
    var f := Find(t, key);
    var g := Find(t, w.wangid);
    if f.Some? {
      LookupStored(t, f.value);
      LookupStored(t1, f.value);
      assert Lookup(t, key).value + [] == Lookup(t, key).value;
      if w.wangid == key {
        assert g == f;
      } else if g.Some? {
        assert t1[f.value] == t[f.value];
      } else {
        assert t1[f.value] == t[f.value];
      }
    } else if w.wangid == key {
      assert g.None?;
      LookupStored(t1, |t|);
    } else {
      if g.None? {
        assert forall a :: 0 <= a < |t| ==> t1[a] == t[a];
      }
      assert forall a :: 0 <= a < |t1| ==> t1[a].key != key;
    }
  }

  // ---------------------------------------------------------------------
  // The neighbourhood key of `Layer.pattern_matching`

  /** Column offset of compass direction `d` (0 = north, clockwise). */
  function Dx(d: int): int
  {
    if d == 1 || d == 2 || d == 3 then 1 else if d == 5 || d == 6 || d == 7 then -1 else 0
  }

  /** Row offset of compass direction `d`; rows grow southwards. */
  function Dy(d: int): int
  {
    if d == 7 || d == 0 || d == 1 then -1 else if d == 3 || d == 4 || d == 5 then 1 else 0
  }

  /** The compass starts at north and turns clockwise a quarter every two
      steps, visiting each of the eight neighbours once. */
  lemma CompassClockwise()
    ensures Dx(0) == 0 && Dy(0) == -1
    ensures forall d :: 0 <= d < 6 ==> Dx(d + 2) == -Dy(d) && Dy(d + 2) == Dx(d)
    ensures forall d :: 0 <= d < 8 ==> (Dx(d), Dy(d)) != (0, 0) && -1 <= Dx(d) <= 1 && -1 <= Dy(d) <= 1
    ensures forall d, e :: 0 <= d < e < 8 ==> (Dx(d), Dy(d)) != (Dx(e), Dy(e))
  {
  }

  /** A raw grid holds row `j` at `grid[j]` and column `i` at `grid[j][i]`. */
  type Grid = seq<seq<int>>

  /** The grid has cell `(i, j)` and its eight neighbours. */
  predicate Around(grid: Grid, i: int, j: int)
  {
    1 <= j && j + 1 < |grid| && 1 <= i &&
    i + 1 < |grid[j - 1]| && i + 1 < |grid[j]| && i + 1 < |grid[j + 1]|
  }

  /** The eight-neighbour code of cell `(i, j)`, clockwise from north. */
  function Neighbourhood(grid: Grid, i: int, j: int): (p: Pattern)
    requires Around(grid, i, j)
    ensures forall d :: 0 <= d < 8 ==> p[d] == grid[j + Dy(d)][i + Dx(d)]
  {
    [grid[j - 1][i], grid[j - 1][i + 1], grid[j][i + 1], grid[j + 1][i + 1],
     grid[j + 1][i], grid[j + 1][i - 1], grid[j][i - 1], grid[j - 1][i - 1]]
  }

  /** The key `pattern_matching` looks up for cell `(i, j)`: the self-pattern
      for a value-based terrain, the neighbourhood otherwise. */
  function CellKey(grid: Grid, i: int, j: int, valueBased: seq<int>): (p: Pattern)
    requires Around(grid, i, j)
    ensures grid[j][i] in valueBased ==> p == SelfPattern(grid[j][i])
    ensures grid[j][i] !in valueBased ==>
              forall d :: 0 <= d < 8 ==> p[d] == grid[j + Dy(d)][i + Dx(d)]
  {
    if grid[j][i] in valueBased then SelfPattern(grid[j][i]) else Neighbourhood(grid, i, j)
  }

  /** `pattern_matching`: resolve the cell's key and let the random draw
      `roll` choose among the candidates (random.choice raises on an empty list). */
  function ChooseTile(t: Table, grid: Grid, i: int, j: int, valueBased: seq<int>, roll: nat): Result<int>
    requires Around(grid, i, j)
  {
    match Resolve(t, CellKey(grid, i, j, valueBased), grid[j][i])
    case Err(e) => Err(e)
    case Ok(c) => if c == [] then Err(EmptyCandidates) else Ok(c[roll % |c|])
  }

  /** The chosen tile is a candidate of the resolved list, every candidate can
      be chosen, and a failure is a failure of the resolver or an empty list. */
  lemma ChooseTileSpec(t: Table, grid: Grid, i: int, j: int, valueBased: seq<int>, roll: nat)
    requires Around(grid, i, j)
    ensures var r := Resolve(t, CellKey(grid, i, j, valueBased), grid[j][i]);
            ChooseTile(t, grid, i, j, valueBased, roll).Ok? ==>
              r.Ok? && ChooseTile(t, grid, i, j, valueBased, roll).value in r.value
    ensures var r := Resolve(t, CellKey(grid, i, j, valueBased), grid[j][i]);
            r.Ok? ==> forall x :: x in r.value ==>
              exists n: nat :: ChooseTile(t, grid, i, j, valueBased, n) == Ok(x)
    ensures ChooseTile(t, grid, i, j, valueBased, roll).Err? <==>
              var r := Resolve(t, CellKey(grid, i, j, valueBased), grid[j][i]);
              r.Err? || r.value == []
  {
    var r := Resolve(t, CellKey(grid, i, j, valueBased), grid[j][i]);
    if r.Ok? {
      forall x | x in r.value
        ensures exists n: nat :: ChooseTile(t, grid, i, j, valueBased, n) == Ok(x)
      {
        var n :| 0 <= n < |r.value| && r.value[n] == x;
        assert n % |r.value| == n;
        assert ChooseTile(t, grid, i, j, valueBased, n) == Ok(x);
      }
    }
  }
}
