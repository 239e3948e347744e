/** What `Tilemap.load_tileset` and `Tilemap.load_objects` take from their
    parsed documents (src/tilemap.py): the tile slices of a tileset image,
    its wangsets, and the object catalog with each object's right offset. */
module Loading {
  import opened Common
  import opened Patterns
  import opened Chunks

  // ---------------------------------------------------------------------
  // Tilesets

  /** A tile image: the rectangle `(x, y, width, height)` of a tileset image. */
  datatype Slice = Slice(image: int, x: int, y: int, width: int, height: int)

  /** The fields of a Tiled tileset document that `load_tileset` reads;
      `image` is the handle of the loaded tileset image and `wangsets` the
      `wangtiles` of each wangset, absent when the document has none. */
  datatype TilesetDoc = TilesetDoc(
    tileWidth: int, tileHeight: int, image: int, imageHeight: int, columns: int,
    wangsets: Option<seq<seq<WangTile>>>)

  /** Slices `x = 0 .. n - 1` of slice row `y`. */
  function SliceRow(image: int, tw: int, th: int, y: int, n: nat): seq<Slice>
  {
    if n == 0 then [] else SliceRow(image, tw, th, y, n - 1) + [Slice(image, (n - 1) * tw, y * th, tw, th)]
  }

  /** Slice rows `0 .. rows - 1` of `cols` slices each, top to bottom. */
  function SliceGrid(image: int, tw: int, th: int, rows: nat, cols: nat): seq<Slice>
  {
    if rows == 0 then [] else SliceGrid(image, tw, th, rows - 1, cols) + SliceRow(image, tw, th, rows - 1, cols)
  }

  /** The slices `load_tileset` cuts: `imageheight // tileheight` rows of
      `columns` slices (an empty range when either is negative). */
  function TilesOf(doc: TilesetDoc): seq<Slice>
    requires doc.tileHeight != 0
  {
    SliceGrid(doc.image, doc.tileWidth, doc.tileHeight, Len(FloorDiv(doc.imageHeight, doc.tileHeight)), Len(doc.columns))
  }

  lemma {:induction false} SliceRowSpec(image: int, tw: int, th: int, y: int, n: nat)
    ensures |SliceRow(image, tw, th, y, n)| == n
    ensures forall x :: 0 <= x < n ==> SliceRow(image, tw, th, y, n)[x] == Slice(image, x * tw, y * th, tw, th)
  {
    if n > 0 {
      SliceRowSpec(image, tw, th, y, n - 1);
    }
  }

  lemma {:induction false} SliceGridLength(image: int, tw: int, th: int, rows: nat, cols: nat)
    ensures |SliceGrid(image, tw, th, rows, cols)| == rows * cols
  {
    if rows > 0 {
      SliceGridLength(image, tw, th, rows - 1, cols);
      SliceRowSpec(image, tw, th, rows - 1, cols);
      assert rows * cols == (rows - 1) * cols + cols;
    }
  }

  /** The slices come in row-major order: slice `y * cols + x` is the
      rectangle at column `x`, row `y`. */
  lemma {:induction false} SliceGridAt(image: int, tw: int, th: int, rows: nat, cols: nat, x: int, y: int)
    requires 0 <= x < cols && 0 <= y < rows
    ensures 0 <= y * cols + x < |SliceGrid(image, tw, th, rows, cols)|
    ensures SliceGrid(image, tw, th, rows, cols)[y * cols + x] == Slice(image, x * tw, y * th, tw, th)
  {
    SliceGridLength(image, tw, th, rows, cols);
    SliceGridLength(image, tw, th, rows - 1, cols);
    SliceRowSpec(image, tw, th, rows - 1, cols);
    SliceSlot(x, y, cols, rows);
    var prev := SliceGrid(image, tw, th, rows - 1, cols);
    var last := SliceRow(image, tw, th, rows - 1, cols);
    if y < rows - 1 {
      SliceGridAt(image, tw, th, rows - 1, cols, x, y);
      assert (prev + last)[y * cols + x] == prev[y * cols + x];
    } else {
      assert (prev + last)[y * cols + x] == last[x];
    }
  }

  /** Where slice `(x, y)` of a grid `cols` wide lands. */
  lemma SliceSlot(x: int, y: int, cols: nat, rows: nat)
    requires 0 <= x < cols && 0 <= y < rows
    ensures 0 <= y * cols + x < rows * cols
    ensures rows * cols == (rows - 1) * cols + cols
    ensures y < rows - 1 ==> y * cols + x < (rows - 1) * cols
    ensures y == rows - 1 ==> y * cols + x == (rows - 1) * cols + x
  {
    SlotBounds(x + 1, y + 1, cols, rows);
  }

  /** Every wang tile of every wangset, in file order. */
  function Flatten(sets: seq<seq<WangTile>>): seq<WangTile>
  {
    if sets == [] then [] else Flatten(sets[..|sets| - 1]) + sets[|sets| - 1]
  }

  /** The pattern table after loading `doc` into table `t`. */
  function TableAfter(t: Table, doc: TilesetDoc): Table
  {
    match doc.wangsets
    case None => t
    case Some(sets) => RegisterAll(t, Flatten(sets))
  }

  /** Loading a tileset keeps a well-formed table well formed, keeps every
      key where it was, and appends to each key's candidate list the tile
      ids of the document's wang tiles with that wangid, in file order;
      a document without wangsets leaves the table alone. */
  lemma TableAfterSpec(t: Table, doc: TilesetDoc)
    requires WellFormed(t)
    ensures WellFormed(TableAfter(t, doc))
    ensures doc.wangsets.None? ==> TableAfter(t, doc) == t
    ensures |t| <= |TableAfter(t, doc)|
    ensures forall a :: 0 <= a < |t| ==> TableAfter(t, doc)[a].key == t[a].key
    ensures doc.wangsets.Some? ==>
              forall key: Pattern :: Lookup(TableAfter(t, doc), key) ==
                Extended(Lookup(t, key), IdsOf(Flatten(doc.wangsets.value), key))
  {
    if doc.wangsets.Some? {
      RegisterAllSpec(t, Flatten(doc.wangsets.value));
    }
  }

  // ---------------------------------------------------------------------
  // The object catalog

  /** One entry of an objects document, with the handle and pixel width of
      the image it names. */
  datatype ObjectDesc = ObjectDesc(id: int, src: string, center: Point, width: Point, image: int, imageWidth: int)

  /** The `MapObject` `load_objects` makes: its right offset is the image
      width minus the x of its centre. */
  function MakeObject(d: ObjectDesc): MapObject
  {
    MapObject(d.id, d.src, d.center, d.width, d.imageWidth - d.center.0, d.image)
  }

  /** The catalog after storing the objects of `ds` in order under their ids. */
  function Catalog(m: map<int, MapObject>, ds: seq<ObjectDesc>): map<int, MapObject>
  {
    if ds == [] then m else Catalog(m, ds[..|ds| - 1])[ds[|ds| - 1].id := MakeObject(ds[|ds| - 1])]
  }

  /** An id is in the catalog when it was before or some description
      names it; one no description names keeps its old entry. */
  lemma {:induction false} CatalogEntry(m: map<int, MapObject>, ds: seq<ObjectDesc>, id: int)
    ensures id in Catalog(m, ds) <==> id in m || exists k :: 0 <= k < |ds| && ds[k].id == id
    ensures id in m && (forall k :: 0 <= k < |ds| ==> ds[k].id != id) ==> Catalog(m, ds)[id] == m[id]
  {
    if ds != [] {
      var init := ds[..|ds| - 1];
      CatalogEntry(m, init, id);
      if id != ds[|ds| - 1].id {
        if exists k :: 0 <= k < |ds| && ds[k].id == id {
          var k :| 0 <= k < |ds| && ds[k].id == id;
          assert init[k].id == id;
        }
        if exists k :: 0 <= k < |init| && init[k].id == id {
          var k :| 0 <= k < |init| && init[k].id == id;
          assert ds[k].id == id;
        }
      }
    }
  }

  /** The last description of an id decides its entry. */
  lemma {:induction false} CatalogLast(m: map<int, MapObject>, ds: seq<ObjectDesc>, k: nat)
    requires k < |ds| && forall k' :: k < k' < |ds| ==> ds[k'].id != ds[k].id
    ensures ds[k].id in Catalog(m, ds) && Catalog(m, ds)[ds[k].id] == MakeObject(ds[k])
  {
    if k < |ds| - 1 {
      var init := ds[..|ds| - 1];
      assert init[k] == ds[k];
      assert ds[|ds| - 1].id != ds[k].id;
      CatalogLast(m, init, k);
    }
  }

  /** The last description of an id wins; an id no description names keeps
      its old entry, or stays absent. */
  lemma CatalogSpec(m: map<int, MapObject>, ds: seq<ObjectDesc>)
    ensures forall id :: id in Catalog(m, ds) <==> id in m || exists k :: 0 <= k < |ds| && ds[k].id == id
    ensures forall id :: id in m && (forall k :: 0 <= k < |ds| ==> ds[k].id != id) ==> Catalog(m, ds)[id] == m[id]
    ensures forall k :: 0 <= k < |ds| && (forall k' :: k < k' < |ds| ==> ds[k'].id != ds[k].id) ==>
              ds[k].id in Catalog(m, ds) && Catalog(m, ds)[ds[k].id] == MakeObject(ds[k])
  {
    forall id
      ensures id in Catalog(m, ds) <==> id in m || exists k :: 0 <= k < |ds| && ds[k].id == id
      ensures id in m && (forall k :: 0 <= k < |ds| ==> ds[k].id != id) ==> Catalog(m, ds)[id] == m[id]
    {
      CatalogEntry(m, ds, id);
    }
    forall k | 0 <= k < |ds| && (forall k' :: k < k' < |ds| ==> ds[k'].id != ds[k].id)
      ensures ds[k].id in Catalog(m, ds) && Catalog(m, ds)[ds[k].id] == MakeObject(ds[k])
    {
      CatalogLast(m, ds, k);
    }
  }

  /** The catalog entry of an object gives its anchor the image width
      minus the centre as offset. */
  lemma CatalogOffset(m: map<int, MapObject>, ds: seq<ObjectDesc>, k: nat)
    requires k < |ds| && forall k' :: k < k' < |ds| ==> ds[k'].id != ds[k].id
    ensures ds[k].id in Catalog(m, ds)
    ensures Catalog(m, ds)[ds[k].id].rightOffset == ds[k].imageWidth - ds[k].center.0
    ensures Catalog(m, ds)[ds[k].id].width == ds[k].width
  {
    CatalogLast(m, ds, k);
  }
}
