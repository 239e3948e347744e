/** Shared vocabulary of the tile world: optional values, the errors the
    engine raises, rectangular windows of chunk coordinates and Python's
    list indexing. */
module Common {

  datatype Option<+T> = None | Some(value: T)

  /** The exceptions the engine can raise, one per failure path of the
      source, and the one refusal of the model itself. */
  datatype Error =
    | NoGenerator      // the layer has no generator function
    | MissingPattern   // the self-pattern fallback is not a key of the pattern table
    | EmptyCandidates  // random.choice on an empty candidate list
    | TileOutOfRange   // tileset[index] outside the tileset
    | UnknownObject    // the raw value is not a key of the object catalog
    | ZeroTileHeight   // imageheight // tileheight with tileheight == 0
    | SharedLayer      // the layer object is already one of the layers (the model keeps layers distinct)

  datatype Result<+T> = Ok(value: T) | Err(error: Error)

  /** Outcome of an operation that returns nothing but may raise. */
  datatype Status = Pass | Fail(error: Error)

  /** A chunk coordinate, a world cell or a pixel position. */
  type Point = (int, int)

  /** Python's `xs[index]` on a list of length `n`: a negative index counts
      from the end, anything else outside the list raises IndexError. */
  function PyIndex(index: int, n: nat): (r: Option<nat>)
    ensures r.Some? <==> 0 <= index + n && index < n
    ensures r.Some? ==> r.value < n && (r.value == index || r.value == index + n)
  {
    if 0 <= index < n then Some(index)
    else if 0 <= index + n && index < 0 then Some(index + n)
    else None
  }

  /** Python's floor division `a // b` for a non-zero divisor. */
  function FloorDiv(a: int, b: int): (q: int)
    requires b != 0
    ensures b > 0 ==> q * b <= a < q * b + b
    ensures b < 0 ==> q * b >= a > q * b + b
  {
    if b > 0 then a / b
    else if a % b == 0 then a / b
    else a / b - 1
  }

  /** `max(0, n)`: the length of `range(0, n)`. */
  function Len(n: int): nat
  {
    if n < 0 then 0 else n
  }

  /** The chunk coordinates `range(left, left + width) x range(top, top + height)`. */
  datatype Window = Window(left: int, top: int, width: nat, height: nat)
  {
    predicate Contains(p: Point)
    {
      left <= p.0 < left + width && top <= p.1 < top + height
    }
  }

  /** The window `range(x0, x1)` by `range(y0, y1)` of nested Python loops. */
  function Span(x0: int, x1: int, y0: int, y1: int): (w: Window)
    ensures forall p: Point :: w.Contains(p) <==> x0 <= p.0 < x1 && y0 <= p.1 < y1
  {
    Window(x0, y0, Len(x1 - x0), Len(y1 - y0))
  }
}
