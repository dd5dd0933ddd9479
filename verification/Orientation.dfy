/**
 backend/imageproc/orientation.go, oriented and its pixel loops: turning a stored picture upright.
 A raster is a two-dimensional array indexed by column and row.
 */
module Orientation {

  datatype Dim = Dim(w: nat, h: nat)

  datatype Pos = Pos(x: int, y: int)

  predicate Inside(p: Pos, d: Dim) {
    0 <= p.x < d.w && 0 <= p.y < d.h
  }

  // ---------- Where the code puts a pixel ----------

  function Turned(d: Dim): Dim {
    Dim(d.h, d.w)
  }

  function Rotate90CWPos(p: Pos, d: Dim): Pos {
    Pos(d.h - 1 - p.y, p.x)
  }

  function Rotate180Pos(p: Pos, d: Dim): Pos {
    Pos(d.w - 1 - p.x, d.h - 1 - p.y)
  }

  function FlipHorizontalPos(p: Pos, d: Dim): Pos {
    Pos(d.w - 1 - p.x, p.y)
  }

  function FlipVerticalPos(p: Pos, d: Dim): Pos {
    Pos(p.x, d.h - 1 - p.y)
  }

  function OrientedDim(o: int, d: Dim): Dim {
    if 5 <= o <= 8 then Turned(d) else d
  }

  /** The switch of `oriented`, with the compositions of 5, 7 and 8 spelled out as the code has them. */
  function Move(o: int, d: Dim, p: Pos): Pos {
    if o == 2 then FlipHorizontalPos(p, d)
    else if o == 3 then Rotate180Pos(p, d)
    else if o == 4 then FlipVerticalPos(p, d)
    else if o == 5 then FlipHorizontalPos(Rotate90CWPos(p, d), Turned(d))
    else if o == 6 then Rotate90CWPos(p, d)
    else if o == 7 then FlipVerticalPos(Rotate90CWPos(p, d), Turned(d))
    else if o == 8 then Rotate180Pos(Rotate90CWPos(p, d), Turned(d))
    else p
  }

  // ---------- Where the standard puts it (Exif 2.3, section 4.6.4) ----------

  datatype Side = Top | Bottom | Left | Right

  /** The visual side on which the 0th stored row lies. */
  function RowSide(o: int): Side {
    if o == 1 || o == 2 then Top
    else if o == 3 || o == 4 then Bottom
    else if o == 5 || o == 8 then Left
    else Right
  }

  /** The visual side on which the 0th stored column lies. */
  function ColumnSide(o: int): Side {
    if o == 1 || o == 4 then Left
    else if o == 2 || o == 3 then Right
    else if o == 5 || o == 6 then Top
    else Bottom
  }

  function DistanceFrom(side: Side, d: Dim, p: Pos): int {
    match side
    case Top => p.y
    case Bottom => d.h - 1 - p.y
    case Left => p.x
    case Right => d.w - 1 - p.x
  }

  /** Stored row y is the y-th from the row side, stored column x the x-th from the column side. */
  predicate StandardPlace(o: int, d: Dim, p: Pos, q: Pos) {
    && Inside(q, OrientedDim(o, d))
    && DistanceFrom(RowSide(o), OrientedDim(o, d), q) == p.y
    && DistanceFrom(ColumnSide(o), OrientedDim(o, d), q) == p.x
  }

  /** The code puts every pixel exactly where the standard says. */
  lemma MovesAsTheStandardSays(o: int, d: Dim, p: Pos, q: Pos)
    requires 1 <= o <= 8 && Inside(p, d)
    ensures q == Move(o, d, p) <==> StandardPlace(o, d, p, q)
  {
  }

  /** The eight places in numbers. */
  lemma TheEightPlaces(d: Dim, x: int, y: int)
    ensures Move(1, d, Pos(x, y)) == Pos(x, y)
    ensures Move(2, d, Pos(x, y)) == Pos(d.w - 1 - x, y)
    ensures Move(3, d, Pos(x, y)) == Pos(d.w - 1 - x, d.h - 1 - y)
    ensures Move(4, d, Pos(x, y)) == Pos(x, d.h - 1 - y)
    ensures Move(5, d, Pos(x, y)) == Pos(y, x)
    ensures Move(6, d, Pos(x, y)) == Pos(d.h - 1 - y, x)
    ensures Move(7, d, Pos(x, y)) == Pos(d.h - 1 - y, d.w - 1 - x)
    ensures Move(8, d, Pos(x, y)) == Pos(y, d.w - 1 - x)
    ensures forall o :: o < 1 || o > 8 ==> Move(o, d, Pos(x, y)) == Pos(x, y)
  {
  }

  // ---------- The eight orientations are a group of bijections ----------

  function Inverse(o: int): int {
    if o == 6 then 8 else if o == 8 then 6 else o
  }

  /** Undoing an orientation is applying its inverse, so no pixel is lost or duplicated. */
  lemma InverseUndoes(o: int, d: Dim, p: Pos)
    requires 1 <= o <= 8 && Inside(p, d)
    ensures 1 <= Inverse(o) <= 8
    ensures OrientedDim(Inverse(o), OrientedDim(o, d)) == d
    ensures Inside(Move(o, d, p), OrientedDim(o, d))
    ensures Move(Inverse(o), OrientedDim(o, d), Move(o, d, p)) == p
  {
  }

  lemma MoveIsBijective(o: int, d: Dim)
    requires 1 <= o <= 8
    ensures forall p, q :: Inside(p, d) && Inside(q, d) && Move(o, d, p) == Move(o, d, q) ==> p == q
    ensures forall q :: Inside(q, OrientedDim(o, d)) ==>
              Inside(Move(Inverse(o), OrientedDim(o, d), q), d) &&
              Move(o, d, Move(Inverse(o), OrientedDim(o, d), q)) == q
  {
    forall q | Inside(q, OrientedDim(o, d))
      ensures Inside(Move(Inverse(o), OrientedDim(o, d), q), d)
      ensures Move(o, d, Move(Inverse(o), OrientedDim(o, d), q)) == q
    {
      InverseUndoes(Inverse(o), OrientedDim(o, d), q);
    }
  }

  /** An orientation as a transposition followed by flips. */
  datatype Bits = Bits(turn: bool, flipX: bool, flipY: bool)

  function BitsOf(o: int): Bits {
    Bits(5 <= o <= 8, o == 2 || o == 3 || o == 6 || o == 7, o == 3 || o == 4 || o == 7 || o == 8)
  }

  function OfBits(b: Bits): int {
    if b.turn then (if b.flipX then (if b.flipY then 7 else 6) else (if b.flipY then 8 else 5))
    else (if b.flipX then (if b.flipY then 3 else 2) else (if b.flipY then 4 else 1))
  }

  function ApplyBits(b: Bits, d: Dim, p: Pos): Pos {
    var q := if b.turn then Pos(p.y, p.x) else p;
    var e := if b.turn then Turned(d) else d;
    Pos(if b.flipX then e.w - 1 - q.x else q.x, if b.flipY then e.h - 1 - q.y else q.y)
  }

  function Compose(a: int, b: int): int {
    var x, y := BitsOf(a), BitsOf(b);
    if y.turn then OfBits(Bits(!x.turn, x.flipY != y.flipX, x.flipX != y.flipY))
    else OfBits(Bits(x.turn, x.flipX != y.flipX, x.flipY != y.flipY))
  }

  lemma MoveByBits(o: int, d: Dim, p: Pos)
    requires 1 <= o <= 8
    ensures Move(o, d, p) == ApplyBits(BitsOf(o), d, p)
  {
  }

  /** Two orientations in a row are one of the eight. */
  lemma ComposeMoves(a: int, b: int, d: Dim, p: Pos)
    requires 1 <= a <= 8 && 1 <= b <= 8
    ensures 1 <= Compose(a, b) <= 8
    ensures OrientedDim(b, OrientedDim(a, d)) == OrientedDim(Compose(a, b), d)
    ensures Move(b, OrientedDim(a, d), Move(a, d, p)) == Move(Compose(a, b), d, p)
  {
    MoveByBits(a, d, p);
    MoveByBits(b, OrientedDim(a, d), Move(a, d, p));
    MoveByBits(Compose(a, b), d, p);
    var x, y, z := BitsOf(a), BitsOf(b), BitsOf(Compose(a, b));
    assert z == if y.turn then Bits(!x.turn, x.flipY != y.flipX, x.flipX != y.flipY)
                else Bits(x.turn, x.flipX != y.flipX, x.flipY != y.flipY);
  }

  // ---------- The pixel loops ----------

  function DimOf<T>(a: array2<T>): Dim {
    Dim(a.Length0, a.Length1)
  }

  method Flatten<T(0)>(src: array2<T>) returns (dst: array2<T>)
    ensures fresh(dst) && DimOf(dst) == DimOf(src)
    ensures forall x, y :: 0 <= x < src.Length0 && 0 <= y < src.Length1 ==> dst[x, y] == src[x, y]
  {
    dst := new T[src.Length0, src.Length1];
    forall x, y | 0 <= x < src.Length0 && 0 <= y < src.Length1 {
      dst[x, y] := src[x, y];
    }
  }

  method Rotate90CW<T(0)>(src: array2<T>) returns (dst: array2<T>)
    ensures fresh(dst) && DimOf(dst) == Turned(DimOf(src))
    ensures forall x, y :: 0 <= x < src.Length0 && 0 <= y < src.Length1 ==>
              dst[src.Length1 - 1 - y, x] == src[x, y]
  {
    var w, h := src.Length0, src.Length1;
    dst := new T[h, w];
    for y := 0 to h
      invariant forall a, b :: 0 <= a < w && 0 <= b < y ==> dst[h - 1 - b, a] == src[a, b]
    {
      for x := 0 to w
        invariant forall a, b :: 0 <= a < w && 0 <= b < y ==> dst[h - 1 - b, a] == src[a, b]
        invariant forall a :: 0 <= a < x ==> dst[h - 1 - y, a] == src[a, y]
      {
        dst[h - 1 - y, x] := src[x, y];
      }
    }
  }

  method Rotate180<T(0)>(src: array2<T>) returns (dst: array2<T>)
    ensures fresh(dst) && DimOf(dst) == DimOf(src)
    ensures forall x, y :: 0 <= x < src.Length0 && 0 <= y < src.Length1 ==>
              dst[src.Length0 - 1 - x, src.Length1 - 1 - y] == src[x, y]
  {
    var w, h := src.Length0, src.Length1;
    dst := new T[w, h];
    for y := 0 to h
      invariant forall a, b :: 0 <= a < w && 0 <= b < y ==> dst[w - 1 - a, h - 1 - b] == src[a, b]
    {
      for x := 0 to w
        invariant forall a, b :: 0 <= a < w && 0 <= b < y ==> dst[w - 1 - a, h - 1 - b] == src[a, b]
        invariant forall a :: 0 <= a < x ==> dst[w - 1 - a, h - 1 - y] == src[a, y]
      {
        dst[w - 1 - x, h - 1 - y] := src[x, y];
      }
    }
  }

  method FlipHorizontal<T(0)>(src: array2<T>) returns (dst: array2<T>)
    ensures fresh(dst) && DimOf(dst) == DimOf(src)
    ensures forall x, y :: 0 <= x < src.Length0 && 0 <= y < src.Length1 ==>
              dst[src.Length0 - 1 - x, y] == src[x, y]
  {
    var w, h := src.Length0, src.Length1;
    dst := new T[w, h];
    for y := 0 to h
      invariant forall a, b :: 0 <= a < w && 0 <= b < y ==> dst[w - 1 - a, b] == src[a, b]
    {
      for x := 0 to w
        invariant forall a, b :: 0 <= a < w && 0 <= b < y ==> dst[w - 1 - a, b] == src[a, b]
        invariant forall a :: 0 <= a < x ==> dst[w - 1 - a, y] == src[a, y]
      {
        dst[w - 1 - x, y] := src[x, y];
      }
    }
  }

  method FlipVertical<T(0)>(src: array2<T>) returns (dst: array2<T>)
    ensures fresh(dst) && DimOf(dst) == DimOf(src)
    ensures forall x, y :: 0 <= x < src.Length0 && 0 <= y < src.Length1 ==>
              dst[x, src.Length1 - 1 - y] == src[x, y]
  {
    var w, h := src.Length0, src.Length1;
    dst := new T[w, h];
    for y := 0 to h
      invariant forall a, b :: 0 <= a < w && 0 <= b < y ==> dst[a, h - 1 - b] == src[a, b]
    {
      for x := 0 to w
        invariant forall a, b :: 0 <= a < w && 0 <= b < y ==> dst[a, h - 1 - b] == src[a, b]
        invariant forall a :: 0 <= a < x ==> dst[a, h - 1 - y] == src[a, y]
      {
        dst[x, h - 1 - y] := src[x, y];
      }
    }
  }

  /** dst holds the pixels of src, each at the position of orientation o. */
  ghost predicate Holds<T>(dst: array2<T>, o: int, src: array2<T>)
    reads dst, src
  {
    && DimOf(dst) == OrientedDim(o, DimOf(src))
    && forall x, y :: 0 <= x < src.Length0 && 0 <= y < src.Length1 ==>
         var q := Move(o, DimOf(src), Pos(x, y));
         Inside(q, DimOf(dst)) && dst[q.x, q.y] == src[x, y]
  }

  /** The picture turned upright: every stored pixel ends where its orientation says, and any other value copies. */
  method Oriented<T(0)>(src: array2<T>, orientation: int) returns (dst: array2<T>)
    ensures fresh(dst) && Holds(dst, orientation, src)
  {
    var flat := Flatten(src);
    dst := Turn(flat, orientation);
    CopyHolds(dst, orientation, flat, src);
  }

  /** The switch over the orientations. */
  method Turn<T(0)>(flat: array2<T>, orientation: int) returns (dst: array2<T>)
    ensures dst == flat || fresh(dst)
    ensures Holds(dst, orientation, flat)
  {
    if orientation == 2 {
      dst := FlipHorizontal(flat);
    } else if orientation == 3 {
      dst := Rotate180(flat);
    } else if orientation == 4 {
      dst := FlipVertical(flat);
    } else if 5 <= orientation <= 8 {
      dst := Quarter(flat, orientation);
    } else {
      dst := flat;
    }
  }

  lemma CopyHolds<T>(dst: array2<T>, o: int, flat: array2<T>, src: array2<T>)
    requires DimOf(flat) == DimOf(src)
    requires forall x, y :: 0 <= x < src.Length0 && 0 <= y < src.Length1 ==> flat[x, y] == src[x, y]
    requires Holds(dst, o, flat)
    ensures Holds(dst, o, src)
  {
    forall x, y | 0 <= x < src.Length0 && 0 <= y < src.Length1
      ensures var q := Move(o, DimOf(src), Pos(x, y)); Inside(q, DimOf(dst)) && dst[q.x, q.y] == src[x, y]
    {
      assert flat[x, y] == src[x, y];
    }
  }

  /** The four orientations that turn a quarter first. */
  method Quarter<T(0)>(flat: array2<T>, orientation: int) returns (dst: array2<T>)
    requires 5 <= orientation <= 8
    ensures fresh(dst) && Holds(dst, orientation, flat)
  {
    var turned := Rotate90CW(flat);
    if orientation == 5 {
      dst := FlipHorizontal(turned);
    } else if orientation == 6 {
      dst := turned;
    } else if orientation == 7 {
      dst := FlipVertical(turned);
    } else {
      dst := Rotate180(turned);
    }
    forall x, y | 0 <= x < flat.Length0 && 0 <= y < flat.Length1
      ensures var q := Move(orientation, DimOf(flat), Pos(x, y)); Inside(q, DimOf(dst)) && dst[q.x, q.y] == flat[x, y]
    {
      assert turned[flat.Length1 - 1 - y, x] == flat[x, y];
    }
  }

  /** So the upright picture is determined pixel by pixel: each comes from exactly one stored pixel. */
  lemma EveryPixelComesFromOne<T>(dst: array2<T>, o: int, src: array2<T>, q: Pos)
    requires 1 <= o <= 8 && Holds(dst, o, src) && Inside(q, DimOf(dst))
    ensures var p := Move(Inverse(o), DimOf(dst), q);
            && Inside(p, DimOf(src)) && dst[q.x, q.y] == src[p.x, p.y]
            && forall r :: Inside(r, DimOf(src)) && Move(o, DimOf(src), r) == q ==> r == p
  {
    MoveIsBijective(o, DimOf(src));
    var p := Move(Inverse(o), DimOf(dst), q);
    assert Move(o, DimOf(src), Pos(p.x, p.y)) == q;
  }
}
