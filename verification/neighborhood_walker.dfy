/** The square walk around a pixel
    (source/projection_correction/NeighborhoodWalker.hpp).

    NeighborhoodWalker.txx, which holds GetNextLocation and TakeStep, is not
    part of this model.  The walk here is the one the header documents and
    the walker tests pin down: it visits the square rings around the
    starting point in order of increasing radius and skips the cells that
    lie outside the image.  Ring 1 takes the four edge neighbours (+i, +j,
    -i, -j) before the four diagonals.  Ring r >= 2 starts at (+r, -r + 1)
    and goes round: up the side i = +r, back along j = +r, down the side
    i = -r and along j = -r, 2r cells per side. */
module NeighborhoodWalker {

  /** A place on the walk: ring `radius`, cell `step` of that ring. */
  datatype Cursor = Cursor(radius: nat, step: nat)

  predicate ValidCursor(c: Cursor)
  {
    c.radius >= 1 && c.step < 8 * c.radius
  }

  /** Cursors in walk order. */
  predicate Before(a: Cursor, b: Cursor)
  {
    a.radius < b.radius || (a.radius == b.radius && a.step < b.step)
  }

  function Abs(x: int): nat
  {
    if x < 0 then -x else x
  }

  /** The ring a relative location lies on. */
  function Chebyshev(d: (int, int)): nat
  {
    if Abs(d.0) >= Abs(d.1) then Abs(d.0) else Abs(d.1)
  }

  /** Ring 1: the four edge neighbours, then the four diagonals. */
  function Ring1(k: nat): (d: (int, int))
    requires k < 8
  {
    [(1, 0), (0, 1), (-1, 0), (0, -1), (1, 1), (-1, 1), (-1, -1), (1, -1)][k]
  }

  /** The location of a cursor relative to the starting point. */
  function Offset(c: Cursor): (d: (int, int))
    requires ValidCursor(c)
    ensures Chebyshev(d) == c.radius
  {
    var r, k := c.radius as int, c.step as int;
    if r == 1 then Ring1(k)
    else if k < 2 * r then (r, k - r + 1)
    else if k < 4 * r then (3 * r - 1 - k, r)
    else if k < 6 * r then (-r, 5 * r - 1 - k)
    else (k - 7 * r + 1, -r)
  }

  /** The cursor of a relative location: the inverse of Offset. */
  function CursorOf(d: (int, int)): (c: Cursor)
    requires d != (0, 0)
    ensures ValidCursor(c) && c.radius == Chebyshev(d)
  {
    var r := Chebyshev(d) as int;
    if r == 1 then
      if d == (1, 0) then Cursor(1, 0)
      else if d == (0, 1) then Cursor(1, 1)
      else if d == (-1, 0) then Cursor(1, 2)
      else if d == (0, -1) then Cursor(1, 3)
      else if d == (1, 1) then Cursor(1, 4)
      else if d == (-1, 1) then Cursor(1, 5)
      else if d == (-1, -1) then Cursor(1, 6)
      else Cursor(1, 7)
    else if d.0 == r && d.1 > -r then Cursor(r, d.1 + r - 1)
    else if d.1 == r && d.0 < r then Cursor(r, 3 * r - 1 - d.0)
    else if d.0 == -r && d.1 < r then Cursor(r, 5 * r - 1 - d.1)
    else Cursor(r, d.0 + 7 * r - 1)
  }

  /** Every valid cursor is found again from its location ... */
  lemma {:induction false} CursorOfOffset(c: Cursor)
    requires ValidCursor(c)
    ensures Offset(c) != (0, 0) && CursorOf(Offset(c)) == c
  {
  }

  /** ... and every location other than the start is on the walk. */
  lemma {:induction false} OffsetOfCursor(d: (int, int))
    requires d != (0, 0)
    ensures Offset(CursorOf(d)) == d
  {
  }

  /** So no location is visited twice. */
  lemma {:induction false} NoRepeats(a: Cursor, b: Cursor)
    requires ValidCursor(a) && ValidCursor(b) && a != b
    ensures Offset(a) != Offset(b)
  {
    CursorOfOffset(a);
    CursorOfOffset(b);
  }

  /** The distance from the start never decreases along the walk. */
  lemma {:induction false} MovesOutward(a: Cursor, b: Cursor)
    requires ValidCursor(a) && ValidCursor(b) && Before(a, b)
    ensures Chebyshev(Offset(a)) <= Chebyshev(Offset(b))
  {
  }

  /** The next cell of the walk. */
  function Next(c: Cursor): (n: Cursor)
    requires ValidCursor(c)
    ensures ValidCursor(n) && Before(c, n)
    ensures forall m: Cursor :: Before(c, m) && Before(m, n) ==> !ValidCursor(m)
  {
    if c.step + 1 < 8 * c.radius then Cursor(c.radius, c.step + 1)
    else Cursor(c.radius + 1, 0)
  }

  // ---------------------------------------------------------------------
  // The walker

  /** A walker: the image dims, the starting point, and the next cell of the
      walk to try. */
  datatype Walker = Walker(dims: (int, int), start: (int, int), next: Cursor)

  /** The constructor: the walk starts on ring 1. */
  function NewWalker(dims: (int, int), start: (int, int)): (w: Walker)
    ensures ValidCursor(w.next) && forall m: Cursor :: Before(m, w.next) ==> !ValidCursor(m)
  {
    Walker(dims, start, Cursor(1, 0))
  }

  function Location(start: (int, int), c: Cursor): (int, int)
    requires ValidCursor(c)
  {
    var d := Offset(c);
    (start.0 + d.0, start.1 + d.1)
  }

  predicate Inside(dims: (int, int), p: (int, int))
  {
    0 <= p.0 < dims.0 && 0 <= p.1 < dims.1
  }

  /** GetNextLocation: the first cell from `next` on that lies inside the
      image.  Some cell at or after `next`, here `target`, must lie inside,
      or the walk would never end. */
  method GetNextLocation(w: Walker, ghost target: Cursor) returns (loc: (int, int), found: Cursor, w': Walker)
    requires ValidCursor(w.next) && ValidCursor(target) && !Before(target, w.next)
    requires Inside(w.dims, Location(w.start, target))
    ensures ValidCursor(found) && !Before(found, w.next) && !Before(target, found)
    ensures loc == Location(w.start, found) && Inside(w.dims, loc)
    ensures forall c: Cursor :: ValidCursor(c) && !Before(c, w.next) && Before(c, found) ==>
              !Inside(w.dims, Location(w.start, c))
    ensures w' == w.(next := Next(found))
  {
    found := w.next;
    while !Inside(w.dims, Location(w.start, found))
      invariant ValidCursor(found) && !Before(found, w.next) && !Before(target, found)
      invariant forall c: Cursor :: ValidCursor(c) && !Before(c, w.next) && Before(c, found) ==>
                  !Inside(w.dims, Location(w.start, c))
      decreases target.radius - found.radius,
                if found.radius == target.radius then target.step - found.step else 8 * found.radius - found.step
    {
      Skip(w, found);
      found := Next(found);
    }
    loc := Location(w.start, found);
    w' := w.(next := Next(found));
  }

  /** Stepping past a cell outside the image keeps every skipped cell
      outside. */
  lemma {:induction false} Skip(w: Walker, found: Cursor)
    requires ValidCursor(found) && !Inside(w.dims, Location(w.start, found))
    requires forall c: Cursor :: ValidCursor(c) && !Before(c, w.next) && Before(c, found) ==>
               !Inside(w.dims, Location(w.start, c))
    ensures forall c: Cursor :: ValidCursor(c) && !Before(c, w.next) && Before(c, Next(found)) ==>
              !Inside(w.dims, Location(w.start, c))
  {
    var n := Next(found);
    forall c: Cursor | ValidCursor(c) && !Before(c, w.next) && Before(c, n)
      ensures !Inside(w.dims, Location(w.start, c))
    {
      if c != found {
        assert !(Before(found, c) && Before(c, n));
        assert Before(c, found);
      }
    }
  }

  /** StartInterior of the walker tests: ring 1, then the first cells of
      rings 2, 3 and 4, relative to the start (6, 6). */
  lemma {:induction false} InteriorWalkExample()
    ensures seq(8, k requires 0 <= k < 8 => Location((6, 6), Cursor(1, k)))
            == [(7, 6), (6, 7), (5, 6), (6, 5), (7, 7), (5, 7), (5, 5), (7, 5)]
    ensures Location((6, 6), Cursor(2, 0)) == (8, 5) && Location((6, 6), Cursor(2, 4)) == (7, 8)
    ensures Location((6, 6), Cursor(2, 15)) == (8, 4) && Location((6, 6), Cursor(3, 0)) == (9, 4)
    ensures Location((6, 6), Cursor(3, 23)) == (9, 3) && Location((6, 6), Cursor(4, 0)) == (10, 3)
  {
  }

  /** StartNearCorner of the walker tests: from (0, 2) in a 12 x 12 image the
      first two locations are (1, 2) and (0, 3); the third skips (-1, 2)
      and is (0, 1). */
  lemma {:induction false} CornerWalkExample()
    ensures Inside((12, 12), Location((0, 2), Cursor(1, 1)))
    ensures !Inside((12, 12), Location((0, 2), Cursor(1, 2)))
    ensures Location((0, 2), Cursor(1, 3)) == (0, 1)
  {
  }
}
