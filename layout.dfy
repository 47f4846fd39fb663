/**
 * The wiring of the 5x5 panel: a serpentine path numbered from the last
 * physical LED back to the first.
 */
module Layout {

  /** (x, y) lies on the 5x5 panel. */
  predicate OnGrid(x: int, y: int)
  {
    0 <= x < 5 && 0 <= y < 5
  }

  /**
   * `getIndex`: the linear LED index of panel position (x, y). Row y runs
   * left to right when y is even and right to left when y is odd, and the
   * whole run is numbered in reverse. C's `%` truncates toward zero, but
   * `y % 2 == 0` holds for exactly the even y under either convention.
   */
  function GetIndex(x: int, y: int): (i: int)
    ensures OnGrid(x, y) ==> 0 <= i < 25
  {
    if y % 2 == 0 then 24 - (y * 5 + x) else 24 - (y * 5 + (4 - x))
  }

  /** The panel position of LED `i`: a right inverse of GetIndex. */
  function Coord(i: int): (c: (int, int))
    requires 0 <= i < 25
    ensures OnGrid(c.0, c.1)
    ensures GetIndex(c.0, c.1) == i
  {
    var y := (24 - i) / 5;
    var offset := (24 - i) % 5;
    (if y % 2 == 0 then offset else 4 - offset, y)
  }

  /** Coord undoes GetIndex on the panel: no two positions share an LED. */
  lemma CoordOfGetIndex(x: int, y: int)
    requires OnGrid(x, y)
    ensures Coord(GetIndex(x, y)) == (x, y)
  {
    var i := GetIndex(x, y);
    var run := if y % 2 == 0 then x else 4 - x;
    assert 24 - i == y * 5 + run;
    assert (24 - i) / 5 == y && (24 - i) % 5 == run;
  }

  /** GetIndex is injective on the panel. */
  lemma GetIndexInjective(x1: int, y1: int, x2: int, y2: int)
    requires OnGrid(x1, y1) && OnGrid(x2, y2)
    requires GetIndex(x1, y1) == GetIndex(x2, y2)
    ensures x1 == x2 && y1 == y2
  {
    CoordOfGetIndex(x1, y1);
    CoordOfGetIndex(x2, y2);
  }

  /**
   * GetIndex is a bijection from the panel onto 0..24: every index comes
   * from exactly one position.
   */
  lemma GetIndexBijective(i: int)
    requires 0 <= i < 25
    ensures exists x, y :: OnGrid(x, y) && GetIndex(x, y) == i
    ensures forall x, y :: OnGrid(x, y) && GetIndex(x, y) == i ==> (x, y) == Coord(i)
  {
    var c := Coord(i);
    assert OnGrid(c.0, c.1) && GetIndex(c.0, c.1) == i;
    forall x, y | OnGrid(x, y) && GetIndex(x, y) == i
      ensures (x, y) == Coord(i)
    {
      CoordOfGetIndex(x, y);
    }
  }

  /**
   * The path is continuous: LEDs with consecutive indices sit at
   * neighbouring panel positions.
   */
  lemma SerpentineContinuous(i: int)
    requires 1 <= i < 25
    ensures var a, b := Coord(i - 1), Coord(i);
      (a.0 - b.0) * (a.0 - b.0) + (a.1 - b.1) * (a.1 - b.1) == 1
  {
  }

  /** Corner and row-turn values of the wiring. */
  lemma GetIndexSamples()
    ensures GetIndex(0, 0) == 24 && GetIndex(4, 0) == 20
    ensures GetIndex(0, 1) == 15 && GetIndex(4, 4) == 0
  {
  }
}
