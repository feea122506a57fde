/** The value type for a square of the map, shared by the engine and the bot SDK
    (LocationClass.py). */
module Locations {
  import opened Common

  datatype Location = Location(row: int, col: int)

  /** What `__eq__` may be handed: another Location, or any other object. */
  datatype Comparand = Loc(loc: Location) | NotALocation

  /** `as_tuple`: the (row, col) pair, from which the location is rebuilt. */
  function AsTuple(l: Location): (t: (int, int))
    ensures Location(t.0, t.1) == l
    ensures t.0 == l.row && t.1 == l.col
  {
    (l.row, l.col)
  }

  /** `__eq__`: coordinate-wise equality; comparing with a non-Location raises
      TypeError, modelled as `None`. */
  function Equals(a: Location, other: Comparand): (r: Option<bool>)
    ensures other.NotALocation? <==> r.None?
    ensures other.Loc? ==> r == Some(a == other.loc)
  {
    match other
    case NotALocation => None
    case Loc(b) => Some(a.row == b.row && a.col == b.col)
  }

  /** `__ne__`: `not self == other`, so it raises exactly when `__eq__` does. */
  function NotEquals(a: Location, other: Comparand): (r: Option<bool>)
    ensures r.None? <==> Equals(a, other).None?
    ensures r.Some? ==> r.value == !Equals(a, other).value
    ensures other.Loc? ==> r == Some(a != other.loc)
  {
    match Equals(a, other)
    case None => None
    case Some(e) => Some(!e)
  }

  /** `__hash__`: `col * 100 + row`. */
  function Hash(l: Location): int
  {
    l.col * 100 + l.row
  }

  /** The hash agrees with equality and separates any two locations whose rows
      lie in 0..99, the limit the doc-comment warns about. */
  lemma HashInjective(a: Location, b: Location)
    requires 0 <= a.row < 100 && 0 <= b.row < 100
    ensures Hash(a) == Hash(b) <==> a == b
  {
  }

  /** With a 101st row the hash collides: row 100 of column 0 and row 0 of column 1. */
  lemma HashCollidesPastRow99()
    ensures Hash(Location(100, 0)) == Hash(Location(0, 1))
    ensures Location(100, 0) != Location(0, 1)
  {
  }

  /** `get_location`: a location is its own location. */
  function GetLocation(l: Location): (r: Location)
    ensures AsTuple(r) == AsTuple(l)
  {
    l
  }
}
