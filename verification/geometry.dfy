/** Integer triples of the 8x8x8 lattice: absolute cells and relative offsets.
    Components are unbounded integers; every value the move generators build
    stays within a few steps of the lattice, far from any machine-word limit. */
module Geometry {

  /** A cell position or an offset; `x` is the file, `y` the rank, `z` the board. */
  datatype Location = Location(x: int, y: int, z: int)

  const Origin: Location := Location(0, 0, 0)

  /** Component-wise addition (the `+` operator on locations). */
  function Add(a: Location, b: Location): (r: Location)
    ensures r.x - a.x == b.x && r.y - a.y == b.y && r.z - a.z == b.z
  {
    Location(a.x + b.x, a.y + b.y, a.z + b.z)
  }

  /** The offset leading from `b` to `a`. */
  function Diff(a: Location, b: Location): (r: Location)
    ensures Add(b, r) == a
  {
    Location(a.x - b.x, a.y - b.y, a.z - b.z)
  }

  /** Scalar multiplication (the `*` and `*=` operators on locations). */
  function Scale(a: Location, k: int): (r: Location)
    ensures k == 1 ==> r == a
    ensures k == 0 ==> r == Origin
    ensures r == Origin <==> (k == 0 || a == Origin)
  {
    Location(a.x * k, a.y * k, a.z * k)
  }

  /** The mirrored offset, `a * -1`. */
  function Neg(a: Location): Location {
    Scale(a, -1)
  }

  /** Mirroring twice gives back the original offset, and only the origin is its
      own mirror image. */
  lemma NegInvolution(a: Location)
    ensures Neg(Neg(a)) == a
    ensures Neg(a) == a <==> a == Origin
  {
  }

  /** Locations under `+` form a group: the origin is the identity, addition is
      commutative and associative, and `Neg` gives the inverse. */
  lemma AddLaws(a: Location, b: Location, c: Location)
    ensures Add(a, Origin) == a && Add(Origin, a) == a
    ensures Add(a, b) == Add(b, a)
    ensures Add(Add(a, b), c) == Add(a, Add(b, c))
    ensures Add(a, Neg(a)) == Origin
    ensures Add(a, b) == Add(a, c) ==> b == c
  {
  }

  /** The cell reached after `k` steps of `d` from `l`. */
  function Along(l: Location, d: Location, k: int): Location {
    Add(l, Scale(d, k))
  }

  /** A location lies on the board iff every component is in 0..7. */
  predicate ValidLoc(l: Location) {
    0 <= l.x <= 7 && 0 <= l.y <= 7 && 0 <= l.z <= 7
  }

  /** Number of cells of the lattice. */
  const CellCount: nat := 512

  /** Position of a valid location in the flat cell sequence: `x` outermost, `z` innermost,
      as in the nested `[x][y][z]` array of `lib.rs`. */
  function Index(l: Location): (i: nat)
    requires ValidLoc(l)
    ensures i < CellCount
  {
    l.x * 64 + l.y * 8 + l.z
  }

  /** The location stored at flat position `i`. */
  function LocOf(i: nat): (l: Location)
    requires i < CellCount
    ensures ValidLoc(l)
  {
    Location(i / 64, (i % 64) / 8, i % 8)
  }

  /** Index and LocOf are inverse bijections between valid locations and 0..511. */
  lemma IndexLocOf(l: Location)
    requires ValidLoc(l)
    ensures LocOf(Index(l)) == l
  {
    var i := Index(l);
    assert i % 64 == l.y * 8 + l.z;
  }

  lemma LocOfIndex(i: nat)
    requires i < CellCount
    ensures Index(LocOf(i)) == i
  {
  }

  /** Distinct valid locations occupy distinct flat positions. */
  lemma IndexInjective(a: Location, b: Location)
    requires ValidLoc(a) && ValidLoc(b)
    ensures Index(a) == Index(b) <==> a == b
  {
    if Index(a) == Index(b) {
      IndexLocOf(a);
      IndexLocOf(b);
    }
  }

  /** One more step along a direction. */
  lemma AlongSucc(l: Location, d: Location, k: int)
    ensures Add(Along(l, d, k), d) == Along(l, d, k + 1)
  {
  }

  /** Distinct step counts along a non-zero direction reach distinct cells. */
  lemma AlongInjective(l: Location, d: Location, k1: int, k2: int)
    requires d != Origin
    ensures Along(l, d, k1) == Along(l, d, k2) <==> k1 == k2
  {
    if k1 != k2 {
      assert Scale(d, k1 - k2) != Origin;
      assert Scale(d, k1 - k2) == Diff(Scale(d, k1), Scale(d, k2));
    }
  }

  /** Steps per axis left before a walk in direction `dc` leaves 0..7 from `c`. */
  function AxisBudget(c: int, dc: int): nat
    requires 0 <= c <= 7
  {
    if dc > 0 then 8 - c else if dc < 0 then c + 1 else 0
  }

  /** Termination measure of a walk in a non-zero direction: positive on the board,
      and strictly smaller after every step. */
  function Budget(loc: Location, d: Location): (n: nat)
    ensures ValidLoc(loc) && d != Origin ==> n > 0
  {
    if ValidLoc(loc) then
      AxisBudget(loc.x, d.x) + AxisBudget(loc.y, d.y) + AxisBudget(loc.z, d.z)
    else 0
  }

  /** A step from a cell on the board uses up part of the budget. */
  lemma BudgetStep(loc: Location, d: Location)
    requires ValidLoc(loc) && d != Origin
    ensures Budget(Add(loc, d), d) < Budget(loc, d)
  {
  }
}
