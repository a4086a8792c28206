/**
  The centre-out tile enumeration (src/lib/spiral.ts).

  The walk starts at (0,0) heading (0,-1) and, for width*height steps, keeps
  the current cell when it lies in the half-open rectangle
  (-width/2, width/2] x (-height/2, height/2], then possibly turns a quarter
  and moves one cell.  `Walker` is the loop state, `Advance` one iteration,
  `WalkerAt(n)` the state before iteration n and `Kept(w, h, n)` the cells
  pushed by the first n iterations.  `SpiralIndex` is a closed form of the
  iteration at which the walk reaches a cell; the lemmas below show the walk
  follows it, which gives no revisits, centre-out order and an exact account
  of which cells the enumeration returns.
*/
module SpiralWalk {

  /** An integer offset (x, y) from the centre tile. */
  datatype Cell = Cell(x: int, y: int)

  /** The loop variables x, y, dx, dy and direction_switch. */
  datatype Walker = Walker(x: int, y: int, dx: int, dy: int, directionSwitch: bool)

  /** The state before the first iteration. */
  const Start: Walker := Walker(0, 0, 0, -1, true)

  function Abs(n: int): nat { if n < 0 then -n else n }

  /** Chebyshev distance max(|x|, |y|) from the origin: the ring a cell lies on. */
  function Ring(c: Cell): nat {
    if Abs(c.x) < Abs(c.y) then Abs(c.y) else Abs(c.x)
  }

  function Pos(w: Walker): Cell { Cell(w.x, w.y) }

  /** The condition under which the walk turns before moving. */
  predicate Turns(w: Walker) {
    (w.directionSwitch && w.x == w.y) || (w.x < 0 && w.x == -w.y) || (w.x > 0 && w.x == 1 - w.y)
  }

  /** One loop iteration after the optional push: turn by [-dy, dx] when
      `Turns`, recompute direction_switch from the new dx, then step. */
  function Advance(w: Walker): Walker {
    if Turns(w) then
      Walker(w.x - w.dy, w.y + w.dx, -w.dy, w.dx, w.x != w.y || -w.dy == -1)
    else
      Walker(w.x + w.dx, w.y + w.dy, w.dx, w.dy, w.directionSwitch)
  }

  /** The loop state before iteration n. */
  function WalkerAt(n: nat): Walker {
    if n == 0 then Start else Advance(WalkerAt(n - 1))
  }

  /** The cell examined by iteration n. */
  function CellAt(n: nat): Cell { Pos(WalkerAt(n)) }

  /** The half-open rectangle (-width/2, width/2] x (-height/2, height/2],
      each comparison multiplied through by 2 so that it stays in integers. */
  predicate InRect(width: nat, height: nat, c: Cell) {
    -(width as int) < 2 * c.x <= width && -(height as int) < 2 * c.y <= height
  }

  /** The cells pushed by the first n iterations, in push order. */
  function Kept(width: nat, height: nat, n: nat): seq<Cell> {
    if n == 0 then []
    else Kept(width, height, n - 1) + (if InRect(width, height, CellAt(n - 1)) then [CellAt(n - 1)] else [])
  }

  /** What spiral(width, height) returns. */
  function SpiralCells(width: nat, height: nat): seq<Cell> {
    Kept(width, height, width * height)
  }

  /** spiral(width, height): walk width*height iterations and return the
      cells pushed, all of them in the rectangle. */
  method Spiral(width: nat, height: nat) returns (cells: seq<Cell>)
    ensures cells == SpiralCells(width, height)
    ensures forall k | 0 <= k < |cells| :: InRect(width, height, cells[k])
    ensures |cells| <= width * height
    ensures width == 0 || height == 0 ==> cells == []
  {
    cells := Walk(width, height, width * height);
    KeptInRect(width, height, width * height);
    KeptLength(width, height, width * height);
    if width == 0 || height == 0 {
      EmptyRectangle(width, height);
    }
  }

  /** The counted loop of spiral over the walk variables x, y, dx, dy and
      direction_switch, run for n iterations: each pushes the current cell
      when it is in the rectangle, then possibly turns, then steps. */
  method Walk(width: nat, height: nat, n: nat) returns (cells: seq<Cell>)
    ensures cells == Kept(width, height, n)
  {
    cells := [];
    var x, y, dx, dy, directionSwitch := 0, 0, 0, -1, true;
    for i := 0 to n
      invariant Walker(x, y, dx, dy, directionSwitch) == WalkerAt(i)
      invariant cells == Kept(width, height, i)
    {
      ghost var next := Advance(WalkerAt(i));
      assert next == WalkerAt(i + 1);
      if -(width as int) < 2 * x && 2 * x <= width && -(height as int) < 2 * y && 2 * y <= height {
        cells := cells + [Cell(x, y)];
      }
      assert cells == Kept(width, height, i + 1);
      if (directionSwitch && x == y) || (x < 0 && x == -y) || (x > 0 && x == 1 - y) {
        dx, dy := -dy, dx;
        directionSwitch := x != y || dx == -1;
      }
      x := x + dx;
      y := y + dy;
      assert x == next.x && y == next.y && dx == next.dx && dy == next.dy && directionSwitch == next.directionSwitch;
    }
  }

  /** A rectangle without cells gives no iterations and no cells. */
  lemma EmptyRectangle(width: nat, height: nat)
    requires width == 0 || height == 0
    ensures SpiralCells(width, height) == []
  {
    assert width * height == 0;
  }

  // ---------------------------------------------------------------------
  // The closed form of the walk

  /** The iteration at which ring k is entered: 0 for the centre, and the
      number of cells of the (2k-1) x (2k-1) square for k >= 1. */
  function RingStart(k: nat): nat {
    if k <= 1 then k else RingStart(k - 1) + 8 * (k - 1)
  }

  lemma {:induction false} RingStartIsSquare(k: nat)
    requires k >= 1
    ensures RingStart(k) == (2 * k - 1) * (2 * k - 1)
  {
    if k > 1 {
      RingStartIsSquare(k - 1);
      assert (2 * k - 1) * (2 * k - 1) == (2 * k - 3) * (2 * k - 3) + 8 * (k - 1);
    }
  }

  lemma {:induction false} RingStartMonotone(a: nat, b: nat)
    requires a <= b
    ensures RingStart(a) <= RingStart(b)
    ensures a < b ==> RingStart(a) < RingStart(b)
  {
    if a < b {
      RingStartMonotone(a, b - 1);
    }
  }

  /** The iteration at which the walk examines cell c.  Ring k >= 1 is walked
      up the side x = k from (k, 1-k), left along y = k, down the side x = -k
      and right along y = -k to (k, -k), 8k cells in all. */
  function SpiralIndex(c: Cell): nat {
    var k: int := Ring(c);
    if k == 0 then 0
    else if c.x == k && c.y >= 1 - k then RingStart(k) + (c.y + k - 1)
    else if c.y == k then RingStart(k) + (3 * k - 1 - c.x)
    else if c.x == -k then RingStart(k) + (5 * k - 1 - c.y)
    else RingStart(k) + (7 * k - 1 + c.x)
  }

  /** Ring k >= 1 takes the iterations RingStart(k) .. RingStart(k+1)-1. */
  lemma SpiralIndexInRing(c: Cell)
    ensures RingStart(Ring(c)) <= SpiralIndex(c) < RingStart(Ring(c) + 1)
  {
  }

  /** The shape of the loop state at the top of every iteration: the centre
      with the initial direction, or a cell of ring k >= 1 heading along one of
      the ring's sides with the direction_switch value the code gives it. */
  predicate OnTrack(w: Walker) {
    var k: int := Ring(Pos(w));
    if k == 0 then w == Start
    else
      || (w.dx == 1 && w.dy == 0 && !w.directionSwitch &&
          ((w.y == -k && -k < w.x) || (w.x == k && w.y == 1 - k)))
      || (w.dx == 0 && w.dy == 1 && w.directionSwitch && w.x == k && 2 - k <= w.y)
      || (w.dx == -1 && w.dy == 0 && w.directionSwitch && w.y == k && w.x < k)
      || (w.dx == 0 && w.dy == -1 && w.directionSwitch && w.x == -k && w.y < k)
  }

  /** The direction (dx, dy) is one of the four unit axis vectors. */
  predicate UnitAxis(dx: int, dy: int) {
    (dx == 0 && (dy == 1 || dy == -1)) || (dy == 0 && (dx == 1 || dx == -1))
  }

  /** What one iteration does from a walker v on track: it stays on track,
      heads along a unit axis vector, steps by that vector, never moves inward
      and advances the spiral index by exactly one. */
  predicate StepsWell(w: Walker, v: Walker) {
    && OnTrack(v)
    && UnitAxis(w.dx, w.dy) && UnitAxis(v.dx, v.dy)
    && v.x == w.x + v.dx && v.y == w.y + v.dy
    && Ring(Pos(w)) <= Ring(Pos(v)) <= Ring(Pos(w)) + 1
    && SpiralIndex(Pos(v)) == SpiralIndex(Pos(w)) + 1
  }

  lemma AdvanceFromCentre(w: Walker)
    requires OnTrack(w) && Ring(Pos(w)) == 0
    ensures StepsWell(w, Advance(w))
  {
    assert w == Start && Turns(w);
    var v := Walker(1, 0, 1, 0, false);
    assert Advance(w) == v;
    assert Ring(Pos(v)) == 1;
    assert SpiralIndex(Pos(v)) == 1;
    assert OnTrack(v);
  }

  /** Heading right: either entering ring k at (k, 1-k), where the walk turns
      up, or on the side y = -k, where it runs on into ring k+1 at its end. */
  lemma AdvanceRight(w: Walker, k: int)
    requires OnTrack(w) && k == Ring(Pos(w)) && k > 0 && w.dx == 1 && w.dy == 0
    ensures StepsWell(w, Advance(w))
  {
    if w.y == -k {
      AdvanceAlongBottom(w, k);
    } else {
      assert Advance(w) == Walker(k, 2 - k, 0, 1, true);
    }
  }

  /** On the side y = -k heading right: the next cell of the side, or the
      first cell of ring k+1 after (k, -k). */
  lemma AdvanceAlongBottom(w: Walker, k: int)
    requires k > 0 && w.y == -k && -k < w.x <= k && w.dx == 1 && w.dy == 0 && !w.directionSwitch
    ensures StepsWell(w, Advance(w))
  {
    if w.x == k {
      assert Advance(w) == Walker(k + 1, -k, 1, 0, false);
    } else {
      assert Advance(w) == Walker(w.x + 1, -k, 1, 0, false);
    }
  }

  /** Heading up the side x = k, turning left at (k, k). */
  lemma AdvanceUp(w: Walker, k: int)
    requires OnTrack(w) && k == Ring(Pos(w)) && k > 0 && w.dx == 0 && w.dy == 1
    ensures StepsWell(w, Advance(w))
  {
    if w.y == k {
      assert Advance(w) == Walker(k - 1, k, -1, 0, true);
    } else {
      assert Advance(w) == Walker(k, w.y + 1, 0, 1, true);
    }
  }

  /** Heading left along the side y = k, turning down at (-k, k). */
  lemma AdvanceLeft(w: Walker, k: int)
    requires OnTrack(w) && k == Ring(Pos(w)) && k > 0 && w.dx == -1 && w.dy == 0
    ensures StepsWell(w, Advance(w))
  {
    if w.x == -k {
      assert Advance(w) == Walker(-k, k - 1, 0, -1, true);
    } else {
      assert Advance(w) == Walker(w.x - 1, k, -1, 0, true);
    }
  }

  /** Heading down the side x = -k, turning right at (-k, -k). */
  lemma AdvanceDown(w: Walker, k: int)
    requires OnTrack(w) && k == Ring(Pos(w)) && k > 0 && w.dx == 0 && w.dy == -1
    ensures StepsWell(w, Advance(w))
  {
    if w.y == -k {
      assert Advance(w) == Walker(1 - k, -k, 1, 0, false);
    } else {
      assert Advance(w) == Walker(-k, w.y - 1, 0, -1, true);
    }
  }

  /** One iteration from a walker on track steps well. */
  lemma AdvanceOnTrack(w: Walker)
    requires OnTrack(w)
    ensures StepsWell(w, Advance(w))
  {
    var k := Ring(Pos(w));
    if k == 0 {
      AdvanceFromCentre(w);
    } else if w.dx == 1 {
      AdvanceRight(w, k);
    } else if w.dy == 1 {
      AdvanceUp(w, k);
    } else if w.dx == -1 {
      AdvanceLeft(w, k);
    } else {
      AdvanceDown(w, k);
    }
  }

  /** Before iteration n the walk is on track and at the cell whose spiral
      index is n. */
  lemma {:induction false} WalkerAtOnTrack(n: nat)
    ensures OnTrack(WalkerAt(n))
    ensures SpiralIndex(CellAt(n)) == n
  {
    if n > 0 {
      WalkerAtOnTrack(n - 1);
      AdvanceOnTrack(WalkerAt(n - 1));
    }
  }

  /** The direction is always a unit axis vector, and each iteration moves
      the walk to a 4-neighbour of the cell it examined. */
  lemma StepIsUnit(n: nat)
    ensures UnitAxis(WalkerAt(n).dx, WalkerAt(n).dy)
    ensures Abs(CellAt(n + 1).x - CellAt(n).x) + Abs(CellAt(n + 1).y - CellAt(n).y) == 1
  {
    WalkerAtOnTrack(n);
    AdvanceOnTrack(WalkerAt(n));
  }

  /** The cell at offset o of ring k >= 1: the inverse of SpiralIndex within
      a ring. */
  function RingCell(k: int, o: int): Cell {
    if o < 2 * k then Cell(k, o - k + 1)
    else if o < 4 * k then Cell(3 * k - 1 - o, k)
    else if o < 6 * k then Cell(-k, 5 * k - 1 - o)
    else Cell(o - 7 * k + 1, -k)
  }

  /** A cell is recovered from its ring and its offset within the ring. */
  lemma RingCellInverts(c: Cell)
    requires Ring(c) >= 1
    ensures RingCell(Ring(c), SpiralIndex(c) - RingStart(Ring(c))) == c
  {
  }

  /** Cells with the same spiral index lie on the same ring. */
  lemma SameIndexSameRing(c: Cell, d: Cell)
    requires SpiralIndex(c) == SpiralIndex(d)
    ensures Ring(c) == Ring(d)
  {
    SpiralIndexInRing(c);
    SpiralIndexInRing(d);
    if Ring(c) < Ring(d) {
      RingStartMonotone(Ring(c) + 1, Ring(d));
    } else if Ring(d) < Ring(c) {
      RingStartMonotone(Ring(d) + 1, Ring(c));
    }
  }

  /** Different cells have different spiral indices. */
  lemma SpiralIndexInjective(c: Cell, d: Cell)
    requires SpiralIndex(c) == SpiralIndex(d)
    ensures c == d
  {
    SameIndexSameRing(c, d);
    if Ring(c) >= 1 {
      RingCellInverts(c);
      RingCellInverts(d);
    }
  }

  /** The walk never examines the same cell twice. */
  lemma WalkNeverRevisits(i: nat, j: nat)
    requires i != j
    ensures CellAt(i) != CellAt(j)
  {
    WalkerAtOnTrack(i);
    WalkerAtOnTrack(j);
  }

  /** Every cell of the plane is examined, at the iteration its spiral index
      names. */
  lemma WalkReaches(c: Cell)
    ensures CellAt(SpiralIndex(c)) == c
  {
    WalkerAtOnTrack(SpiralIndex(c));
    SpiralIndexInjective(CellAt(SpiralIndex(c)), c);
  }

  /** Later iterations never examine a cell nearer the centre. */
  lemma {:induction false} WalkIsCentreOut(i: nat, j: nat)
    requires i <= j
    ensures Ring(CellAt(i)) <= Ring(CellAt(j))
  {
    if i < j {
      WalkIsCentreOut(i, j - 1);
      WalkerAtOnTrack(j - 1);
      AdvanceOnTrack(WalkerAt(j - 1));
    }
  }

  // ---------------------------------------------------------------------
  // What the enumeration returns

  /** A cell is returned exactly when it lies in the rectangle and the walk
      reaches it within the first n iterations. */
  lemma {:induction false} KeptMembership(width: nat, height: nat, n: nat, c: Cell)
    ensures c in Kept(width, height, n) <==> InRect(width, height, c) && SpiralIndex(c) < n
  {
    if n > 0 {
      KeptMembership(width, height, n - 1, c);
      WalkerAtOnTrack(n - 1);
      if c == CellAt(n - 1) {
        assert SpiralIndex(c) == n - 1;
      } else if SpiralIndex(c) == n - 1 {
        WalkReaches(c);
      }
    }
  }

  /** Every cell returned lies in the rectangle. */
  lemma KeptInRect(width: nat, height: nat, n: nat)
    ensures forall k | 0 <= k < |Kept(width, height, n)| :: InRect(width, height, Kept(width, height, n)[k])
  {
    forall k | 0 <= k < |Kept(width, height, n)|
      ensures InRect(width, height, Kept(width, height, n)[k])
    {
      KeptMembership(width, height, n, Kept(width, height, n)[k]);
    }
  }

  lemma {:induction false} KeptLength(width: nat, height: nat, n: nat)
    ensures |Kept(width, height, n)| <= n
  {
    if n > 0 {
      KeptLength(width, height, n - 1);
    }
  }

  /** The cells returned are pairwise distinct. */
  lemma {:induction false} KeptDistinct(width: nat, height: nat, n: nat)
    ensures forall a, b | 0 <= a < b < |Kept(width, height, n)| ::
      Kept(width, height, n)[a] != Kept(width, height, n)[b]
  {
    if n > 0 {
      KeptDistinct(width, height, n - 1);
      var prev := Kept(width, height, n - 1);
      if InRect(width, height, CellAt(n - 1)) {
        WalkerAtOnTrack(n - 1);
        KeptMembership(width, height, n - 1, CellAt(n - 1));
        assert CellAt(n - 1) !in prev;
      }
    }
  }

  /** The cells returned never get nearer the centre. */
  lemma {:induction false} KeptCentreOut(width: nat, height: nat, n: nat)
    ensures forall a, b | 0 <= a <= b < |Kept(width, height, n)| ::
      Ring(Kept(width, height, n)[a]) <= Ring(Kept(width, height, n)[b])
  {
    if n > 0 {
      KeptCentreOut(width, height, n - 1);
      var prev := Kept(width, height, n - 1);
      var cur := Kept(width, height, n);
      if InRect(width, height, CellAt(n - 1)) {
        forall a | 0 <= a < |prev|
          ensures Ring(prev[a]) <= Ring(CellAt(n - 1))
        {
          KeptMembership(width, height, n - 1, prev[a]);
          WalkReaches(prev[a]);
          WalkIsCentreOut(SpiralIndex(prev[a]), n - 1);
        }
        assert cur == prev + [CellAt(n - 1)];
      }
    }
  }

  /** When the rectangle holds the centre, the centre comes first. */
  lemma {:induction false} KeptStartsAtCentre(width: nat, height: nat, n: nat)
    requires width >= 1 && height >= 1 && n >= 1
    ensures |Kept(width, height, n)| >= 1 && Kept(width, height, n)[0] == Cell(0, 0)
  {
    if n > 1 {
      KeptStartsAtCentre(width, height, n - 1);
    } else {
      assert CellAt(0) == Cell(0, 0);
    }
  }

  /** The properties of spiral(width, height) together: its cells lie in the
      rectangle, are exactly the rectangle's cells with spiral index below
      width*height, are distinct, come in centre-out order, number at most
      width*height, and begin with (0,0) whenever the rectangle is not empty. */
  lemma SpiralCellsProperties(width: nat, height: nat)
    ensures forall c :: c in SpiralCells(width, height) <==>
      InRect(width, height, c) && SpiralIndex(c) < width * height
    ensures |SpiralCells(width, height)| <= width * height
    ensures forall a, b | 0 <= a < b < |SpiralCells(width, height)| ::
      SpiralCells(width, height)[a] != SpiralCells(width, height)[b]
    ensures forall a, b | 0 <= a <= b < |SpiralCells(width, height)| ::
      Ring(SpiralCells(width, height)[a]) <= Ring(SpiralCells(width, height)[b])
    ensures width >= 1 && height >= 1 ==>
      |SpiralCells(width, height)| >= 1 && SpiralCells(width, height)[0] == Cell(0, 0)
  {
    forall c
      ensures c in SpiralCells(width, height) <==> InRect(width, height, c) && SpiralIndex(c) < width * height
    {
      KeptMembership(width, height, width * height, c);
    }
    KeptLength(width, height, width * height);
    KeptDistinct(width, height, width * height);
    KeptCentreOut(width, height, width * height);
    if width >= 1 && height >= 1 {
      KeptStartsAtCentre(width, height, width * height);
    }
  }

  /** Every cell within ring m is reached in the first (2m+1)^2 iterations. */
  lemma IndexWithinOddSquare(c: Cell, m: nat)
    requires Ring(c) <= m
    ensures SpiralIndex(c) < (2 * m + 1) * (2 * m + 1)
  {
    SpiralIndexInRing(c);
    RingStartMonotone(Ring(c) + 1, m + 1);
    RingStartIsSquare(m + 1);
  }

  /** Every cell of the half-open square (-m, m] x (-m, m] is reached in the
      first (2m)^2 iterations: of ring m it needs only the sides x = m and
      y = m, which the walk takes first. */
  lemma IndexWithinEvenSquare(c: Cell, m: nat)
    requires m >= 1 && -(m as int) < c.x <= m && -(m as int) < c.y <= m
    ensures SpiralIndex(c) < (2 * m) * (2 * m)
  {
    RingStartIsSquare(m);
    assert (2 * m - 1) * (2 * m - 1) + 4 * m - 1 == (2 * m) * (2 * m);
    if Ring(c) < m {
      SpiralIndexInRing(c);
      RingStartMonotone(Ring(c) + 1, m);
    } else {
      assert SpiralIndex(c) < RingStart(m) + 4 * m - 1;
    }
  }

  /** A square n x n request is covered completely. */
  lemma SquareIsCovered(n: nat, c: Cell)
    requires InRect(n, n, c)
    ensures c in SpiralCells(n, n)
  {
    var m := n / 2;
    var side := if n % 2 == 1 then 2 * m + 1 else 2 * m;
    assert side == n;
    if n % 2 == 1 {
      IndexWithinOddSquare(c, m);
    } else {
      IndexWithinEvenSquare(c, m);
    }
    assert SpiralIndex(c) < side * side;
    KeptMembership(n, n, n * n, c);
  }

  /** Ring m >= 2 is entered no earlier than iteration 4m. */
  lemma {:induction false} RingStartAtLeast(m: nat)
    requires m >= 2
    ensures RingStart(m) >= 4 * m
  {
    if m > 2 {
      RingStartAtLeast(m - 1);
    }
  }

  /** The enumeration does not cover every rectangle: for height 2 and an
      even width 2m with m >= 2, the walk stops after 4m iterations, before it
      reaches ring m, so the in-rectangle cell (m, 0) is never returned. */
  lemma WideRectangleMissesCell(m: nat)
    requires m >= 2
    ensures InRect(2 * m, 2, Cell(m, 0)) && Cell(m, 0) !in SpiralCells(2 * m, 2)
  {
    var c := Cell(m, 0);
    assert Ring(c) == m;
    SpiralIndexInRing(c);
    RingStartAtLeast(m);
    KeptMembership(2 * m, 2, 2 * m * 2, c);
  }
}
