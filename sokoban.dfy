// The Sokoban mini-game of the kernel shell (kernel/main.c, box_map,
// box_move and check): an 8x8 map of cell codes that one key press
// rewrites in place.

module Sokoban {

  datatype Option<T> = None | Some(value: T)

  /** box_map as a value: eight rows of eight cell codes. */
  type Grid = seq<seq<int>>

  predicate IsGrid(g: Grid) {
    |g| == 8 && forall i :: 0 <= i < 8 ==> |g[i]| == 8
  }

  // Cell codes: 0 floor, 1 wall, 2 man, 3 box, 4 box terminal (target),
  // 6 man on a target, 7 box on a target. A man adds 2 to the floor code
  // beneath him and a box adds 3, which is what box_move's arithmetic uses.

  predicate IsCode(c: int) {
    c == 0 || c == 1 || c == 2 || c == 3 || c == 4 || c == 6 || c == 7
  }

  predicate IsMan(c: int) { c == 2 || c == 6 }

  predicate IsBox(c: int) { c == 3 || c == 7 }

  /** The cells box_move lets a man or a box enter: floor or a bare target. */
  predicate IsOpen(c: int) { c == 0 || c == 4 }

  predicate OnTarget(c: int) { c == 4 || c == 6 || c == 7 }

  /** The initial contents of box_map. */
  const InitialMap: Grid := [
    [1, 1, 1, 1, 1, 1, 1, 1],
    [1, 0, 0, 0, 1, 0, 0, 1],
    [1, 0, 1, 0, 1, 3, 4, 1],
    [1, 0, 0, 0, 0, 3, 4, 1],
    [1, 0, 1, 0, 1, 3, 4, 1],
    [1, 0, 0, 0, 1, 0, 0, 1],
    [1, 1, 1, 1, 1, 2, 0, 1],
    [0, 0, 0, 0, 1, 1, 1, 1]
  ]

  datatype Pos = Pos(row: int, col: int)

  predicate Inside(p: Pos) {
    0 <= p.row < 8 && 0 <= p.col < 8
  }

  predicate OnEdge(p: Pos) {
    p.row == 0 || p.row == 7 || p.col == 0 || p.col == 7
  }

  predicate Adjacent(p: Pos, q: Pos) {
    (p.row == q.row && (p.col == q.col + 1 || q.col == p.col + 1))
    || (p.col == q.col && (p.row == q.row + 1 || q.row == p.row + 1))
  }

  function At(g: Grid, p: Pos): int
    requires IsGrid(g) && Inside(p)
  {
    g[p.row][p.col]
  }

  /** The four moves; up decreases the row index x, left the column index y. */
  datatype Dir = Up | Down | Left | Right

  function Ahead(p: Pos, d: Dir): (q: Pos)
    ensures Adjacent(p, q)
  {
    match d
    case Up => Pos(p.row - 1, p.col)
    case Down => Pos(p.row + 1, p.col)
    case Left => Pos(p.row, p.col - 1)
    case Right => Pos(p.row, p.col + 1)
  }

  /** The keys box_move dispatches on: w, W or scan code 72 ('H') moves up;
      s, S or 80 ('P') down; a, A or 75 ('K') left; d, D or 77 ('M') right. */
  function KeyDir(op: char): (r: Option<Dir>)
    ensures r == Some(Up) <==> op in {'w', 'W', 'H'}
    ensures r == Some(Down) <==> op in {'s', 'S', 'P'}
    ensures r == Some(Left) <==> op in {'a', 'A', 'K'}
    ensures r == Some(Right) <==> op in {'d', 'D', 'M'}
  {
    if op == 'w' || op == 'W' || op == 72 as char then Some(Up)
    else if op == 's' || op == 'S' || op == 80 as char then Some(Down)
    else if op == 'a' || op == 'A' || op == 75 as char then Some(Left)
    else if op == 'd' || op == 'D' || op == 77 as char then Some(Right)
    else None
  }

  // ---------------------------------------------------------------------
  // Where the man is: box_move scans the map in row-major order and keeps
  // the last cell holding a man.

  /** Cell q comes before row i, column j in row-major order. */
  predicate Before(q: Pos, i: int, j: int) {
    q.row < i || (q.row == i && q.col < j)
  }

  /** The last man among the cells before row i, column j. */
  function LastManIn(g: Grid, i: nat, j: nat): (r: Option<Pos>)
    requires IsGrid(g) && i <= 8 && j <= 8 && (i == 8 ==> j == 0)
    ensures r.Some? ==> Inside(r.value) && Before(r.value, i, j) && IsMan(At(g, r.value))
    decreases i, j
  {
    if j == 0 then
      if i == 0 then None else LastManIn(g, i - 1, 8)
    else if IsMan(g[i][j - 1]) then Some(Pos(i, j - 1))
    else LastManIn(g, i, j - 1)
  }

  function LastMan(g: Grid): Option<Pos>
    requires IsGrid(g)
  {
    LastManIn(g, 8, 0)
  }

  /** The scan's result is a man with no man after it in the scanned
      prefix; no result means the prefix holds no man. */
  lemma {:induction false} LastManSpec(g: Grid, i: nat, j: nat)
    requires IsGrid(g) && i <= 8 && j <= 8 && (i == 8 ==> j == 0)
    ensures LastManIn(g, i, j).None? ==>
              forall q :: Inside(q) && Before(q, i, j) ==> !IsMan(At(g, q))
    ensures LastManIn(g, i, j).Some? ==>
              var p := LastManIn(g, i, j).value;
              && Inside(p) && Before(p, i, j) && IsMan(At(g, p))
              && forall q :: Inside(q) && Before(q, i, j) && Before(p, q.row, q.col) ==> !IsMan(At(g, q))
    decreases i, j
  {
    if j == 0 {
      if i > 0 {
        LastManSpec(g, i - 1, 8);
      }
    } else if !IsMan(g[i][j - 1]) {
      LastManSpec(g, i, j - 1);
    }
  }

  /** A man anywhere in the map is found by the scan. */
  lemma ManFound(g: Grid, q: Pos)
    requires IsGrid(g) && Inside(q) && IsMan(At(g, q))
    ensures LastMan(g).Some?
  {
    LastManSpec(g, 8, 0);
  }

  // ---------------------------------------------------------------------
  // One move.

  /** The map stays inside its bounds for a move from p towards d: the cell
      ahead exists, and so does the one beyond it when a box is ahead. */
  predicate StepOk(g: Grid, p: Pos, d: Dir) {
    && IsGrid(g) && Inside(p) && Inside(Ahead(p, d))
    && (IsBox(At(g, Ahead(p, d))) ==> Inside(Ahead(Ahead(p, d), d)))
  }

  /** The code box_move leaves in cell q after a move of the man at p
      towards d: into an open cell the man walks (-2 here, +2 there);
      into a box with an open cell beyond it he pushes (-2, -1, +3);
      otherwise nothing changes. */
  function NewCode(g: Grid, p: Pos, d: Dir, q: Pos): (c: int)
    requires StepOk(g, p, d) && Inside(q)
    ensures q != p && q != Ahead(p, d) && q != Ahead(Ahead(p, d), d) ==> c == At(g, q)
    ensures q == p ==> c == At(g, p) || c == At(g, p) - 2
  {
    var a := Ahead(p, d);
    if IsOpen(At(g, a)) then
      if q == p then At(g, p) - 2
      else if q == a then At(g, a) + 2
      else At(g, q)
    else if IsBox(At(g, a)) && IsOpen(At(g, Ahead(a, d))) then
      if q == p then At(g, p) - 2
      else if q == a then At(g, a) - 1
      else if q == Ahead(a, d) then At(g, Ahead(a, d)) + 3
      else At(g, q)
    else At(g, q)
  }

  function Step(g: Grid, p: Pos, d: Dir): (h: Grid)
    requires StepOk(g, p, d)
    ensures IsGrid(h)
    ensures forall q :: Inside(q) ==> At(h, q) == NewCode(g, p, d, q)
  {
    seq(8, i requires 0 <= i < 8 =>
      seq(8, j requires 0 <= j < 8 => NewCode(g, p, d, Pos(i, j))))
  }

  // ---------------------------------------------------------------------
  // The same move, stated on the layers a cell code encodes: the floor
  // (wall, target or plain) and who stands on it.

  datatype Occupant = Nobody | Worker | Crate

  function OccupantOf(c: int): Occupant {
    if IsMan(c) then Worker else if IsBox(c) then Crate else Nobody
  }

  /** A cell someone can enter: no wall, nobody on it. */
  predicate Free(c: int) {
    c != 1 && OccupantOf(c) == Nobody
  }

  /** Who stands on q after the man at p tries to move towards d: he
      walks into a free cell, or pushes a box ahead of him into a free
      cell beyond it; in every other case nobody moves. */
  function Occupied(g: Grid, p: Pos, d: Dir, q: Pos): Occupant
    requires StepOk(g, p, d) && Inside(q)
  {
    var a := Ahead(p, d);
    var b := Ahead(a, d);
    if Free(At(g, a)) then
      if q == p then Nobody
      else if q == a then Worker
      else OccupantOf(At(g, q))
    else if OccupantOf(At(g, a)) == Crate && Inside(b) && Free(At(g, b)) then
      if q == p then Nobody
      else if q == a then Worker
      else if q == b then Crate
      else OccupantOf(At(g, q))
    else OccupantOf(At(g, q))
  }

  ghost predicate AllCodes(g: Grid)
    requires IsGrid(g)
  {
    forall q :: Inside(q) ==> IsCode(At(g, q))
  }

  /** The cell arithmetic of box_move is the layered move: every cell keeps
      a valid code, its wall and its target, and the occupants move as
      Occupied says. */
  lemma StepMovesOccupants(g: Grid, p: Pos, d: Dir)
    requires StepOk(g, p, d) && AllCodes(g) && IsMan(At(g, p))
    ensures forall q :: Inside(q) ==>
              var c, c' := At(g, q), At(Step(g, p, d), q);
              && IsCode(c')
              && (c' == 1 <==> c == 1)
              && (OnTarget(c') <==> OnTarget(c))
              && OccupantOf(c') == Occupied(g, p, d, q)
  {
    forall q | Inside(q) {
      CellMoves(g, p, d, q);
    }
  }

  /** StepMovesOccupants at one cell. */
  lemma CellMoves(g: Grid, p: Pos, d: Dir, q: Pos)
    requires StepOk(g, p, d) && AllCodes(g) && IsMan(At(g, p)) && Inside(q)
    ensures var c, c' := At(g, q), NewCode(g, p, d, q);
            && IsCode(c')
            && (c' == 1 <==> c == 1)
            && (OnTarget(c') <==> OnTarget(c))
            && OccupantOf(c') == Occupied(g, p, d, q)
  {
    var a := Ahead(p, d);
    assert IsCode(At(g, a)) && IsCode(At(g, q));
    if !IsOpen(At(g, a)) && IsBox(At(g, a)) {
      assert IsCode(At(g, Ahead(a, d)));
    }
  }

  // ---------------------------------------------------------------------
  // The maps box_move can be given.

  /** Every edge cell next to a non-wall inner cell is a wall, so nothing
      that moves inside can reach the edge. */
  ghost predicate Sealed(g: Grid)
    requires IsGrid(g)
  {
    forall p, q ::
      (Inside(p) && Inside(q) && !OnEdge(p) && OnEdge(q) && Adjacent(p, q) && At(g, p) != 1)
      ==> At(g, q) == 1
  }

  /** A map box_move can work on: valid codes, a man, no man and no box on
      the edge, and a sealed edge. The source indexes box_map without bounds
      checks; these are the facts that keep every index in range. */
  ghost predicate Playable(g: Grid) {
    && IsGrid(g)
    && AllCodes(g)
    && (forall q :: Inside(q) && OnEdge(q) ==> !IsMan(At(g, q)) && !IsBox(At(g, q)))
    && Sealed(g)
    && LastMan(g).Some?
  }

  /** On a playable map the move of the man found by the scan stays in
      bounds. */
  lemma PlayableStepOk(g: Grid, d: Dir)
    requires Playable(g)
    ensures StepOk(g, LastMan(g).value, d)
  {
    LastManSpec(g, 8, 0);
  }

  /** A move keeps the map playable. */
  lemma StepKeepsPlayable(g: Grid, p: Pos, d: Dir)
    requires Playable(g) && StepOk(g, p, d) && IsMan(At(g, p))
    ensures Playable(Step(g, p, d))
  {
    var h := Step(g, p, d);
    StepMovesOccupants(g, p, d);
    var a := Ahead(p, d);
    forall q | Inside(q) && OnEdge(q)
      ensures !IsMan(At(h, q)) && !IsBox(At(h, q))
    {
      assert OccupantOf(At(g, q)) == Nobody || !OnEdge(q);
    }
    forall r, q | Inside(r) && Inside(q) && !OnEdge(r) && OnEdge(q) && Adjacent(r, q) && At(h, r) != 1
      ensures At(h, q) == 1
    {
      assert At(g, r) != 1;
    }
    if IsMan(At(h, a)) {
      ManFound(h, a);
    } else {
      ManFound(h, p);
    }
  }

  /** One key press on the map: a move key moves the man the scan finds;
      every other key leaves the map alone. */
  function Turn(g: Grid, op: char): (h: Grid)
    requires Playable(g)
    ensures Playable(h)
  {
    match KeyDir(op)
    case None => g
    case Some(d) =>
      PlayableStepOk(g, d);
      LastManSpec(g, 8, 0);
      StepKeepsPlayable(g, LastMan(g).value, d);
      Step(g, LastMan(g).value, d)
  }

  // ---------------------------------------------------------------------
  // The win test.

  /** The number of cells holding 3 (a box off its target) before row i,
      column j in row-major order. */
  function LooseIn(g: Grid, i: nat, j: nat): nat
    requires IsGrid(g) && i <= 8 && j <= 8 && (i == 8 ==> j == 0)
    decreases i, j
  {
    if j == 0 then
      if i == 0 then 0 else LooseIn(g, i - 1, 8)
    else LooseIn(g, i, j - 1) + (if g[i][j - 1] == 3 then 1 else 0)
  }

  lemma {:induction false} LooseInZero(g: Grid, i: nat, j: nat)
    requires IsGrid(g) && i <= 8 && j <= 8 && (i == 8 ==> j == 0)
    ensures LooseIn(g, i, j) == 0 <==> forall q :: Inside(q) && Before(q, i, j) ==> At(g, q) != 3
    decreases i, j
  {
    if j == 0 {
      if i > 0 {
        LooseInZero(g, i - 1, 8);
      }
    } else {
      LooseInZero(g, i, j - 1);
      assert At(g, Pos(i, j - 1)) == g[i][j - 1];
    }
  }

  /** Every box stands on a target. */
  ghost predicate AllHome(g: Grid)
    requires IsGrid(g)
  {
    forall q :: Inside(q) && IsBox(At(g, q)) ==> OnTarget(At(g, q))
  }

  // ---------------------------------------------------------------------
  // The game state.

  class BoxGame {
    /** box_map. */
    var boxMap: array2<int>
    /** SokobanGame: set when the player leaves with 'j'. */
    var quit: bool
    /** The contents of boxMap. */
    ghost var cells: Grid

    /** boxMap holds the grid g. */
    ghost predicate Shows(g: Grid)
      reads this, boxMap
    {
      && boxMap.Length0 == 8 && boxMap.Length1 == 8
      && IsGrid(g)
      && forall i, j :: 0 <= i < 8 && 0 <= j < 8 ==> boxMap[i, j] == g[i][j]
    }

    ghost predicate Valid()
      reads this, boxMap
    {
      Shows(cells) && Playable(cells)
    }

    constructor ()
      ensures Valid() && cells == InitialMap && !quit
    {
      InitialPlayable();
      boxMap := new int[8, 8]((i, j) requires 0 <= i < 8 && 0 <= j < 8 => InitialMap[i][j]);
      cells := InitialMap;
      quit := false;
    }

    /** box_move's scan for the man: the last cell holding 2 or 6. */
    method FindMan() returns (x: int, y: int)
      requires Valid()
      ensures LastMan(cells) == Some(Pos(x, y))
    {
      x, y := 0, 0;
      ghost var last: Option<Pos> := None;
      for i := 0 to 8
        invariant last == LastManIn(cells, i, 0)
        invariant last.Some? ==> last.value == Pos(x, y)
      {
        for j := 0 to 8
          invariant last == LastManIn(cells, i, j)
          invariant last.Some? ==> last.value == Pos(x, y)
        {
          if boxMap[i, j] == 2 || boxMap[i, j] == 6 {
            x, y := i, j;
            last := Some(Pos(i, j));
          }
        }
      }
    }

    /** The arm of box_move for one direction, from the man at x, y. */
    method Push(x: int, y: int, d: Dir)
      requires Valid() && LastMan(cells) == Some(Pos(x, y))
      modifies boxMap, this`cells
      ensures Valid()
      ensures StepOk(old(cells), Pos(x, y), d) && cells == Step(old(cells), Pos(x, y), d)
    {
      ghost var g := cells;
      var p := Pos(x, y);
      LastManSpec(g, 8, 0);
      PlayableStepOk(g, d);
      ghost var h := Step(g, p, d);
      var a := Ahead(p, d);
      if boxMap[a.row, a.col] == 0 || boxMap[a.row, a.col] == 4 {
        Walk(p, a, g, h);
      } else if boxMap[a.row, a.col] == 3 || boxMap[a.row, a.col] == 7 {
        var b := Ahead(a, d);
        if boxMap[b.row, b.col] == 0 || boxMap[b.row, b.col] == 4 {
          Shove(p, a, b, g, h);
        } else {
          Unmoved(g, h);
        }
      } else {
        Unmoved(g, h);
      }
      cells := h;
      StepKeepsPlayable(g, p, d);
    }

    /** The man walks from p into the open cell a. */
    method Walk(p: Pos, a: Pos, ghost g: Grid, ghost h: Grid)
      requires Shows(g) && Inside(p) && Inside(a) && p != a && IsGrid(h)
      requires forall q :: Inside(q) ==>
                 At(h, q) == if q == p then At(g, p) - 2 else if q == a then At(g, a) + 2 else At(g, q)
      modifies boxMap
      ensures Shows(h)
    {
      boxMap[p.row, p.col] := boxMap[p.row, p.col] - 2;
      boxMap[a.row, a.col] := boxMap[a.row, a.col] + 2;
      forall i, j | 0 <= i < 8 && 0 <= j < 8
        ensures boxMap[i, j] == h[i][j]
      {
        assert At(h, Pos(i, j)) == h[i][j];
      }
    }

    /** The man at p pushes the box at a into the open cell b. */
    method Shove(p: Pos, a: Pos, b: Pos, ghost g: Grid, ghost h: Grid)
      requires Shows(g) && Inside(p) && Inside(a) && Inside(b) && p != a && p != b && a != b && IsGrid(h)
      requires forall q :: Inside(q) ==>
                 At(h, q) == if q == p then At(g, p) - 2 else if q == a then At(g, a) - 1
                             else if q == b then At(g, b) + 3 else At(g, q)
      modifies boxMap
      ensures Shows(h)
    {
      boxMap[p.row, p.col] := boxMap[p.row, p.col] - 2;
      boxMap[a.row, a.col] := boxMap[a.row, a.col] - 1;
      boxMap[b.row, b.col] := boxMap[b.row, b.col] + 3;
      forall i, j | 0 <= i < 8 && 0 <= j < 8
        ensures boxMap[i, j] == h[i][j]
      {
        assert At(h, Pos(i, j)) == h[i][j];
      }
    }

    /** A blocked move: the map stays as it is. */
    lemma Unmoved(g: Grid, h: Grid)
      requires Shows(g) && IsGrid(h) && forall q :: Inside(q) ==> At(h, q) == At(g, q)
      ensures Shows(h)
    {
      forall i, j | 0 <= i < 8 && 0 <= j < 8
        ensures boxMap[i, j] == h[i][j]
      {
        assert At(h, Pos(i, j)) == h[i][j];
      }
    }

    /** box_move: find the man, then act on the key; 'j' ends the game
        (the screen clearing and help text are display only). */
    method BoxMove(op: char)
      requires Valid()
      modifies this, boxMap
      ensures Valid()
      ensures cells == Turn(old(cells), op)
      ensures quit == (old(quit) || op == 'j')
    {
      var x, y := FindMan();
      var key := KeyDir(op);
      if key.Some? {
        Push(x, y, key.value);
      } else if op == 'j' {
        quit := true;
      }
    }

    /** check: counts the cells holding 3 and reports a win when there
        are none, that is when every box is on a target. */
    method Check() returns (won: bool)
      requires Valid()
      ensures won <==> AllHome(cells)
    {
      var k := 0;
      for i := 0 to 8
        invariant k == LooseIn(cells, i, 0)
      {
        for j := 0 to 8
          invariant k == LooseIn(cells, i, j)
        {
          if boxMap[i, j] == 3 {
            k := k + 1;
          }
        }
      }
      LooseInZero(cells, 8, 0);
      won := k == 0;
    }
  }

  /** The initial map is playable, with its man at row 6, column 5. */
  lemma InitialPlayable()
    ensures Playable(InitialMap) && LastMan(InitialMap) == Some(Pos(6, 5))
  {
    var g := InitialMap;
    assert IsGrid(g);
    InitialCodes();
    InitialSealed();
    LastManSpec(g, 8, 0);
    assert IsMan(At(g, Pos(6, 5)));
  }

  lemma InitialCodes()
    ensures IsGrid(InitialMap) && AllCodes(InitialMap)
    ensures forall q :: Inside(q) && OnEdge(q) ==> At(InitialMap, q) == 0 || At(InitialMap, q) == 1
  {
    var g := InitialMap;
    forall q | Inside(q)
      ensures IsCode(At(g, q)) && (OnEdge(q) ==> At(g, q) == 0 || At(g, q) == 1)
    {
      var r := g[q.row];
      assert forall k :: 0 <= k < 8 ==> IsCode(r[k]);
    }
  }

  lemma InitialSealed()
    ensures IsGrid(InitialMap) && Sealed(InitialMap)
  {
    var g := InitialMap;
    forall p, q | Inside(p) && Inside(q) && !OnEdge(p) && OnEdge(q) && Adjacent(p, q) && At(g, p) != 1
      ensures At(g, q) == 1
    {
      if q.row == 7 {
        assert p.row == 6 && g[6] == [1, 1, 1, 1, 1, 2, 0, 1];
      }
    }
  }
}
