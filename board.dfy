/** The 5x5 arena: cell symbols, player records, and the grid redraw that
    `refreshPlayerPositions` performs (server.py:94-110). */
module Board {

  const Rows: int := 5
  const Cols: int := 5
  const MaxClients: int := 4

  const Empty: char := '.'
  const Obstacle: char := '#'
  const Pickup: char := '+'

  /** A player record: row x, column y, health and whether it is in the game. */
  datatype Player = Player(x: int, y: int, hp: int, active: bool)

  /** The grid, indexed grid[row][column] as in the server. */
  type Grid = seq<seq<char>>

  predicate IsGrid(g: Grid)
  {
    |g| == Rows && forall r :: 0 <= r < Rows ==> |g[r]| == Cols
  }

  predicate InGrid(r: int, c: int)
  {
    0 <= r < Rows && 0 <= c < Cols
  }

  /** Python list indexing: an index in -n..-1 counts from the end. */
  function Wrap(k: int, n: int): (i: int)
    requires -n <= k < n
    ensures 0 <= i < n
    ensures k >= 0 ==> i == k
    ensures k < 0 ==> i == k + n
  {
    if k < 0 then k + n else k
  }

  /** The coordinates of a record stay in -1..4: -1 is the "not placed" value. */
  predicate OnBoard(p: Player)
  {
    -1 <= p.x < Rows && -1 <= p.y < Cols
  }

  /** A player that `refreshPlayerPositions` draws. */
  predicate Live(p: Player)
  {
    p.active && p.hp > 0
  }

  /** Up to four records, each on the board: what the grid code may index with. */
  predicate Seated(ps: seq<Player>)
  {
    |ps| <= MaxClients && forall i :: 0 <= i < |ps| ==> OnBoard(ps[i])
  }

  /** The cell that `grid[p.x][p.y]` reaches. */
  predicate At(p: Player, r: int, c: int)
    requires OnBoard(p)
  {
    Wrap(p.x, Rows) == r && Wrap(p.y, Cols) == c
  }

  /** `chr(ord('A') + i)` */
  function Marker(i: int): (ch: char)
    requires 0 <= i < MaxClients
    ensures 'A' <= ch <= 'D'
  {
    ('A' as int + i) as char
  }

  predicate IsTerrain(ch: char)
  {
    ch == Obstacle || ch == Pickup
  }

  /** What the clearing pass of the redraw leaves in a cell. */
  function Terrain(ch: char): (t: char)
    ensures IsTerrain(ch) ==> t == ch
    ensures !IsTerrain(ch) ==> t == Empty
  {
    if ch != Obstacle && ch != Pickup then Empty else ch
  }

  /** `grid[r][c] = ch` */
  function SetCell(g: Grid, r: int, c: int, ch: char): (g': Grid)
    requires IsGrid(g) && InGrid(r, c)
    ensures IsGrid(g')
    ensures g'[r][c] == ch
    ensures forall i, j :: InGrid(i, j) && (i != r || j != c) ==> g'[i][j] == g[i][j]
  {
    g[r := g[r][c := ch]]
  }

  /** Two grids with the same cells are the same grid. */
  lemma GridExt(a: Grid, b: Grid)
    requires IsGrid(a) && IsGrid(b)
    requires forall r, c :: InGrid(r, c) ==> a[r][c] == b[r][c]
    ensures a == b
  {
    forall r | 0 <= r < Rows
      ensures a[r] == b[r]
    {
      assert forall c :: 0 <= c < Cols ==> a[r][c] == b[r][c] by {
        forall c | 0 <= c < Cols ensures a[r][c] == b[r][c] {
          assert InGrid(r, c);
        }
      }
    }
  }

  // ---------------------------------------------------------------------------
  // refreshPlayerPositions, as a function of the grid and the records

  /** The clearing pass: every cell other than '#' and '+' becomes '.'. */
  function Cleared(g: Grid): (h: Grid)
    requires IsGrid(g)
    ensures IsGrid(h)
    ensures forall r, c :: InGrid(r, c) ==> h[r][c] == Terrain(g[r][c])
  {
    seq(Rows, r requires 0 <= r < Rows => seq(Cols, c requires 0 <= c < Cols => Terrain(g[r][c])))
  }

  /** The placing pass over records 0..n-1: each live record writes its letter
      into its cell, later records overwriting earlier ones. */
  function Place(g: Grid, ps: seq<Player>, n: nat): (h: Grid)
    requires IsGrid(g) && Seated(ps) && n <= |ps|
    ensures IsGrid(h)
  {
    if n == 0 then g
    else
      var h := Place(g, ps, n - 1);
      var p := ps[n - 1];
      if Live(p) then SetCell(h, Wrap(p.x, Rows), Wrap(p.y, Cols), Marker(n - 1)) else h
  }

  /** The grid after `refreshPlayerPositions`. */
  function Refreshed(g: Grid, ps: seq<Player>): (h: Grid)
    requires IsGrid(g) && Seated(ps)
    ensures IsGrid(h)
  {
    Place(Cleared(g), ps, |ps|)
  }

  /** The highest index below n of a live record standing on (r,c), or -1. */
  function TopAt(ps: seq<Player>, n: nat, r: int, c: int): (t: int)
    requires Seated(ps) && n <= |ps|
    ensures -1 <= t < n
    ensures t >= 0 ==> Live(ps[t]) && At(ps[t], r, c)
    ensures forall j :: t < j < n ==> !(Live(ps[j]) && At(ps[j], r, c))
  {
    if n == 0 then -1
    else if Live(ps[n - 1]) && At(ps[n - 1], r, c) then n - 1
    else TopAt(ps, n - 1, r, c)
  }

  lemma {:induction false} PlaceCell(g: Grid, ps: seq<Player>, n: nat, r: int, c: int)
    requires IsGrid(g) && Seated(ps) && n <= |ps| && InGrid(r, c)
    ensures var t := TopAt(ps, n, r, c);
      Place(g, ps, n)[r][c] == if t >= 0 then Marker(t) else g[r][c]
    decreases n
  {
    if n > 0 {
      PlaceCell(g, ps, n - 1, r, c);
    }
  }

  /** Cell by cell, the redraw keeps the terrain ('#', '+') of cells no live
      player stands on, empties every other such cell, and writes into each
      cell a live player stands on the letter of the highest-indexed one. */
  lemma RefreshedCell(g: Grid, ps: seq<Player>, r: int, c: int)
    requires IsGrid(g) && Seated(ps) && InGrid(r, c)
    ensures var t := TopAt(ps, |ps|, r, c);
      Refreshed(g, ps)[r][c] == if t >= 0 then Marker(t) else Terrain(g[r][c])
  {
    PlaceCell(Cleared(g), ps, |ps|, r, c);
  }

  /** Redrawing a redrawn grid changes nothing. */
  lemma RefreshIdempotent(g: Grid, ps: seq<Player>)
    requires IsGrid(g) && Seated(ps)
    ensures Refreshed(Refreshed(g, ps), ps) == Refreshed(g, ps)
  {
    var h := Refreshed(g, ps);
    forall r, c | InGrid(r, c)
      ensures Refreshed(h, ps)[r][c] == h[r][c]
    {
      RefreshedCell(g, ps, r, c);
      RefreshedCell(h, ps, r, c);
    }
    GridExt(Refreshed(h, ps), h);
  }

  /** Every '#' or '+' of a grid h is also, unchanged, in g: terrain never appears. */
  ghost predicate Shrinks(g: Grid, h: Grid)
    requires IsGrid(g) && IsGrid(h)
  {
    forall r, c :: InGrid(r, c) && IsTerrain(h[r][c]) ==> h[r][c] == g[r][c]
  }

  /** The redraw never creates terrain. */
  lemma RefreshShrinks(g: Grid, ps: seq<Player>)
    requires IsGrid(g) && Seated(ps)
    ensures Shrinks(g, Refreshed(g, ps))
  {
    forall r, c | InGrid(r, c) && IsTerrain(Refreshed(g, ps)[r][c])
      ensures Refreshed(g, ps)[r][c] == g[r][c]
    {
      RefreshedCell(g, ps, r, c);
    }
  }

  /** Writing a non-terrain symbol into a cell that holds no terrain, just before
      a redraw, has no effect on the redrawn grid. */
  lemma WriteAbsorbed(g: Grid, ps: seq<Player>, r: int, c: int, ch: char)
    requires IsGrid(g) && Seated(ps) && InGrid(r, c)
    requires !IsTerrain(g[r][c]) && !IsTerrain(ch)
    ensures Refreshed(SetCell(g, r, c, ch), ps) == Refreshed(g, ps)
  {
    var g' := SetCell(g, r, c, ch);
    forall i, j | InGrid(i, j)
      ensures Refreshed(g', ps)[i][j] == Refreshed(g, ps)[i][j]
    {
      RefreshedCell(g, ps, i, j);
      RefreshedCell(g', ps, i, j);
    }
    GridExt(Refreshed(g', ps), Refreshed(g, ps));
  }

  /** The redraw only looks at where the terrain is: two grids with the same
      '#' and '+' cells redraw to the same grid. */
  lemma RefreshSameTerrain(g: Grid, h: Grid, ps: seq<Player>)
    requires IsGrid(g) && IsGrid(h) && Seated(ps)
    requires forall r, c :: InGrid(r, c) ==> Terrain(g[r][c]) == Terrain(h[r][c])
    ensures Refreshed(g, ps) == Refreshed(h, ps)
  {
    forall r, c | InGrid(r, c)
      ensures Refreshed(g, ps)[r][c] == Refreshed(h, ps)[r][c]
    {
      RefreshedCell(g, ps, r, c);
      RefreshedCell(h, ps, r, c);
    }
    GridExt(Refreshed(g, ps), Refreshed(h, ps));
  }

  /** After a redraw no cell shows the letter of a record that is not live. */
  lemma RefreshedHides(g: Grid, ps: seq<Player>, i: int, r: int, c: int)
    requires IsGrid(g) && Seated(ps) && 0 <= i < |ps| && !Live(ps[i]) && InGrid(r, c)
    ensures Refreshed(g, ps)[r][c] != Marker(i)
  {
    RefreshedCell(g, ps, r, c);
  }
}
