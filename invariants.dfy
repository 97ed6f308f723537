/** Every locked block of the server keeps Rules.Inv: the grid shape, records
    on the board, active records inside the grid, terrain that only
    disappears, and the capacity bookkeeping Occupied(sockets) <= clientCount <= 4. */
module Invariants {
  import opened Text
  import opened Board
  import opened Slots
  import opened Rules

  lemma InitialInv()
    ensures Inv(InitialWorld())
  {
    var w := InitialWorld();
    NoneTaken(w.sockets);
    assert forall i :: 0 <= i < MaxClients ==> w.players[i] == Unplaced;
  }

  /** The invariant of a state whose grid is a redraw of g, when g has no new
      terrain and no terrain under any record. */
  lemma RedrawnInv(w: World, g: Grid, w': World)
    requires Inv(w) && WellFormed(w') && IsGrid(g)
    requires w'.grid == Refreshed(g, w'.players)
    requires Shrinks(w.grid, g)
    requires forall i :: 0 <= i < MaxClients ==> !IsTerrain(g[Wrap(w'.players[i].x, Rows)][Wrap(w'.players[i].y, Cols)])
    requires forall i :: 0 <= i < MaxClients && w'.players[i].active ==> InGrid(w'.players[i].x, w'.players[i].y)
    requires Occupied(w'.sockets) <= w'.clientCount <= MaxClients
    ensures Inv(w')
  {
    RefreshShrinks(g, w'.players);
    forall i | 0 <= i < MaxClients
      ensures !IsTerrain(Under(w', i))
    {
      var r, c := Wrap(w'.players[i].x, Rows), Wrap(w'.players[i].y, Cols);
      assert InGrid(r, c);
    }
    forall i | 0 <= i < MaxClients && Live(w'.players[i])
      ensures 'A' <= Under(w', i) <= 'D'
    {
      var r, c := Wrap(w'.players[i].x, Rows), Wrap(w'.players[i].y, Cols);
      RefreshedCell(g, w'.players, r, c);
    }
    forall r, c | InGrid(r, c) && IsTerrain(w'.grid[r][c])
      ensures w'.grid[r][c] == InitialCell(r, c)
    {
      assert w'.grid[r][c] == g[r][c] == w.grid[r][c];
    }
  }

  lemma MovePreservesInv(w: World, p: int, d: Dir, step: int)
    requires Inv(w) && 0 <= p < MaxClients && (step == 1 || step == 2)
    ensures Inv(MoveSpec(w, p, d, step))
  {
    var pl := w.players[p];
    var t := Target(pl, d, step);
    var w' := MoveSpec(w, p, d, step);
    if BoundAsWritten(d, t.0, t.1) && Open(w.grid[Wrap(t.0, Rows)][Wrap(t.1, Cols)]) {
      TargetOnBoard(pl, d, step);
      MovedInv(w, p, t.0, t.1);
    } else {
      forall i | 0 <= i < MaxClients
        ensures !IsTerrain(w.grid[Wrap(w'.players[i].x, Rows)][Wrap(w'.players[i].y, Cols)])
      {
        assert !IsTerrain(Under(w, i));
      }
      RedrawnInv(w, w.grid, w');
    }
  }

  /** A move to an open cell, followed by the redraw, keeps the invariant. */
  lemma MovedInv(w: World, p: int, nx: int, ny: int)
    requires Inv(w) && 0 <= p < MaxClients && -1 <= nx < Rows && -1 <= ny < Cols
    requires w.players[p].active ==> InGrid(nx, ny)
    requires Open(w.grid[Wrap(nx, Rows)][Wrap(ny, Cols)])
    ensures var m := Moved(w, p, nx, ny); Inv(m.(grid := Refreshed(m.grid, m.players)))
  {
    var m := Moved(w, p, nx, ny);
    OthersOffTerrain(w, m.grid, m.players, p);
    RedrawnInv(w, m.grid, m.(grid := Refreshed(m.grid, m.players)));
  }

  /** A destination that passes the bound test is on the board, inside the
      grid when the mover was, and never the mover's own cell. */
  lemma TargetOnBoard(pl: Player, d: Dir, step: int)
    requires OnBoard(pl) && (step == 1 || step == 2)
    requires BoundAsWritten(d, Target(pl, d, step).0, Target(pl, d, step).1)
    ensures var t := Target(pl, d, step);
      -1 <= t.0 < Rows && -1 <= t.1 < Cols
      && (InGrid(pl.x, pl.y) ==> InGrid(t.0, t.1))
      && (Wrap(t.0, Rows) != Wrap(pl.x, Rows) || Wrap(t.1, Cols) != Wrap(pl.y, Cols))
  {
  }

  /** A grid that differs from w's only in cells now holding no terrain, and
      whose cell under record p holds no terrain either, has no terrain under
      any record when the others have not moved. */
  lemma OthersOffTerrain(w: World, g: Grid, ps: seq<Player>, p: int)
    requires Inv(w) && IsGrid(g) && |ps| == MaxClients && Seated(ps) && 0 <= p < MaxClients
    requires forall i :: 0 <= i < MaxClients && i != p ==> ps[i] == w.players[i]
    requires forall r, c :: InGrid(r, c) ==> g[r][c] == w.grid[r][c] || !IsTerrain(g[r][c])
    requires !IsTerrain(g[Wrap(ps[p].x, Rows)][Wrap(ps[p].y, Cols)])
    ensures forall i :: 0 <= i < MaxClients ==> !IsTerrain(g[Wrap(ps[i].x, Rows)][Wrap(ps[i].y, Cols)])
  {
    forall i | 0 <= i < MaxClients && i != p
      ensures !IsTerrain(g[Wrap(ps[i].x, Rows)][Wrap(ps[i].y, Cols)])
    {
      assert !IsTerrain(Under(w, i));
    }
  }

  /** The ATTACK loop lowers clientCount exactly when it empties a taken
      slot, and never fills one. */
  lemma {:induction false} AttackSweepCount(w: World, p: int, n: nat)
    requires WellFormed(w) && 0 <= p < MaxClients && n <= MaxClients
    ensures var a := AttackUpTo(w, p, n);
      Occupied(w.sockets) - Occupied(a.sockets) == w.clientCount - a.clientCount
      && Occupied(a.sockets) <= Occupied(w.sockets)
      && (forall i :: 0 <= i < MaxClients && a.sockets[i] ==> w.sockets[i])
    decreases n
  {
    if n > 0 {
      AttackSweepCount(w, p, n - 1);
      var a := AttackUpTo(w, p, n - 1);
      if !a.raised && Live(a.players[n - 1]) && a.sockets[n - 1] {
        OccupiedUpdate(a.sockets, n - 1, false);
      }
    }
  }

  /** The ATTACK loop only lowers health and only deactivates. */
  lemma {:induction false} AttackSweepLive(w: World, p: int, n: nat)
    requires WellFormed(w) && 0 <= p < MaxClients && n <= MaxClients
    ensures var a := AttackUpTo(w, p, n);
      (forall j :: 0 <= j < MaxClients && a.players[j].active ==> w.players[j].active)
      && (forall j :: 0 <= j < MaxClients && Live(a.players[j]) ==> Live(w.players[j]))
    decreases n
  {
    if n > 0 {
      AttackSweepLive(w, p, n - 1);
    }
  }

  lemma AttackPreservesInv(w: World, p: int)
    requires Inv(w) && 0 <= p < MaxClients
    ensures Inv(AttackSpec(w, p).0)
  {
    var a := AttackUpTo(w, p, MaxClients);
    AttackSweepCount(w, p, MaxClients);
    AttackSweepLive(w, p, MaxClients);
    AttackKeepsPlaces(w, p, MaxClients);
    var w' := AttackSpec(w, p).0;
    assert forall i :: 0 <= i < MaxClients ==> w'.players[i].x == w.players[i].x && w'.players[i].y == w.players[i].y;
    forall i | 0 <= i < MaxClients
      ensures !IsTerrain(w.grid[Wrap(w'.players[i].x, Rows)][Wrap(w'.players[i].y, Cols)])
    {
      assert !IsTerrain(Under(w, i));
    }
    if a.raised {
      assert forall i :: 0 <= i < MaxClients ==> Under(w', i) == Under(w, i);
      assert forall i :: 0 <= i < MaxClients && Live(w'.players[i]) ==> Live(w.players[i]);
    } else {
      RedrawnInv(w, w.grid, w');
    }
  }

  /** Taking record p off the board at (-1,-1), clearing its old cell and
      redrawing keeps the invariant under any slot table that clientCount
      still covers: (-1,-1) reads cell (4,4), which never holds terrain. */
  lemma VacatedInv(w: World, p: int, count: int, sockets: seq<bool>)
    requires Inv(w) && 0 <= p < MaxClients
    requires |sockets| == MaxClients && Occupied(sockets) <= count <= MaxClients
    ensures var pl := w.players[p];
      var ps := w.players[p := Player(-1, -1, pl.hp, false)];
      var g1 := SetCell(w.grid, Wrap(pl.x, Rows), Wrap(pl.y, Cols), Empty);
      Inv(World(Refreshed(g1, ps), ps, count, sockets))
  {
    var pl := w.players[p];
    var ps := w.players[p := Player(-1, -1, pl.hp, false)];
    var g1 := SetCell(w.grid, Wrap(pl.x, Rows), Wrap(pl.y, Cols), Empty);
    forall i | 0 <= i < MaxClients
      ensures !IsTerrain(g1[Wrap(ps[i].x, Rows)][Wrap(ps[i].y, Cols)])
    {
      if i != p {
        assert !IsTerrain(Under(w, i));
      } else {
        assert w.grid[4][4] == InitialCell(4, 4) || !IsTerrain(w.grid[4][4]);
      }
    }
    RedrawnInv(w, g1, World(Refreshed(g1, ps), ps, count, sockets));
  }

  lemma QuitPreservesInv(w: World, p: int)
    requires Inv(w) && 0 <= p < MaxClients
    ensures Inv(QuitSpec(w, p).0)
  {
    if w.sockets[p] {
      OccupiedUpdate(w.sockets, p, false);
      VacatedInv(w, p, w.clientCount - 1, w.sockets[p := false]);
    } else {
      VacatedInv(w, p, w.clientCount, w.sockets);
    }
  }

  lemma SayPreservesInv(w: World, p: int, cmd: string)
    requires Inv(w) && 0 <= p < MaxClients
    ensures Inv(SaySpec(w, p, cmd).0)
  {
    var w' := SaySpec(w, p, cmd).0;
    forall i | 0 <= i < MaxClients
      ensures !IsTerrain(w.grid[Wrap(w'.players[i].x, Rows)][Wrap(w'.players[i].y, Cols)])
    {
      assert !IsTerrain(Under(w, i));
    }
    RedrawnInv(w, w.grid, w');
  }

  /** The invariant holds after every command, whatever its text. */
  lemma HandlePreservesInv(w: World, p: int, cmd: string)
    requires Inv(w) && 0 <= p < MaxClients
    ensures Inv(Handle(w, p, cmd).0)
  {
    if StartsWith(cmd, "MOVE") {
      match ParseDir(cmd)
      case Some(d) => MovePreservesInv(w, p, d, 1);
      case None =>
    } else if StartsWith(cmd, "ATTACK") {
      AttackPreservesInv(w, p);
    } else if StartsWith(cmd, "QUIT") {
      QuitPreservesInv(w, p);
    } else if StartsWith(cmd, "JUMP") {
      match ParseDir(cmd)
      case Some(d) => MovePreservesInv(w, p, d, 2);
      case None =>
    } else if StartsWith(cmd, "SAY") {
      SayPreservesInv(w, p, cmd);
    }
  }

  lemma ReservePreservesInv(w: World)
    requires Inv(w)
    ensures Inv(ReserveSpec(w).0)
  {
    if w.clientCount < MaxClients {
      var i := LowestFree(w.sockets);
      OccupiedUpdate(w.sockets, i, true);
      assert forall j :: 0 <= j < MaxClients ==> Under(ReserveSpec(w).0, j) == Under(w, j);
    }
  }

  lemma JoinPreservesInv(w: World, p: int)
    requires Inv(w) && 0 <= p < MaxClients
    ensures Inv(JoinSpec(w, p).0)
  {
    var w' := JoinSpec(w, p).0;
    forall i | 0 <= i < MaxClients
      ensures !IsTerrain(w.grid[Wrap(w'.players[i].x, Rows)][Wrap(w'.players[i].y, Cols)])
    {
      if i != p {
        assert !IsTerrain(Under(w, i));
      } else {
        assert InGrid(p, 0);
      }
    }
    RedrawnInv(w, w.grid, w');
  }

  lemma DisconnectPreservesInv(w: World, p: int)
    requires Inv(w) && 0 <= p < MaxClients
    ensures Inv(DisconnectSpec(w, p).0)
  {
    var pl := w.players[p];
    var ps := w.players[p := pl.(active := false)];
    var g1 := SetCell(w.grid, Wrap(pl.x, Rows), Wrap(pl.y, Cols), Empty);
    var w' := DisconnectSpec(w, p).0;
    OccupiedUpdate(w.sockets, p, false);
    forall i | 0 <= i < MaxClients
      ensures !IsTerrain(g1[Wrap(ps[i].x, Rows)][Wrap(ps[i].y, Cols)])
    {
      assert !IsTerrain(Under(w, i));
    }
    RedrawnInv(w, g1, w');
  }

  lemma DropPreservesInv(w: World, i: int)
    requires Inv(w) && 0 <= i < MaxClients
    ensures Inv(DropSpec(w, i))
  {
    OccupiedUpdate(w.sockets, i, false);
    assert forall j :: 0 <= j < MaxClients ==> Under(DropSpec(w, i), j) == Under(w, j);
  }

  lemma {:induction false} BroadcastPreservesInv(w: World, failed: seq<bool>, text: string, n: nat)
    requires Inv(w) && |failed| == MaxClients && n <= MaxClients
    ensures Inv(BroadcastUpTo(w, failed, text, n).0)
    decreases n
  {
    if n > 0 {
      BroadcastPreservesInv(w, failed, text, n - 1);
      var prev := BroadcastUpTo(w, failed, text, n - 1);
      if prev.0.sockets[n - 1] && failed[n - 1] {
        DropPreservesInv(prev.0, n - 1);
      }
    }
  }
}
