/** The server's shared state and the code that changes it under the state
    lock: `g_gameState` (grid, players, clientCount) and `g_clientSockets`
    (server.py:45-46) become one object. The grid is updated in place, as the
    server's list of lists is; the record and slot tables are sequences the
    methods reassign. Each method is proved against the matching function of
    Rules, and keeps Rules.Inv. */
module Server {
  import opened Text
  import opened Board
  import opened Slots
  import opened Rules
  import opened Render
  import opened Invariants
  import opened Properties

  class GameState {
    var grid: array2<char>
    var players: seq<Player>
    var clientCount: int
    /** One entry per slot: whether it holds a socket. */
    var clientSockets: seq<bool>

    /** The table sizes the code indexes with. */
    predicate Shaped()
      reads this
    {
      grid.Length0 == Rows && grid.Length1 == Cols
      && |players| == MaxClients && Seated(players) && |clientSockets| == MaxClients
    }

    /** The grid's contents as rows of cells. */
    function Cells(): (g: Grid)
      requires grid.Length0 == Rows && grid.Length1 == Cols
      reads this`grid, grid
      ensures IsGrid(g)
      ensures forall r, c :: InGrid(r, c) ==> g[r][c] == grid[r, c]
    {
      var a := grid;
      seq(Rows, r requires 0 <= r < Rows reads a =>
        seq(Cols, c requires 0 <= c < Cols reads a => a[r, c]))
    }

    ghost function Snapshot(): (w: World)
      requires Shaped()
      reads this, grid
      ensures WellFormed(w)
    {
      World(Cells(), players, clientCount, clientSockets)
    }

    ghost predicate Valid()
      reads this, grid
    {
      Shaped() && Inv(Snapshot())
    }

    /** initGameState (server.py:52-87), with the empty slot table of
        server.py:46. */
    constructor ()
      ensures Valid() && Snapshot() == InitialWorld()
      ensures fresh(grid)
    {
      var g := NewGrid();
      var ps: seq<Player> := [];
      var i := 0;
      while i < MaxClients
        invariant 0 <= i <= MaxClients
        invariant ps == seq(i, _ => Unplaced)
      {
        ps := ps + [Player(-1, -1, StartHp, false)];
        i := i + 1;
      }
      grid := g;
      players := ps;
      clientCount := 0;
      clientSockets := seq(MaxClients, _ => false);
      new;
      GridExt(Cells(), InitialGrid());
      InitialInv();
    }

    /** The grid part of initGameState: all '.', then the obstacles and
        pickups, the pickup at (1,3) replacing the obstacle written there. */
    static method NewGrid() returns (g: array2<char>)
      ensures fresh(g) && g.Length0 == Rows && g.Length1 == Cols
      ensures forall r, c :: InGrid(r, c) ==> g[r, c] == InitialCell(r, c)
    {
      g := new char[Rows, Cols]((r, c) => Empty);
      g[2, 2] := Obstacle;
      g[1, 3] := Obstacle;
      g[3, 1] := Pickup;
      g[0, 4] := Pickup;
      g[1, 3] := Pickup;
      g[2, 3] := Pickup;
    }

    /** `grid[r][c] = ch` */
    method SetGrid(r: int, c: int, ch: char)
      requires grid.Length0 == Rows && grid.Length1 == Cols && InGrid(r, c)
      modifies grid
      ensures Cells() == SetCell(old(Cells()), r, c, ch)
    {
      grid[r, c] := ch;
      GridExt(Cells(), SetCell(old(Cells()), r, c, ch));
    }

    /** refreshPlayerPositions (server.py:94-110): clear every cell but '#'
        and '+', then write each live record's letter into its cell. */
    method RefreshPlayerPositions()
      requires Shaped()
      modifies grid
      ensures Cells() == Refreshed(old(Cells()), players)
    {
      ghost var g0 := Cells();
      var r := 0;
      while r < Rows
        invariant 0 <= r <= Rows
        invariant forall i, j :: InGrid(i, j) ==> grid[i, j] == if i < r then Terrain(g0[i][j]) else g0[i][j]
      {
        var c := 0;
        while c < Cols
          invariant 0 <= c <= Cols
          invariant forall i, j :: InGrid(i, j) ==>
            grid[i, j] == if i < r || (i == r && j < c) then Terrain(g0[i][j]) else g0[i][j]
        {
          if grid[r, c] != Obstacle && grid[r, c] != Pickup {
            grid[r, c] := Empty;
          }
          c := c + 1;
        }
        r := r + 1;
      }
      GridExt(Cells(), Cleared(g0));
      var i := 0;
      while i < |players|
        invariant 0 <= i <= |players|
        invariant Cells() == Place(Cleared(g0), players, i)
      {
        var player := players[i];
        if player.active && player.hp > 0 {
          SetGrid(Wrap(player.x, Rows), Wrap(player.y, Cols), Marker(i));
        }
        i := i + 1;
      }
    }

    /** buildStateString (server.py:116-140). */
    method BuildStateString() returns (s: string)
      requires Shaped()
      ensures s == StateText(Cells(), players)
    {
      var rows := "";
      var r := 0;
      while r < Rows
        invariant 0 <= r <= Rows
        invariant rows == RowsText(Cells(), r)
      {
        var line := RowString(r);
        rows := rows + line + "\n";
        r := r + 1;
      }
      var roster := "";
      var i := 0;
      while i < |players|
        invariant 0 <= i <= |players|
        invariant roster == Roster(players, i)
      {
        if players[i].active {
          roster := roster + PlayerLine(i, players[i]);
        }
        i := i + 1;
      }
      s := Header + rows + RosterHeader + roster;
    }

    /** The cells of row r, left to right. */
    method RowString(r: int) returns (line: string)
      requires grid.Length0 == Rows && grid.Length1 == Cols && 0 <= r < Rows
      ensures line == Cells()[r]
    {
      line := "";
      var c := 0;
      while c < Cols
        invariant 0 <= c <= Cols
        invariant line == Cells()[r][..c]
      {
        line := line + [grid[r, c]];
        c := c + 1;
      }
    }

    /** broadcastState (server.py:147-156): the state text to every taken
        slot; `failed` says which sends fail, and those slots are emptied. */
    method BroadcastState(failed: seq<bool>) returns (sent: seq<Message>)
      requires Shaped() && |failed| == MaxClients
      modifies this`clientSockets
      ensures Shaped()
      ensures (Snapshot(), sent) == BroadcastUpTo(old(Snapshot()), failed, StateText(old(Cells()), old(players)), MaxClients)
    {
      ghost var w0 := Snapshot();
      var text := BuildStateString();
      sent := [];
      var i := 0;
      while i < |clientSockets|
        invariant 0 <= i <= MaxClients && |clientSockets| == MaxClients
        invariant (Snapshot(), sent) == BroadcastUpTo(w0, failed, text, i)
      {
        if clientSockets[i] {
          if failed[i] {
            clientSockets := clientSockets[i := false];
          } else {
            sent := sent + [Message(i, text)];
          }
        }
        i := i + 1;
      }
    }

    /** The reply to an unrecognised command (server.py:249, 387, 413). */
    method Invalid(p: int) returns (e: Effect)
      requires Shaped() && 0 <= p < MaxClients
      ensures e == InvalidSpec(Snapshot(), p).1
    {
      if clientSockets[p] {
        e := Effect([Message(p, InvalidReply)], false, false);
      } else {
        e := Effect([], false, true);
      }
    }

    /** One MOVE or JUMP branch (server.py:174-247, 323-385): the
        destination and the bound test of direction d, then the move when the
        destination is '.' or '+', then the redraw. */
    method Step(p: int, d: Dir, step: int)
      requires Shaped() && 0 <= p < MaxClients && (step == 1 || step == 2)
      modifies this`players, grid
      ensures Shaped()
      ensures Snapshot() == MoveSpec(old(Snapshot()), p, d, step)
    {
      ghost var w0 := Snapshot();
      var nx, ny, inBounds := Destination(players[p], d, step);
      if inBounds && (grid[Wrap(nx, Rows), Wrap(ny, Cols)] == Empty || grid[Wrap(nx, Rows), Wrap(ny, Cols)] == Pickup) {
        assert Open(w0.grid[Wrap(nx, Rows)][Wrap(ny, Cols)]);
        MoveTo(p, nx, ny);
      } else {
        assert inBounds ==> !Open(w0.grid[Wrap(nx, Rows)][Wrap(ny, Cols)]);
      }
      ghost var w1 := Snapshot();
      RefreshPlayerPositions();
      assert Snapshot() == w1.(grid := Refreshed(w1.grid, w1.players));
    }

    /** The destination of a step in direction d and the bound test the
        source writes for that direction. */
    static method Destination(pl: Player, d: Dir, step: int) returns (nx: int, ny: int, inBounds: bool)
      requires OnBoard(pl) && (step == 1 || step == 2)
      ensures (nx, ny) == Target(pl, d, step) && inBounds == BoundAsWritten(d, nx, ny)
      ensures inBounds ==> -1 <= nx < Rows && -1 <= ny < Cols
    {
      match d {
        case Up => nx, ny := pl.x - step, pl.y; inBounds := 0 <= nx < Rows;
        case Down => nx, ny := pl.x + step, pl.y; inBounds := nx < Rows;
        case Left => nx, ny := pl.x, pl.y - step; inBounds := 0 <= ny < Cols;
        case Right => nx, ny := pl.x, pl.y + step; inBounds := ny < Cols;
      }
    }

    /** The body of a move that passed its tests: clear the old cell, take
        the destination, add 5 HP when it held '+', write the letter there. */
    method MoveTo(p: int, nx: int, ny: int)
      requires Shaped() && 0 <= p < MaxClients && -1 <= nx < Rows && -1 <= ny < Cols
      modifies this`players, grid
      ensures Shaped()
      ensures Snapshot() == Moved(old(Snapshot()), p, nx, ny)
    {
      ghost var w0 := Snapshot();
      var pl := players[p];
      var dr, dc := Wrap(nx, Rows), Wrap(ny, Cols);
      SetGrid(Wrap(pl.x, Rows), Wrap(pl.y, Cols), Empty);
      ghost var g1 := Cells();
      assert g1 == SetCell(w0.grid, Wrap(pl.x, Rows), Wrap(pl.y, Cols), Empty);
      var hp := pl.hp;
      if grid[dr, dc] == Pickup {
        hp := hp + PickupBonus;
      }
      assert hp == pl.hp + (if g1[dr][dc] == Pickup then PickupBonus else 0);
      players := players[p := Player(nx, ny, hp, pl.active)];
      SetGrid(dr, dc, Marker(p));
      assert Cells() == SetCell(g1, dr, dc, Marker(p));
    }

    /** MOVE or JUMP: the `"UP" in cmd ... elif "RIGHT" in cmd` chain. */
    method StepCommand(p: int, cmd: string, step: int) returns (e: Effect)
      requires Shaped() && 0 <= p < MaxClients && (step == 1 || step == 2)
      modifies this`players, grid
      ensures Shaped()
      ensures (Snapshot(), e) == Rules.StepCommand(old(Snapshot()), p, cmd, step)
    {
      if Contains(cmd, "UP") {
        Step(p, Up, step);
      } else if Contains(cmd, "DOWN") {
        Step(p, Down, step);
      } else if Contains(cmd, "LEFT") {
        Step(p, Left, step);
      } else if Contains(cmd, "RIGHT") {
        Step(p, Right, step);
      } else {
        e := Invalid(p);
        return;
      }
      e := Effect([], true, false);
    }

    /** ATTACK (server.py:251-290): the sweep over the records, then, unless
        a death notice raised, the redraw. */
    method Attack(p: int) returns (e: Effect)
      requires Shaped() && 0 <= p < MaxClients
      modifies this`players, this`clientSockets, this`clientCount, grid
      ensures Shaped()
      ensures (Snapshot(), e) == AttackSpec(old(Snapshot()), p)
    {
      ghost var w0 := Snapshot();
      var a := AttackSweep(p, players, clientSockets, clientCount, w0);
      AttackKeepsPlaces(w0, p, MaxClients);
      players, clientSockets, clientCount := a.players, a.sockets, a.clientCount;
      if a.raised {
        e := Effect(a.sent, false, true);
        return;
      }
      RefreshPlayerPositions();
      e := Effect(a.sent, true, false);
    }

    /** The loop of server.py:257-286 over the records, the slot table and
        clientCount of w0: 10 HP off each live neighbour of p; a victim left
        with no health is sent the death notice, deactivated, its slot emptied
        and clientCount lowered; a notice to an empty slot raises and ends the
        loop. */
    static method AttackSweep(p: int, players0: seq<Player>, sockets0: seq<bool>, count0: int, ghost w0: World)
      returns (a: Sweep)
      requires WellFormed(w0) && 0 <= p < MaxClients
      requires players0 == w0.players && sockets0 == w0.sockets && count0 == w0.clientCount
      ensures a == AttackUpTo(w0, p, MaxClients)
    {
      var ps, socks, count := players0, sockets0, count0;
      var ogx, ogy := ps[p].x, ps[p].y;
      var sent: seq<Message> := [];
      var i := 0;
      while i < |ps|
        invariant 0 <= i <= MaxClients
        invariant AttackUpTo(w0, p, i) == Sweep(ps, socks, count, sent, false)
      {
        ghost var before := Sweep(ps, socks, count, sent, false);
        var player := ps[i];
        if player.active && player.hp > 0 {
          if player.x == ogx - 1 && player.y == ogy {
            player := player.(hp := player.hp - AttackDamage);
          } else if player.x == ogx + 1 && player.y == ogy {
            player := player.(hp := player.hp - AttackDamage);
          } else if player.x == ogx && player.y == ogy - 1 {
            player := player.(hp := player.hp - AttackDamage);
          } else if player.x == ogx && player.y == ogy + 1 {
            player := player.(hp := player.hp - AttackDamage);
          }
          ps := ps[i := player];
          if player.hp <= 0 {
            if !socks[i] {
              // the death notice goes to an empty slot: the send raises
              a := Sweep(ps, socks, count, sent, true);
              assert a == AttackVisit(before, i, ogx, ogy, p);
              AttackHalts(w0, p, i + 1, MaxClients);
              return;
            }
            sent := sent + [Message(i, DeathNotice(p))];
            ps := ps[i := player.(active := false)];
            socks := socks[i := false];
            count := count - 1;
          }
        }
        assert Sweep(ps, socks, count, sent, false) == AttackVisit(before, i, ogx, ogy, p);
        i := i + 1;
      }
      a := Sweep(ps, socks, count, sent, false);
    }

    /** The messages of a send loop over the slot table: `text` to every taken
        slot other than `skip`, in slot order. */
    static method SendToEach(sockets: seq<bool>, skip: int, text: string) returns (sent: seq<Message>)
      requires |sockets| == MaxClients
      ensures sent == SendAll(Recipients(sockets, skip, MaxClients), text)
    {
      sent := [];
      var i := 0;
      while i < MaxClients
        invariant 0 <= i <= MaxClients
        invariant sent == SendAll(Recipients(sockets, skip, i), text)
      {
        SendStep(sockets, skip, i, text);
        if sockets[i] && i != skip {
          sent := sent + [Message(i, text)];
        }
        i := i + 1;
      }
    }

    /** QUIT (server.py:292-320). */
    method Quit(p: int) returns (e: Effect)
      requires Shaped() && 0 <= p < MaxClients
      modifies this`players, this`clientSockets, this`clientCount, grid
      ensures Shaped()
      ensures (Snapshot(), e) == QuitSpec(old(Snapshot()), p)
    {
      ghost var w0 := Snapshot();
      var sent: seq<Message> := [];
      ghost var g1 := Vacate(p);
      ghost var ps := players;
      if clientSockets[p] {
        sent := SendToEach(clientSockets, -1, QuitNotice(p));
        clientSockets := clientSockets[p := false];
        clientCount := clientCount - 1;
      }
      assert Cells() == g1 && players == ps;
      RefreshPlayerPositions();
      e := Effect(sent, true, false);
    }

    /** The first half of QUIT (server.py:296-301): the record goes off the
        board, inactive, and its old cell is cleared. The returned grid is
        the one the redraw starts from. */
    method Vacate(p: int) returns (ghost g1: Grid)
      requires Shaped() && 0 <= p < MaxClients
      modifies this`players, grid
      ensures Shaped()
      ensures var pl := old(players[p]);
        players == old(players)[p := Player(-1, -1, pl.hp, false)]
        && g1 == Cells() == SetCell(old(Cells()), Wrap(pl.x, Rows), Wrap(pl.y, Cols), Empty)
    {
      var ogx, ogy := players[p].x, players[p].y;
      players := players[p := Player(-1, -1, players[p].hp, false)];
      SetGrid(Wrap(ogx, Rows), Wrap(ogy, Cols), Empty);
      g1 := Cells();
    }

    /** The chat text of SAY: "SAY Player<p>: " and the words after the
        first, glued together (server.py:389-395). */
    static method ChatText(p: int, cmd: string) returns (msg: string)
      ensures msg == ChatLine(p, cmd)
    {
      var words := Split(cmd, ' ');
      var head := "SAY Player" + IntToString(p) + ": ";
      var rest := words[1..];
      msg := head;
      var k := 0;
      while k < |rest|
        invariant 0 <= k <= |rest|
        invariant msg == head + Concat(rest[..k])
      {
        GlueNext(head, rest, k);
        msg := msg + rest[k];
        k := k + 1;
      }
      assert rest[..k] == rest;
    }

    /** SAY (server.py:388-411). */
    method Say(p: int, cmd: string) returns (e: Effect)
      requires Shaped() && 0 <= p < MaxClients
      modifies grid
      ensures (Snapshot(), e) == SaySpec(old(Snapshot()), p, cmd)
    {
      var msg := ChatText(p, cmd);
      var sent := SendToEach(clientSockets, p, msg);
      RefreshPlayerPositions();
      e := Effect(sent, true, false);
    }

    /** handleCommand (server.py:164-413), including the broadcast that ends
        each recognised command; `failed` says which of its sends fail. */
    method HandleCommand(p: int, cmd: string, failed: seq<bool>) returns (e: Effect, delivered: seq<Message>)
      requires Valid() && 0 <= p < MaxClients && |failed| == MaxClients
      modifies this`players, this`clientSockets, this`clientCount, grid
      ensures Valid()
      ensures var r := Handle(old(Snapshot()), p, cmd);
        e == r.1
        && (e.broadcast ==>
              (Snapshot(), delivered) == BroadcastUpTo(r.0, failed, StateText(r.0.grid, r.0.players), MaxClients))
        && (!e.broadcast ==> Snapshot() == r.0 && delivered == [])
    {
      ghost var w0 := Snapshot();
      if StartsWith(cmd, "MOVE") {
        e := StepCommand(p, cmd, 1);
      } else if StartsWith(cmd, "ATTACK") {
        e := Attack(p);
      } else if StartsWith(cmd, "QUIT") {
        e := Quit(p);
      } else if StartsWith(cmd, "JUMP") {
        e := StepCommand(p, cmd, 2);
      } else if StartsWith(cmd, "SAY") {
        e := Say(p, cmd);
      } else {
        e := Invalid(p);
      }
      ghost var w1 := Snapshot();
      assert (w1, e) == Handle(w0, p, cmd);
      HandlePreservesInv(w0, p, cmd);
      delivered := [];
      if e.broadcast {
        delivered := BroadcastState(failed);
        BroadcastPreservesInv(w1, failed, StateText(w1.grid, w1.players), MaxClients);
      }
    }

    /** The accept loop's locked block (server.py:488-504): refuse when
        clientCount has reached 4, otherwise store the client in the lowest
        empty slot and count it. */
    method Reserve() returns (adm: Admission)
      requires Valid()
      modifies this`clientSockets, this`clientCount
      ensures Valid()
      ensures (Snapshot(), adm) == ReserveSpec(old(Snapshot()))
    {
      ghost var w0 := Snapshot();
      if clientCount >= MaxClients {
        return Rejected(FullReply);
      }
      var i := FreeSlot(clientSockets, clientCount);
      clientSockets := clientSockets[i := true];
      clientCount := clientCount + 1;
      ReservePreservesInv(w0);
      adm := Admitted(i);
    }

    /** The slot search of the accept loop (server.py:497-501): the first
        empty slot. It finds one because every taken slot is counted and the
        count is below 4. */
    static method FreeSlot(sockets: seq<bool>, ghost count: int) returns (i: int)
      requires |sockets| == MaxClients && Occupied(sockets) <= count < MaxClients
      ensures i == LowestFree(sockets)
    {
      i := 0;
      while i < MaxClients && sockets[i]
        invariant 0 <= i <= MaxClients
        invariant forall j :: 0 <= j < i ==> sockets[j]
      {
        i := i + 1;
      }
      if i == MaxClients {
        // every slot taken although fewer than four are counted
        AllTaken(sockets);
        assert false;
      }
    }

    /** The locked block that opens clientHandler (server.py:425-434). */
    method Join(p: int, failed: seq<bool>) returns (e: Effect, delivered: seq<Message>)
      requires Valid() && 0 <= p < MaxClients && |failed| == MaxClients
      modifies this`players, this`clientSockets, grid
      ensures Valid()
      ensures var r := JoinSpec(old(Snapshot()), p);
        e == r.1 && (Snapshot(), delivered) == BroadcastUpTo(r.0, failed, StateText(r.0.grid, r.0.players), MaxClients)
    {
      ghost var w0 := Snapshot();
      players := players[p := Player(p, 0, StartHp, true)];
      RefreshPlayerPositions();
      e := Effect([Message(p, ReadyLine)], true, false);
      ghost var w1 := Snapshot();
      assert w1 == JoinSpec(w0, p).0;
      JoinPreservesInv(w0, p);
      delivered := BroadcastState(failed);
      BroadcastPreservesInv(w1, failed, StateText(w1.grid, w1.players), MaxClients);
    }

    /** The cleanup after the receive loop ends (server.py:450-455). */
    method Disconnect(p: int, failed: seq<bool>) returns (e: Effect, delivered: seq<Message>)
      requires Valid() && 0 <= p < MaxClients && |failed| == MaxClients
      modifies this`players, this`clientSockets, grid
      ensures Valid()
      ensures var r := DisconnectSpec(old(Snapshot()), p);
        e == r.1 && (Snapshot(), delivered) == BroadcastUpTo(r.0, failed, StateText(r.0.grid, r.0.players), MaxClients)
    {
      ghost var w0 := Snapshot();
      players := players[p := players[p].(active := false)];
      SetGrid(Wrap(players[p].x, Rows), Wrap(players[p].y, Cols), Empty);
      clientSockets := clientSockets[p := false];
      RefreshPlayerPositions();
      e := Effect([], true, false);
      ghost var w1 := Snapshot();
      assert w1 == DisconnectSpec(w0, p).0;
      DisconnectPreservesInv(w0, p);
      delivered := BroadcastState(failed);
      BroadcastPreservesInv(w1, failed, StateText(w1.grid, w1.players), MaxClients);
    }
  }
}
