/** What the server promises its players, stated over Rules and proved: which
    direction a command selects, when a move happens and what it costs or
    gains, who an ATTACK hurts, what QUIT, SAY, a join and a disconnect do,
    and why the accept loop always finds a free slot. */
module Properties {
  import opened Text
  import opened Board
  import opened Slots
  import opened Rules
  import opened Invariants

  // ---------------------------------------------------------------------------
  // Direction words

  /** "JUMP " followed by a word without 'U' holds no "UP": the only 'U' is
      the one of JUMP, and it is followed by 'M'. */
  lemma JumpHasNoUp(word: string)
    requires 'U' !in word
    ensures !Contains("JUMP " + word, "UP")
  {
    var s := "JUMP " + word;
    assert s[2..] == "MP " + word;
    NotContainsWithoutHead(s[2..], "UP");
    assert s[1..][..2] == "UM";
    assert s[1..][1..] == s[2..];
    assert s[..2] == "JU";
  }

  /** The commands the client sends, `MOVE <DIR>` and `JUMP <DIR>`, select
      their own direction: no earlier word of the `in` chain occurs in them. */
  lemma CanonicalDirection(kw: string, d: Dir)
    requires kw == "MOVE" || kw == "JUMP"
    ensures ParseDir(kw + " " + DirWord(d)) == Some(d)
  {
    DirectionPresent(kw, d);
    if d != Up {
      NoUpBefore(kw, d);
    }
    if d == Left || d == Right {
      NoDownBefore(kw, d);
    }
    if d == Right {
      NoLeftBefore(kw, d);
    }
  }

  lemma DirectionPresent(kw: string, d: Dir)
    requires |kw| == 4
    ensures Contains(kw + " " + DirWord(d), DirWord(d))
  {
    var s := kw + " " + DirWord(d);
    assert s[5..] == DirWord(d);
    assert StartsWith(s[5..], DirWord(d));
    ContainsSuffix(s, DirWord(d), 5);
  }

  /** Neither "MOVE " nor "JUMP " followed by DOWN, LEFT or RIGHT holds "UP". */
  lemma NoUpBefore(kw: string, d: Dir)
    requires (kw == "MOVE" || kw == "JUMP") && d != Up
    ensures !Contains(kw + " " + DirWord(d), "UP")
  {
    var s := kw + " " + DirWord(d);
    if kw == "MOVE" {
      assert 'U' !in s;
      NotContainsWithoutHead(s, "UP");
    } else {
      assert s == "JUMP " + DirWord(d);
      JumpHasNoUp(DirWord(d));
    }
  }

  lemma NoDownBefore(kw: string, d: Dir)
    requires (kw == "MOVE" || kw == "JUMP") && (d == Left || d == Right)
    ensures !Contains(kw + " " + DirWord(d), "DOWN")
  {
    assert 'D' !in kw + " " + DirWord(d);
    NotContainsWithoutHead(kw + " " + DirWord(d), "DOWN");
  }

  lemma NoLeftBefore(kw: string, d: Dir)
    requires (kw == "MOVE" || kw == "JUMP") && d == Right
    ensures !Contains(kw + " " + DirWord(d), "LEFT")
  {
    assert 'L' !in kw + " " + DirWord(d);
    NotContainsWithoutHead(kw + " " + DirWord(d), "LEFT");
  }

  // ---------------------------------------------------------------------------
  // MOVE and JUMP

  /** The coordinate a step in direction d changes, after the step. */
  function Shifted(pl: Player, d: Dir, step: int): int
  {
    match d
    case Up => pl.x - step
    case Down => pl.x + step
    case Left => pl.y - step
    case Right => pl.y + step
  }

  /** The bound test as written checks only the upper end for DOWN and RIGHT;
      on a record with coordinates in -1..4 that is still exactly "the
      destination lies inside the grid". */
  lemma BoundTestSound(pl: Player, d: Dir, step: int)
    requires OnBoard(pl) && (step == 1 || step == 2)
    ensures var t := Target(pl, d, step);
      BoundAsWritten(d, t.0, t.1) <==> 0 <= Shifted(pl, d, step) < 5
  {
  }

  /** The cell a move would enter, read with Python's indexing, once the
      moved coordinate is known to lie inside the grid. */
  function Dest(w: World, p: int, d: Dir, step: int): char
    requires WellFormed(w) && 0 <= p < MaxClients && (step == 1 || step == 2)
    requires 0 <= Shifted(w.players[p], d, step) < 5
  {
    var t := Target(w.players[p], d, step);
    assert OnBoard(w.players[p]);
    w.grid[Wrap(t.0, Rows)][Wrap(t.1, Cols)]
  }

  /** The move's tests pass: the moved coordinate lands inside the grid and
      the cell there holds '.' or '+'. */
  predicate Enters(w: World, p: int, d: Dir, step: int)
    requires WellFormed(w) && 0 <= p < MaxClients && (step == 1 || step == 2)
  {
    0 <= Shifted(w.players[p], d, step) < 5 && Open(Dest(w, p, d, step))
  }

  /** A move or jump whose tests pass: the record takes the destination and
      gains 5 HP when it held a '+', and the grid is the old one with the
      destination cleared (the '+' used up), redrawn. Sockets and clientCount
      stay. */
  lemma MoveTaken(w: World, p: int, d: Dir, step: int)
    requires WellFormed(w) && 0 <= p < MaxClients && (step == 1 || step == 2)
    requires !IsTerrain(Under(w, p)) && Enters(w, p, d, step)
    ensures var pl := w.players[p];
      var t := Target(pl, d, step);
      var w' := MoveSpec(w, p, d, step);
      var gain := if Dest(w, p, d, step) == Pickup then PickupBonus else 0;
      w'.sockets == w.sockets && w'.clientCount == w.clientCount
      && w'.players == w.players[p := Player(t.0, t.1, pl.hp + gain, pl.active)]
      && w'.grid == Refreshed(SetCell(w.grid, Wrap(t.0, Rows), Wrap(t.1, Cols), Empty), w'.players)
  {
    var pl := w.players[p];
    var t := Target(pl, d, step);
    BoundTestSound(pl, d, step);
    TargetOnBoard(pl, d, step);
    MovedGrid(w, p, t.0, t.1);
    var g1 := SetCell(w.grid, Wrap(pl.x, Rows), Wrap(pl.y, Cols), Empty);
    assert g1[Wrap(t.0, Rows)][Wrap(t.1, Cols)] == Dest(w, p, d, step);
  }

  /** A move or jump whose tests fail changes no record, slot or count; the
      grid is only redrawn. */
  lemma MoveBlocked(w: World, p: int, d: Dir, step: int)
    requires WellFormed(w) && 0 <= p < MaxClients && (step == 1 || step == 2)
    requires !Enters(w, p, d, step)
    ensures MoveSpec(w, p, d, step) == w.(grid := Refreshed(w.grid, w.players))
  {
    BoundTestSound(w.players[p], d, step);
  }

  /** After a move and the redraw, the grid is the old grid with the
      destination cleared (its '+' used up), redrawn: the mover's old cell and
      letter need no separate treatment. */
  lemma MovedGrid(w: World, p: int, nx: int, ny: int)
    requires WellFormed(w) && 0 <= p < MaxClients && -1 <= nx < Rows && -1 <= ny < Cols
    requires !IsTerrain(Under(w, p))
    requires Open(w.grid[Wrap(nx, Rows)][Wrap(ny, Cols)])
    ensures var m := Moved(w, p, nx, ny);
      Refreshed(m.grid, m.players) == Refreshed(SetCell(w.grid, Wrap(nx, Rows), Wrap(ny, Cols), Empty), m.players)
  {
    var pl := w.players[p];
    var m := Moved(w, p, nx, ny);
    var dr, dc := Wrap(nx, Rows), Wrap(ny, Cols);
    var h := SetCell(w.grid, dr, dc, Empty);
    forall r, c | InGrid(r, c)
      ensures Terrain(m.grid[r][c]) == Terrain(h[r][c])
    {
    }
    RefreshSameTerrain(m.grid, h, m.players);
  }

  /** A player never moves onto another live player: the destination of a
      move held no live player before, so afterwards the mover is the only
      live player on its cell, and that cell shows the mover's letter if the
      mover is live. */
  lemma MoveNeverStacks(w: World, p: int, d: Dir, step: int)
    requires Inv(w) && 0 <= p < MaxClients && (step == 1 || step == 2)
    requires Enters(w, p, d, step)
    ensures var w' := MoveSpec(w, p, d, step);
      var q := w'.players[p];
      (forall i :: 0 <= i < MaxClients && i != p && Live(w'.players[i]) ==>
         !(w'.players[i].x == q.x && w'.players[i].y == q.y))
      && (Live(q) ==> w'.grid[Wrap(q.x, Rows)][Wrap(q.y, Cols)] == Marker(p))
  {
    MoveTaken(w, p, d, step);
    var w' := MoveSpec(w, p, d, step);
    var q := w'.players[p];
    var t := Target(w.players[p], d, step);
    assert q.x == t.0 && q.y == t.1;
    MovePreservesInv(w, p, d, step);
    forall i | 0 <= i < MaxClients && i != p && Live(w'.players[i])
      ensures !(w'.players[i].x == q.x && w'.players[i].y == q.y)
    {
      assert w'.players[i] == w.players[i];
      assert 'A' <= Under(w, i) <= 'D';
    }
    if Live(q) {
      var r, c := Wrap(q.x, Rows), Wrap(q.y, Cols);
      RefreshedCell(SetCell(w.grid, r, c, Empty), w'.players, r, c);
    }
  }

  // ---------------------------------------------------------------------------
  // ATTACK

  /** The elif chain of the ATTACK loop tests exactly "at Manhattan distance 1". */
  lemma AdjacentIsDistanceOne(v: Player, ox: int, oy: int)
    ensures Adjacent(v, ox, oy) <==> Abs(v.x - ox) + Abs(v.y - oy) == 1
  {
  }

  /** Record i is live and stands next to the attacker p. */
  predicate Hit(w: World, p: int, i: int)
    requires WellFormed(w) && 0 <= p < MaxClients && 0 <= i < MaxClients
  {
    var v, a := w.players[i], w.players[p];
    Live(v) && Abs(v.x - a.x) + Abs(v.y - a.y) == 1
  }

  function HpAfter(w: World, p: int, i: int): int
    requires WellFormed(w) && 0 <= p < MaxClients && 0 <= i < MaxClients
  {
    if Hit(w, p, i) then w.players[i].hp - AttackDamage else w.players[i].hp
  }

  /** Record i is killed by p's attack: it was live and is left with no health. */
  predicate Dies(w: World, p: int, i: int)
    requires WellFormed(w) && 0 <= p < MaxClients && 0 <= i < MaxClients
  {
    Live(w.players[i]) && HpAfter(w, p, i) <= 0
  }

  /** A victim whose slot is empty: sending it the death notice raises. */
  predicate Stops(w: World, p: int, i: int)
    requires WellFormed(w) && 0 <= p < MaxClients && 0 <= i < MaxClients
  {
    Dies(w, p, i) && !w.sockets[i]
  }

  /** The loop gets as far as record i: no earlier record stops it. */
  predicate Reached(w: World, p: int, i: int)
    requires WellFormed(w) && 0 <= p < MaxClients && 0 <= i <= MaxClients
  {
    forall j :: 0 <= j < i ==> !Stops(w, p, j)
  }

  /** Record i after the loop has visited it. */
  function Struck(w: World, p: int, i: int): Player
    requires WellFormed(w) && 0 <= p < MaxClients && 0 <= i < MaxClients
  {
    var v := w.players[i];
    if !Live(v) then v
    else if Dies(w, p, i) && w.sockets[i] then Player(v.x, v.y, HpAfter(w, p, i), false)
    else v.(hp := HpAfter(w, p, i))
  }

  /** The victims below n that the loop reaches, kills and disconnects, in order. */
  function Killed(w: World, p: int, n: nat): seq<nat>
    requires WellFormed(w) && 0 <= p < MaxClients && n <= MaxClients
  {
    if n == 0 then []
    else Killed(w, p, n - 1) + (if Reached(w, p, n - 1) && Dies(w, p, n - 1) && w.sockets[n - 1] then [n - 1] else [])
  }

  /** The ATTACK loop over records 0..n-1 stops exactly when it meets a
      victim whose slot is empty, and until then sees each record as it was. */
  lemma {:induction false} AttackStops(w: World, p: int, n: nat)
    requires WellFormed(w) && 0 <= p < MaxClients && n <= MaxClients
    ensures var a := AttackUpTo(w, p, n);
      (a.raised <==> !Reached(w, p, n))
      && (forall i :: n <= i < MaxClients ==> a.players[i] == w.players[i] && a.sockets[i] == w.sockets[i])
    decreases n
  {
    if n > 0 {
      AttackStops(w, p, n - 1);
      var a := AttackUpTo(w, p, n - 1);
      var i := n - 1;
      if !a.raised {
        AdjacentIsDistanceOne(w.players[i], w.players[p].x, w.players[p].y);
        assert AttackUpTo(w, p, n).raised <==> Stops(w, p, i);
      }
    }
  }

  /** Record by record: every record the loop reaches is struck, every other
      one is left alone; a slot is emptied exactly when its record is killed. */
  lemma {:induction false} AttackRecords(w: World, p: int, n: nat)
    requires WellFormed(w) && 0 <= p < MaxClients && n <= MaxClients
    ensures var a := AttackUpTo(w, p, n);
      (forall i :: 0 <= i < MaxClients ==>
         a.players[i] == if i < n && Reached(w, p, i) then Struck(w, p, i) else w.players[i])
      && (forall i :: 0 <= i < MaxClients ==>
         a.sockets[i] == (w.sockets[i] && !(i < n && Reached(w, p, i) && Dies(w, p, i))))
    decreases n
  {
    if n > 0 {
      AttackRecords(w, p, n - 1);
      AttackStops(w, p, n - 1);
      var a := AttackUpTo(w, p, n - 1);
      var b := AttackUpTo(w, p, n);
      var i := n - 1;
      if !a.raised {
        AdjacentIsDistanceOne(w.players[i], w.players[p].x, w.players[p].y);
        assert a.players[i] == w.players[i] && a.sockets[i] == w.sockets[i];
        assert b.players == a.players[i := Struck(w, p, i)];
        assert b.sockets == a.sockets[i := w.sockets[i] && !Dies(w, p, i)];
      } else {
        assert b == a;
        assert !Reached(w, p, i);
      }
    }
  }

  /** Each victim killed gets one death notice, in slot order, and lowers
      clientCount by one. */
  lemma {:induction false} AttackNotices(w: World, p: int, n: nat)
    requires WellFormed(w) && 0 <= p < MaxClients && n <= MaxClients
    ensures var a := AttackUpTo(w, p, n);
      |a.sent| == |Killed(w, p, n)|
      && (forall k :: 0 <= k < |a.sent| ==> a.sent[k] == Message(Killed(w, p, n)[k], DeathNotice(p)))
      && a.clientCount == w.clientCount - |Killed(w, p, n)|
    decreases n
  {
    if n > 0 {
      var i := n - 1;
      AttackNotices(w, p, i);
      AttackStops(w, p, i);
      var a := AttackUpTo(w, p, i);
      var b := AttackUpTo(w, p, n);
      if a.raised {
        assert b == a && Killed(w, p, n) == Killed(w, p, i);
      } else {
        AdjacentIsDistanceOne(w.players[i], w.players[p].x, w.players[p].y);
        assert a.players[i] == w.players[i] && a.sockets[i] == w.sockets[i];
        if Dies(w, p, i) && w.sockets[i] {
          assert b.sent == a.sent + [Message(i, DeathNotice(p))];
          assert Killed(w, p, n) == Killed(w, p, i) + [i];
        } else {
          assert b.sent == a.sent && b.clientCount == a.clientCount;
          assert Killed(w, p, n) == Killed(w, p, i);
        }
      }
    }
  }

  /** Once the ATTACK loop has raised, the later records are never visited. */
  lemma {:induction false} AttackHalts(w: World, p: int, k: nat, n: nat)
    requires WellFormed(w) && 0 <= p < MaxClients && k <= n <= MaxClients
    requires AttackUpTo(w, p, k).raised
    ensures AttackUpTo(w, p, n) == AttackUpTo(w, p, k)
    decreases n
  {
    if n > k {
      AttackHalts(w, p, k, n - 1);
      var a := AttackUpTo(w, p, n - 1);
      assert a == AttackUpTo(w, p, k);
      assert AttackUpTo(w, p, n) == a;
    }
  }

  /** One ATTACK by p: every live record next to p loses 10 HP, and each one
      left with no health is killed: deactivated, sent "You were killed by
      Player <letter of p>", its slot emptied and clientCount lowered. The
      attacker itself is never hit. A victim whose slot is already empty makes
      the notice raise: the loop stops there and neither redraw nor broadcast
      happens. So with every live player connected, ATTACK always completes. */
  lemma AttackRule(w: World, p: int)
    requires WellFormed(w) && 0 <= p < MaxClients
    ensures var w', e := AttackSpec(w, p).0, AttackSpec(w, p).1;
      (e.raised <==> exists j :: 0 <= j < MaxClients && Stops(w, p, j))
      && e.broadcast == !e.raised
      && ((forall i :: 0 <= i < MaxClients && Live(w.players[i]) ==> w.sockets[i]) ==> !e.raised)
      && w'.players[p] == w.players[p]
      && (forall i :: 0 <= i < MaxClients ==>
            w'.players[i] == if Reached(w, p, i) then Struck(w, p, i) else w.players[i])
      && (forall i :: 0 <= i < MaxClients ==>
            w'.sockets[i] == (w.sockets[i] && !(Reached(w, p, i) && Dies(w, p, i))))
      && |e.sent| == |Killed(w, p, MaxClients)|
      && (forall k :: 0 <= k < |e.sent| ==> e.sent[k] == Message(Killed(w, p, MaxClients)[k], DeathNotice(p)))
      && w'.clientCount == w.clientCount - |Killed(w, p, MaxClients)|
      && w'.grid == if e.raised then w.grid else Refreshed(w.grid, w'.players)
  {
    AttackStops(w, p, MaxClients);
    AttackRecords(w, p, MaxClients);
    AttackNotices(w, p, MaxClients);
    assert !Hit(w, p, p);
  }

  // ---------------------------------------------------------------------------
  // QUIT and SAY

  /** Each slot of rs receives the text. */
  lemma SendAllReaches(rs: seq<nat>, text: string, i: nat)
    requires i in rs
    ensures Message(i, text) in SendAll(rs, text)
  {
    var k :| 0 <= k < |rs| && rs[k] == i;
    assert SendAll(rs, text)[k] == Message(i, text);
  }

  /** A send loop over the slot table: one message to each taken slot other
      than `skip`, all with the same text, each taken slot reached. */
  lemma SendLoop(s: seq<bool>, skip: int, text: string)
    requires |s| == MaxClients
    ensures var ms := SendAll(Recipients(s, skip, MaxClients), text);
      |ms| == Occupied(s) - (if 0 <= skip < MaxClients && s[skip] then 1 else 0)
      && (forall k :: 0 <= k < |ms| ==> ms[k].to < MaxClients && ms[k].to != skip && s[ms[k].to] && ms[k].text == text)
      && (forall i :: 0 <= i < MaxClients && s[i] && i != skip ==> Message(i, text) in ms)
  {
    var rs := Recipients(s, skip, MaxClients);
    var ms := SendAll(rs, text);
    RecipientsExact(s, skip, MaxClients);
    assert |ms| == Occupied(s) - (if 0 <= skip < MaxClients && s[skip] then 1 else 0) by {
      RecipientsCount(s, skip, MaxClients);
      assert s[..MaxClients] == s;
    }
    forall k | 0 <= k < |ms|
      ensures ms[k].to < MaxClients && ms[k].to != skip && s[ms[k].to] && ms[k].text == text
    {
      assert ms[k] == Message(rs[k], text);
    }
    forall i | 0 <= i < MaxClients && s[i] && i != skip
      ensures Message(i, text) in ms
    {
      SendAllReaches(rs, text, i);
    }
  }

  /** QUIT by p: its record leaves the board at (-1,-1) inactive, keeping its
      health, and no cell shows its letter any more. If p's slot is taken,
      every taken slot, p's included, is told "Player <p> has quit the game.",
      then p's slot is emptied and clientCount drops by one; otherwise nothing
      is sent and nothing is counted. Redraw and broadcast follow either way. */
  lemma QuitRule(w: World, p: int)
    requires Inv(w) && 0 <= p < MaxClients
    ensures var w', e := QuitSpec(w, p).0, QuitSpec(w, p).1;
      w'.players == w.players[p := Player(-1, -1, w.players[p].hp, false)]
      && w'.grid == Refreshed(w.grid, w'.players)
      && (forall r, c :: InGrid(r, c) ==> w'.grid[r][c] != Marker(p))
      && w'.sockets == w.sockets[p := false]
      && w'.clientCount == w.clientCount - (if w.sockets[p] then 1 else 0)
      && e.broadcast && !e.raised
      && (w.sockets[p] ==>
            |e.sent| == Occupied(w.sockets)
            && (forall k :: 0 <= k < |e.sent| ==> e.sent[k].to < MaxClients && w.sockets[e.sent[k].to] && e.sent[k].text == QuitNotice(p))
            && (forall i :: 0 <= i < MaxClients && w.sockets[i] ==> Message(i, QuitNotice(p)) in e.sent))
      && (!w.sockets[p] ==> e.sent == [])
  {
    var pl := w.players[p];
    var w' := QuitSpec(w, p).0;
    assert !IsTerrain(Under(w, p));
    WriteAbsorbed(w.grid, w'.players, Wrap(pl.x, Rows), Wrap(pl.y, Cols), Empty);
    forall r, c | InGrid(r, c)
      ensures w'.grid[r][c] != Marker(p)
    {
      RefreshedHides(w.grid, w'.players, p, r, c);
    }
    SendLoop(w.sockets, -1, QuitNotice(p));
  }

  /** SAY by p: the text "SAY Player<p>: " followed by the words after the
      first, with the spaces between them dropped, goes to every taken slot
      except p's; the records, slots and clientCount stay; redraw and
      broadcast follow. */
  lemma SayRule(w: World, p: int, cmd: string)
    requires WellFormed(w) && 0 <= p < MaxClients
    ensures var w', e := SaySpec(w, p, cmd).0, SaySpec(w, p, cmd).1;
      var text := "SAY Player" + IntToString(p) + ": " + Unspaced(AfterFirst(cmd, ' '), ' ');
      w'.players == w.players && w'.sockets == w.sockets && w'.clientCount == w.clientCount
      && w'.grid == Refreshed(w.grid, w.players)
      && e.broadcast && !e.raised
      && |e.sent| == Occupied(w.sockets) - (if w.sockets[p] then 1 else 0)
      && (forall k :: 0 <= k < |e.sent| ==>
            e.sent[k].to < MaxClients && e.sent[k].to != p && w.sockets[e.sent[k].to] && e.sent[k].text == text)
      && (forall i :: 0 <= i < MaxClients && w.sockets[i] && i != p ==> Message(i, text) in e.sent)
  {
    ConcatTail(cmd, ' ');
    SendLoop(w.sockets, p, ChatLine(p, cmd));
  }

  // ---------------------------------------------------------------------------
  // broadcastState

  /** The slots still taken once the sends to slots below n marked in
      `failed` have failed. */
  function Survivors(s: seq<bool>, failed: seq<bool>, n: nat): (t: seq<bool>)
    requires |s| == |failed|
    ensures |t| == |s|
    ensures forall i :: 0 <= i < |s| ==> t[i] == (s[i] && !(i < n && failed[i]))
  {
    seq(|s|, i requires 0 <= i < |s| => s[i] && !(i < n && failed[i]))
  }

  /** broadcastState empties exactly the taken slots whose send fails; the
      grid, the records and clientCount stay as they are. */
  lemma {:induction false} BroadcastDrops(w: World, failed: seq<bool>, text: string, n: nat)
    requires WellFormed(w) && |failed| == MaxClients && n <= MaxClients
    ensures var r := BroadcastUpTo(w, failed, text, n).0;
      r.grid == w.grid && r.players == w.players && r.clientCount == w.clientCount
      && r.sockets == Survivors(w.sockets, failed, n)
    decreases n
  {
    if n > 0 {
      BroadcastDrops(w, failed, text, n - 1);
      var prev := BroadcastUpTo(w, failed, text, n - 1).0;
      var r := BroadcastUpTo(w, failed, text, n).0;
      var want := Survivors(w.sockets, failed, n);
      if prev.sockets[n - 1] && failed[n - 1] {
        assert r.sockets == prev.sockets[n - 1 := false];
      } else {
        assert r.sockets == prev.sockets;
      }
      assert |r.sockets| == |want|;
      forall i | 0 <= i < MaxClients
        ensures r.sockets[i] == want[i]
      {
      }
    }
  }

  /** broadcastState sends the text, in slot order, to exactly the taken slots
      whose send succeeds. */
  lemma {:induction false} BroadcastSends(w: World, failed: seq<bool>, text: string, n: nat)
    requires WellFormed(w) && |failed| == MaxClients && n <= MaxClients
    ensures BroadcastUpTo(w, failed, text, n).1
      == SendAll(Recipients(Survivors(w.sockets, failed, MaxClients), -1, n), text)
    decreases n
  {
    if n > 0 {
      BroadcastSends(w, failed, text, n - 1);
      BroadcastDrops(w, failed, text, n - 1);
      var prev := BroadcastUpTo(w, failed, text, n - 1);
      var all := Survivors(w.sockets, failed, MaxClients);
      var rs := Recipients(all, -1, n - 1);
      assert prev.0.sockets[n - 1] == w.sockets[n - 1];
      assert all[n - 1] == (w.sockets[n - 1] && !failed[n - 1]);
      if all[n - 1] {
        assert Recipients(all, -1, n) == rs + [n - 1];
        SendAllAppend(rs, n - 1, text);
      } else {
        assert Recipients(all, -1, n) == rs;
      }
    }
  }

  // ---------------------------------------------------------------------------
  // handleCommand as a whole

  /** A command the server answers with "Invalid command": no keyword, or MOVE
      or JUMP without a direction word. */
  predicate Unrecognised(cmd: string)
  {
    var keyword := StartsWith(cmd, "MOVE") || StartsWith(cmd, "ATTACK") || StartsWith(cmd, "QUIT")
      || StartsWith(cmd, "JUMP") || StartsWith(cmd, "SAY");
    var noDirection := forall d: Dir :: !Contains(cmd, DirWord(d));
    !keyword || ((StartsWith(cmd, "MOVE") || StartsWith(cmd, "JUMP")) && noDirection)
  }

  /** An unrecognised command changes nothing and is not broadcast; the sender
      alone is told "Invalid command", and if its slot is empty the send raises. */
  lemma InvalidRule(w: World, p: int, cmd: string)
    requires WellFormed(w) && 0 <= p < MaxClients && Unrecognised(cmd)
    ensures var w', e := Handle(w, p, cmd).0, Handle(w, p, cmd).1;
      w' == w && !e.broadcast
      && (w.sockets[p] ==> e.sent == [Message(p, InvalidReply)] && !e.raised)
      && (!w.sockets[p] ==> e.sent == [] && e.raised)
  {
    var noDirection := forall d: Dir :: !Contains(cmd, DirWord(d));
    if noDirection {
      assert !Contains(cmd, DirWord(Up)) && !Contains(cmd, DirWord(Down));
      assert !Contains(cmd, DirWord(Left)) && !Contains(cmd, DirWord(Right));
      assert ParseDir(cmd) == None;
    }
    if StartsWith(cmd, "JUMP") {
      assert cmd[0] == 'J';
    }
  }

  /** What any command keeps, going from w to w' with effect e for sender p:
      the other players stand where they stood, slots are only ever emptied,
      clientCount never rises, and the command ends with a broadcast, or
      raises, or is answered with "Invalid command" alone. */
  predicate Contained(w: World, p: int, w': World, e: Effect)
    requires WellFormed(w) && WellFormed(w') && 0 <= p < MaxClients
  {
    (forall i :: 0 <= i < MaxClients && i != p ==>
       w'.players[i].x == w.players[i].x && w'.players[i].y == w.players[i].y)
    && (forall i :: 0 <= i < MaxClients && w'.sockets[i] ==> w.sockets[i])
    && w'.clientCount <= w.clientCount
    && (e.broadcast || e.raised || e.sent == [Message(p, InvalidReply)])
  }

  /** A MOVE or JUMP whose direction parses: besides Contained, it sends
      nothing of its own and ends in a broadcast, never a raise. */
  lemma MoveContained(w: World, p: int, cmd: string, step: int)
    requires WellFormed(w) && 0 <= p < MaxClients && (step == 1 || step == 2)
    requires ParseDir(cmd).Some?
    ensures var r := StepCommand(w, p, cmd, step);
      Contained(w, p, r.0, r.1) && r.1.broadcast && !r.1.raised && r.1.sent == []
  {
  }

  /** An ATTACK: besides Contained, it ends in exactly one of a broadcast and
      a raise. */
  lemma AttackContained(w: World, p: int)
    requires WellFormed(w) && 0 <= p < MaxClients
    ensures Contained(w, p, AttackSpec(w, p).0, AttackSpec(w, p).1)
    ensures AttackSpec(w, p).1.broadcast != AttackSpec(w, p).1.raised
  {
    AttackKeepsPlaces(w, p, MaxClients);
    AttackRecords(w, p, MaxClients);
    AttackNotices(w, p, MaxClients);
  }

  /** A QUIT: besides Contained, it ends in a broadcast and never raises. */
  lemma QuitContained(w: World, p: int)
    requires WellFormed(w) && 0 <= p < MaxClients
    ensures Contained(w, p, QuitSpec(w, p).0, QuitSpec(w, p).1)
    ensures QuitSpec(w, p).1.broadcast && !QuitSpec(w, p).1.raised
  {
  }

  /** Whatever the command, Contained holds. */
  lemma HandleBounds(w: World, p: int, cmd: string)
    requires WellFormed(w) && 0 <= p < MaxClients
    ensures Contained(w, p, Handle(w, p, cmd).0, Handle(w, p, cmd).1)
  {
    if (StartsWith(cmd, "MOVE") || StartsWith(cmd, "JUMP")) && ParseDir(cmd).Some? {
      MoveContained(w, p, cmd, 1);
      MoveContained(w, p, cmd, 2);
    }
    if !StartsWith(cmd, "MOVE") && StartsWith(cmd, "ATTACK") {
      AttackContained(w, p);
    }
    if !StartsWith(cmd, "MOVE") && !StartsWith(cmd, "ATTACK") && StartsWith(cmd, "QUIT") {
      QuitContained(w, p);
    }
  }

  // ---------------------------------------------------------------------------
  // Sessions

  /** The fact the accept loop's slot search rests on: while clientCount is
      below the number of slots and every taken slot is counted, some slot is
      empty. */
  lemma FreeSlotBelowCapacity(s: seq<bool>, count: int)
    requires Occupied(s) <= count < |s|
    ensures exists i :: 0 <= i < |s| && !s[i]
  {
    if forall i :: 0 <= i < |s| ==> s[i] {
      AllTaken(s);
    }
  }

  /** The accept loop turns a client away with "Server is full." exactly when
      clientCount has reached 4, changing nothing. Otherwise it stores the
      client in the lowest empty slot, which exists, and counts it. */
  lemma ReserveRule(w: World)
    requires Inv(w)
    ensures var w', adm := ReserveSpec(w).0, ReserveSpec(w).1;
      (w.clientCount >= MaxClients <==> adm == Rejected(FullReply))
      && (adm.Rejected? ==> w' == w)
      && (adm.Admitted? ==>
            var i := adm.slot;
            i < MaxClients && !w.sockets[i] && (forall j :: 0 <= j < i ==> w.sockets[j])
            && w'.sockets == w.sockets[i := true] && w'.clientCount == w.clientCount + 1
            && w'.players == w.players && w'.grid == w.grid)
  {
    if w.clientCount < MaxClients {
      FreeSlotBelowCapacity(w.sockets, w.clientCount);
    }
  }

  /** A join resets p's record to row p, column 0, 100 HP, active; p is sent
      READY, then the state is broadcast. The cell (p,0) shows p's letter
      unless a live player of a higher slot stands there too. */
  lemma JoinRule(w: World, p: int)
    requires Inv(w) && 0 <= p < MaxClients
    ensures var w', e := JoinSpec(w, p).0, JoinSpec(w, p).1;
      w'.players == w.players[p := Player(p, 0, StartHp, true)]
      && w'.sockets == w.sockets && w'.clientCount == w.clientCount
      && e == Effect([Message(p, ReadyLine)], true, false)
      && ((forall j :: p < j < MaxClients ==> !(Live(w.players[j]) && At(w.players[j], p, 0))) ==>
            w'.grid[p][0] == Marker(p))
  {
    var ps := JoinSpec(w, p).0.players;
    assert Live(ps[p]) && At(ps[p], p, 0);
    RefreshedCell(w.grid, ps, p, 0);
  }

  /** The cleanup after a disconnect: p's record is deactivated where it
      stands, no cell shows its letter, its slot is emptied, a redraw and a
      broadcast follow, and clientCount is left as it was. */
  lemma DisconnectRule(w: World, p: int)
    requires Inv(w) && 0 <= p < MaxClients
    ensures var w', e := DisconnectSpec(w, p).0, DisconnectSpec(w, p).1;
      w'.players == w.players[p := w.players[p].(active := false)]
      && w'.grid == Refreshed(w.grid, w'.players)
      && (forall r, c :: InGrid(r, c) ==> w'.grid[r][c] != Marker(p))
      && w'.sockets == w.sockets[p := false]
      && w'.clientCount == w.clientCount
      && e == Effect([], true, false)
  {
    var pl := w.players[p];
    var w' := DisconnectSpec(w, p).0;
    assert !IsTerrain(Under(w, p));
    WriteAbsorbed(w.grid, w'.players, Wrap(pl.x, Rows), Wrap(pl.y, Cols), Empty);
    forall r, c | InGrid(r, c)
      ensures w'.grid[r][c] != Marker(p)
    {
      RefreshedHides(w.grid, w'.players, p, r, c);
    }
  }

  /** A client that connects, joins and disconnects without QUIT: it leaves
      every slot as it found it but clientCount one higher. */
  function Visit(w: World): (w': World)
    requires Inv(w) && w.clientCount < MaxClients
    ensures Inv(w')
    ensures w'.sockets == w.sockets && w'.clientCount == w.clientCount + 1
  {
    ReservePreservesInv(w);
    ReserveRule(w);
    var r := ReserveSpec(w);
    var i := r.1.slot;
    JoinPreservesInv(r.0, i);
    var j := JoinSpec(r.0, i).0;
    DisconnectPreservesInv(j, i);
    DisconnectSpec(j, i).0
  }

  /** k such visits, one after the other. */
  function Visits(w: World, k: nat): (w': World)
    requires Inv(w) && w.clientCount + k <= MaxClients
    ensures Inv(w')
    ensures w'.sockets == w.sockets && w'.clientCount == w.clientCount + k
    decreases k
  {
    if k == 0 then w else Visits(Visit(w), k - 1)
  }

  /** From any state with no slot taken and nobody counted, four clients
      that each come and go without QUIT leave every slot empty, and yet the
      next client is refused with "Server is full.". The refusal leaves the
      state as it was, and LeakPermanent shows that nothing else the server
      does leaves that state either. */
  lemma LeakFrom(w: World)
    requires Inv(w) && w.clientCount == 0 && Occupied(w.sockets) == 0
    ensures var v := Visits(w, MaxClients);
      Occupied(v.sockets) == 0 && ReserveSpec(v) == (v, Rejected(FullReply))
  {
    var v := Visits(w, MaxClients);
    assert v.sockets == w.sockets && v.clientCount == MaxClients;
  }

  /** From the initial state, four clients that each come and go without
      QUIT leave every slot empty, and yet the next client is refused with
      "Server is full.", by a refusal that changes nothing; by LeakPermanent
      every later client is refused too. */
  lemma CapacityLeak()
    ensures Inv(InitialWorld()) && InitialWorld().clientCount == 0
    ensures var w := Visits(InitialWorld(), MaxClients);
      Occupied(w.sockets) == 0 && ReserveSpec(w) == (w, Rejected(FullReply))
  {
    InitialInv();
    NoneTaken(InitialWorld().sockets);
    LeakFrom(InitialWorld());
  }

  /** The leaked state: the invariant holds, clientCount is at capacity and
      every slot is empty. */
  ghost predicate Leaked(w: World)
  {
    Inv(w) && w.clientCount == MaxClients
    && forall i :: 0 <= i < MaxClients ==> !w.sockets[i]
  }

  /** Once leaked, the server stays leaked for good: a reservation is refused
      and changes nothing, and every command, join, disconnect cleanup and
      broadcast keeps the state leaked. QUIT lowers clientCount only for a
      taken slot, and an ATTACK kill on an empty slot raises before the
      decrement, so no event can lower the count again. */
  lemma LeakPermanent(w: World, p: int, cmd: string, failed: seq<bool>, text: string)
    requires Leaked(w) && 0 <= p < MaxClients && |failed| == MaxClients
    ensures ReserveSpec(w) == (w, Rejected(FullReply))
    ensures Leaked(Handle(w, p, cmd).0)
    ensures Leaked(JoinSpec(w, p).0)
    ensures Leaked(DisconnectSpec(w, p).0)
    ensures Leaked(BroadcastUpTo(w, failed, text, MaxClients).0)
  {
    HandlePreservesInv(w, p, cmd);
    HandleBounds(w, p, cmd);
    JoinPreservesInv(w, p);
    DisconnectPreservesInv(w, p);
    BroadcastPreservesInv(w, failed, text, MaxClients);
    BroadcastDrops(w, failed, text, MaxClients);
    if StartsWith(cmd, "MOVE") || StartsWith(cmd, "JUMP") {
      var step := if StartsWith(cmd, "MOVE") then 1 else 2;
      if ParseDir(cmd).Some? {
        MoveContained(w, p, cmd, step);
      }
    }
    if !StartsWith(cmd, "MOVE") && StartsWith(cmd, "ATTACK") {
      AttackRule(w, p);
      NoKills(w, p, MaxClients);
    }
    if !StartsWith(cmd, "MOVE") && !StartsWith(cmd, "ATTACK") && StartsWith(cmd, "QUIT") {
      QuitRule(w, p);
    }
  }

  /** With every slot empty no victim is counted as killed: its notice raises
      before the decrement. */
  lemma {:induction false} NoKills(w: World, p: int, n: nat)
    requires WellFormed(w) && 0 <= p < MaxClients && n <= MaxClients
    requires forall i :: 0 <= i < MaxClients ==> !w.sockets[i]
    ensures Killed(w, p, n) == []
    decreases n
  {
    if n > 0 {
      NoKills(w, p, n - 1);
    }
  }
}
