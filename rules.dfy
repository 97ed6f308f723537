/** The game rules of server.py as functions on a value of the whole shared
    state: what each locked block (one command of `handleCommand`, a join, a
    disconnect cleanup, a slot reservation) does to the state and which
    messages it sends. Sending is returned as data, not performed. */
module Rules {
  import opened Text
  import opened Board
  import opened Slots

  const StartHp: int := 100
  const PickupBonus: int := 5
  const AttackDamage: int := 10

  const InvalidReply: string := "Invalid command"
  const FullReply: string := "Server is full."
  const ReadyLine: string := "READY\n"

  datatype Option<T> = None | Some(value: T)

  /** `g_gameState` (grid, players, clientCount) together with the occupancy of
      `g_clientSockets`. */
  datatype World = World(grid: Grid, players: seq<Player>, clientCount: int, sockets: seq<bool>)

  /** One `send`/`sendall` to the socket in slot `to`. */
  datatype Message = Message(to: nat, text: string)

  /** What one locked block emits: its direct messages in order, whether it
      ends with `broadcastState()`, and whether it stopped on a Python
      exception (an AttributeError from calling a method on an empty slot). */
  datatype Effect = Effect(sent: seq<Message>, broadcast: bool, raised: bool)

  /** Outcome of the capacity check in the accept loop. */
  datatype Admission = Rejected(reply: string) | Admitted(slot: nat)

  predicate WellFormed(w: World)
  {
    IsGrid(w.grid) && |w.players| == MaxClients && Seated(w.players) && |w.sockets| == MaxClients
  }

  // ---------------------------------------------------------------------------
  // initGameState (server.py:52-87) and the socket table (server.py:46)

  /** The layout initGameState leaves: obstacle at (2,2); pickups at (3,1),
      (0,4), (2,3) and at (1,3), whose obstacle is overwritten by a pickup. */
  function InitialCell(r: int, c: int): char
  {
    if r == 2 && c == 2 then Obstacle
    else if (r == 1 && c == 3) || (r == 3 && c == 1) || (r == 0 && c == 4) || (r == 2 && c == 3) then Pickup
    else Empty
  }

  function InitialGrid(): (g: Grid)
    ensures IsGrid(g)
    ensures forall r, c :: InGrid(r, c) ==> g[r][c] == InitialCell(r, c)
  {
    seq(Rows, r => seq(Cols, c => InitialCell(r, c)))
  }

  const Unplaced: Player := Player(-1, -1, StartHp, false)

  function InitialWorld(): World
  {
    World(InitialGrid(), seq(MaxClients, _ => Unplaced), 0, seq(MaxClients, _ => false))
  }

  /** The cell `grid[x][y]` of player i's record, with Python's negative indexing. */
  function Under(w: World, i: int): char
    requires WellFormed(w) && 0 <= i < MaxClients
  {
    var p := w.players[i];
    w.grid[Wrap(p.x, Rows)][Wrap(p.y, Cols)]
  }

  /** What every locked block preserves. The third conjunct is the capacity
      bookkeeping: every taken slot is counted in clientCount. The next two say
      that terrain only disappears (a '#' or '+' is always one of the initial
      layout) and that no record's cell holds terrain. The last says that the
      cell of every live player shows a player letter. */
  ghost predicate Inv(w: World)
  {
    WellFormed(w)
    && (forall i :: 0 <= i < MaxClients && w.players[i].active ==> InGrid(w.players[i].x, w.players[i].y))
    && Occupied(w.sockets) <= w.clientCount <= MaxClients
    && (forall r, c :: InGrid(r, c) && IsTerrain(w.grid[r][c]) ==> w.grid[r][c] == InitialCell(r, c))
    && (forall i :: 0 <= i < MaxClients ==> !IsTerrain(Under(w, i)))
    && (forall i :: 0 <= i < MaxClients && Live(w.players[i]) ==> 'A' <= Under(w, i) <= 'D')
  }

  // ---------------------------------------------------------------------------
  // MOVE and JUMP (server.py:173-249, 322-387)

  datatype Dir = Up | Down | Left | Right

  function DirWord(d: Dir): string
  {
    match d
    case Up => "UP"
    case Down => "DOWN"
    case Left => "LEFT"
    case Right => "RIGHT"
  }

  /** The direction the `if "UP" in cmd ... elif "RIGHT" in cmd` chain picks. */
  function ParseDir(cmd: string): Option<Dir>
  {
    if Contains(cmd, "UP") then Some(Up)
    else if Contains(cmd, "DOWN") then Some(Down)
    else if Contains(cmd, "LEFT") then Some(Left)
    else if Contains(cmd, "RIGHT") then Some(Right)
    else None
  }

  /** The destination: x moves for UP/DOWN, y for LEFT/RIGHT, by `step` cells. */
  function Target(p: Player, d: Dir, step: int): (int, int)
  {
    match d
    case Up => (p.x - step, p.y)
    case Down => (p.x + step, p.y)
    case Left => (p.x, p.y - step)
    case Right => (p.x, p.y + step)
  }

  /** The bound test as written: UP and LEFT test both ends, DOWN and RIGHT
      only the upper one. */
  predicate BoundAsWritten(d: Dir, nx: int, ny: int)
  {
    match d
    case Up => 0 <= nx < Rows
    case Down => nx < Rows
    case Left => 0 <= ny < Cols
    case Right => ny < Cols
  }

  /** A cell a player may enter. */
  predicate Open(ch: char)
  {
    ch == Empty || ch == Pickup
  }

  /** The body of a move that passed its tests (server.py:183-188): clear the
      old cell, take the destination, add 5 HP when the destination held '+'
      (read after the clear), write the mover's letter there. No redraw yet. */
  function Moved(w: World, p: int, nx: int, ny: int): (r: World)
    requires WellFormed(w) && 0 <= p < MaxClients && -1 <= nx < Rows && -1 <= ny < Cols
    ensures WellFormed(r)
  {
    var pl := w.players[p];
    var g1 := SetCell(w.grid, Wrap(pl.x, Rows), Wrap(pl.y, Cols), Empty);
    var bonus := if g1[Wrap(nx, Rows)][Wrap(ny, Cols)] == Pickup then PickupBonus else 0;
    var g2 := SetCell(g1, Wrap(nx, Rows), Wrap(ny, Cols), Marker(p));
    w.(grid := g2, players := w.players[p := Player(nx, ny, pl.hp + bonus, pl.active)])
  }

  /** One MOVE (step 1) or JUMP (step 2) branch: if the destination passes the
      bound test and holds '.' or '+', the move; then the redraw in every case. */
  function MoveSpec(w: World, p: int, d: Dir, step: int): (r: World)
    requires WellFormed(w) && 0 <= p < MaxClients && (step == 1 || step == 2)
    ensures WellFormed(r)
  {
    var t := Target(w.players[p], d, step);
    if BoundAsWritten(d, t.0, t.1) && Open(w.grid[Wrap(t.0, Rows)][Wrap(t.1, Cols)]) then
      var m := Moved(w, p, t.0, t.1);
      m.(grid := Refreshed(m.grid, m.players))
    else
      w.(grid := Refreshed(w.grid, w.players))
  }

  /** The reply to an unrecognised command, sent to the sender's slot only. An
      empty slot makes `.send` raise. */
  function InvalidSpec(w: World, p: int): (r: (World, Effect))
    requires WellFormed(w) && 0 <= p < MaxClients
    ensures WellFormed(r.0)
  {
    if w.sockets[p] then (w, Effect([Message(p, InvalidReply)], false, false))
    else (w, Effect([], false, true))
  }

  function StepCommand(w: World, p: int, cmd: string, step: int): (r: (World, Effect))
    requires WellFormed(w) && 0 <= p < MaxClients && (step == 1 || step == 2)
    ensures WellFormed(r.0)
  {
    match ParseDir(cmd)
    case Some(d) => (MoveSpec(w, p, d, step), Effect([], true, false))
    case None => InvalidSpec(w, p)
  }

  // ---------------------------------------------------------------------------
  // ATTACK (server.py:251-290)

  function Abs(n: int): nat
  {
    if n < 0 then -n else n
  }

  /** The elif chain of server.py:259-266: one cell up, down, left or right. */
  predicate Adjacent(v: Player, ox: int, oy: int)
  {
    (v.x == ox - 1 && v.y == oy) || (v.x == ox + 1 && v.y == oy)
    || (v.x == ox && v.y == oy - 1) || (v.x == ox && v.y == oy + 1)
  }

  function DeathNotice(p: int): string
    requires 0 <= p < MaxClients
  {
    "You were killed by Player " + [Marker(p)]
  }

  /** The state the ATTACK loop carries from one record to the next. */
  datatype Sweep = Sweep(players: seq<Player>, sockets: seq<bool>, clientCount: int, sent: seq<Message>, raised: bool)

  /** One iteration of the ATTACK loop on record i, the attacker p standing at (ox, oy). */
  function AttackVisit(a: Sweep, i: int, ox: int, oy: int, p: int): (b: Sweep)
    requires 0 <= i < |a.players| && |a.sockets| == |a.players| && 0 <= p < MaxClients
    ensures |b.players| == |a.players| && |b.sockets| == |a.sockets|
  {
    var v := a.players[i];
    if !Live(v) then a
    else
      var hp := if Adjacent(v, ox, oy) then v.hp - AttackDamage else v.hp;
      if hp > 0 then a.(players := a.players[i := v.(hp := hp)])
      else if !a.sockets[i] then a.(players := a.players[i := v.(hp := hp)], raised := true)
      else Sweep(a.players[i := Player(v.x, v.y, hp, false)], a.sockets[i := false],
                 a.clientCount - 1, a.sent + [Message(i, DeathNotice(p))], false)
  }

  /** The ATTACK loop over records 0..n-1; it stops at the first exception. */
  function AttackUpTo(w: World, p: int, n: nat): (a: Sweep)
    requires WellFormed(w) && 0 <= p < MaxClients && n <= MaxClients
    ensures |a.players| == MaxClients && |a.sockets| == MaxClients
  {
    if n == 0 then Sweep(w.players, w.sockets, w.clientCount, [], false)
    else
      var a := AttackUpTo(w, p, n - 1);
      if a.raised then a else AttackVisit(a, n - 1, w.players[p].x, w.players[p].y, p)
  }

  /** The ATTACK loop changes health and activity, never a position. */
  lemma {:induction false} AttackKeepsPlaces(w: World, p: int, n: nat)
    requires WellFormed(w) && 0 <= p < MaxClients && n <= MaxClients
    ensures forall j :: 0 <= j < MaxClients ==>
      AttackUpTo(w, p, n).players[j].x == w.players[j].x && AttackUpTo(w, p, n).players[j].y == w.players[j].y
    decreases n
  {
    if n > 0 {
      AttackKeepsPlaces(w, p, n - 1);
    }
  }

  function AttackSpec(w: World, p: int): (r: (World, Effect))
    requires WellFormed(w) && 0 <= p < MaxClients
    ensures WellFormed(r.0)
  {
    var a := AttackUpTo(w, p, MaxClients);
    AttackKeepsPlaces(w, p, MaxClients);
    assert Seated(a.players);
    if a.raised then (World(w.grid, a.players, a.clientCount, a.sockets), Effect(a.sent, false, true))
    else (World(Refreshed(w.grid, a.players), a.players, a.clientCount, a.sockets), Effect(a.sent, true, false))
  }

  // ---------------------------------------------------------------------------
  // QUIT (server.py:292-320) and SAY (server.py:388-411)

  /** One message with the same text to each slot of rs, in order. */
  function SendAll(rs: seq<nat>, text: string): (ms: seq<Message>)
    ensures |ms| == |rs|
    ensures forall k :: 0 <= k < |rs| ==> ms[k] == Message(rs[k], text)
  {
    if |rs| == 0 then [] else [Message(rs[0], text)] + SendAll(rs[1..], text)
  }

  /** Sending to one more slot after rs appends one message. */
  lemma SendAllAppend(rs: seq<nat>, k: nat, text: string)
    ensures SendAll(rs + [k], text) == SendAll(rs, text) + [Message(k, text)]
  {
    var a, b := SendAll(rs + [k], text), SendAll(rs, text) + [Message(k, text)];
    assert |a| == |b|;
    forall j | 0 <= j < |a|
      ensures a[j] == b[j]
    {
      if j < |rs| {
        assert (rs + [k])[j] == rs[j];
      }
    }
  }

  /** One more iteration of a send loop: slot i gets the text exactly when it
      is taken and is not the skipped one. */
  lemma SendStep(s: seq<bool>, skip: int, i: nat, text: string)
    requires i < |s|
    ensures SendAll(Recipients(s, skip, i + 1), text)
      == SendAll(Recipients(s, skip, i), text) + (if s[i] && i != skip then [Message(i, text)] else [])
  {
    var rs := Recipients(s, skip, i);
    if s[i] && i != skip {
      SendAllAppend(rs, i, text);
    } else {
      assert rs + [] == rs;
    }
  }

  function QuitNotice(p: int): string
  {
    "Player " + IntToString(p) + " has quit the game."
  }

  function QuitSpec(w: World, p: int): (r: (World, Effect))
    requires WellFormed(w) && 0 <= p < MaxClients
    ensures WellFormed(r.0)
  {
    var pl := w.players[p];
    var ps := w.players[p := Player(-1, -1, pl.hp, false)];
    var g1 := SetCell(w.grid, Wrap(pl.x, Rows), Wrap(pl.y, Cols), Empty);
    if w.sockets[p] then
      (World(Refreshed(g1, ps), ps, w.clientCount - 1, w.sockets[p := false]),
       Effect(SendAll(Recipients(w.sockets, -1, MaxClients), QuitNotice(p)), true, false))
    else
      (World(Refreshed(g1, ps), ps, w.clientCount, w.sockets), Effect([], true, false))
  }

  /** The chat text: `SAY Player<i>: ` and the words after the first, glued together. */
  function ChatLine(p: int, cmd: string): string
  {
    "SAY Player" + IntToString(p) + ": " + Concat(Split(cmd, ' ')[1..])
  }

  function SaySpec(w: World, p: int, cmd: string): (r: (World, Effect))
    requires WellFormed(w) && 0 <= p < MaxClients
    ensures WellFormed(r.0)
  {
    (w.(grid := Refreshed(w.grid, w.players)),
     Effect(SendAll(Recipients(w.sockets, p, MaxClients), ChatLine(p, cmd)), true, false))
  }

  // ---------------------------------------------------------------------------
  // handleCommand (server.py:164-413)

  /** The keyword dispatch: a `startswith` chain in the order MOVE, ATTACK,
      QUIT, JUMP, SAY; anything else is invalid. */
  function Handle(w: World, p: int, cmd: string): (r: (World, Effect))
    requires WellFormed(w) && 0 <= p < MaxClients
    ensures WellFormed(r.0)
  {
    if StartsWith(cmd, "MOVE") then StepCommand(w, p, cmd, 1)
    else if StartsWith(cmd, "ATTACK") then AttackSpec(w, p)
    else if StartsWith(cmd, "QUIT") then QuitSpec(w, p)
    else if StartsWith(cmd, "JUMP") then StepCommand(w, p, cmd, 2)
    else if StartsWith(cmd, "SAY") then SaySpec(w, p, cmd)
    else InvalidSpec(w, p)
  }

  // ---------------------------------------------------------------------------
  // Sessions: slot reservation (server.py:488-504), join (server.py:425-434),
  // disconnect cleanup (server.py:450-455), a failed send (server.py:153-156)

  /** The accept loop's capacity check and slot search. The slot search relies on
      every taken slot being counted in clientCount. */
  function ReserveSpec(w: World): (r: (World, Admission))
    requires WellFormed(w) && Occupied(w.sockets) <= w.clientCount
    ensures WellFormed(r.0)
  {
    if w.clientCount >= MaxClients then (w, Rejected(FullReply))
    else
      var i := LowestFree(w.sockets);
      (w.(sockets := w.sockets[i := true], clientCount := w.clientCount + 1), Admitted(i))
  }

  /** The start of clientHandler: the record of slot p is reset to (p,0), full
      health, active; `READY` goes to p's socket; then a broadcast. */
  function JoinSpec(w: World, p: int): (r: (World, Effect))
    requires WellFormed(w) && 0 <= p < MaxClients
    ensures WellFormed(r.0)
  {
    var ps := w.players[p := Player(p, 0, StartHp, true)];
    (w.(grid := Refreshed(w.grid, ps), players := ps), Effect([Message(p, ReadyLine)], true, false))
  }

  /** The cleanup after p's receive loop ends: inactive, its cell written '.',
      its slot emptied, redraw and broadcast; clientCount is left alone. */
  function DisconnectSpec(w: World, p: int): (r: (World, Effect))
    requires WellFormed(w) && 0 <= p < MaxClients
    ensures WellFormed(r.0)
  {
    var pl := w.players[p];
    var ps := w.players[p := pl.(active := false)];
    var g1 := SetCell(w.grid, Wrap(pl.x, Rows), Wrap(pl.y, Cols), Empty);
    (World(Refreshed(g1, ps), ps, w.clientCount, w.sockets[p := false]), Effect([], true, false))
  }

  /** broadcastState (server.py:147-156) over slots 0..n-1: the state text to
      every taken slot in order; a slot whose send fails (`failed`, the outcome
      of the network) is closed and emptied instead. */
  function BroadcastUpTo(w: World, failed: seq<bool>, text: string, n: nat): (r: (World, seq<Message>))
    requires WellFormed(w) && |failed| == MaxClients && n <= MaxClients
    ensures WellFormed(r.0)
  {
    if n == 0 then (w, [])
    else
      var prev := BroadcastUpTo(w, failed, text, n - 1);
      if !prev.0.sockets[n - 1] then prev
      else if failed[n - 1] then (DropSpec(prev.0, n - 1), prev.1)
      else (prev.0, prev.1 + [Message(n - 1, text)])
  }

  /** A send that fails in broadcastState (or in the SAY loop) closes that
      socket and empties its slot, leaving clientCount alone. */
  function DropSpec(w: World, i: int): (r: World)
    requires WellFormed(w) && 0 <= i < MaxClients
    ensures WellFormed(r)
  {
    w.(sockets := w.sockets[i := false])
  }
}
