# Battle Game server: the shared game state and its commands

A model of the state-changing core of `server.py`, a TCP server for an ASCII
"Battle Game" with up to four players. The players walk around a 5x5 grid that
holds obstacles (`#`) and health potions (`+`). They MOVE and JUMP, ATTACK
their neighbours, chat with SAY and leave with QUIT. After every command the
server redraws the grid and broadcasts a textual snapshot of the state.

The model has two layers.

- **Rules** is the value layer. A `World` holds the grid, the four player
  records, `clientCount` and the slot table. Every piece of server code that
  runs under the state lock becomes a function from one `World` to the next,
  together with the messages it sends: the redraw, each command branch, the
  join, the disconnect cleanup, the slot reservation of the accept loop and
  the broadcast. `Rules.Inv` is the invariant of the shared state:
  - the grid keeps its shape;
  - each record stays in -1..4;
  - an active record stands inside the grid;
  - no record stands on terrain, and terrain never appears where it was not
    at start;
  - each live record's cell shows a player letter;
  - `Occupied(sockets) <= clientCount <= 4`.
- **Server.GameState** is the imperative layer. It is a class with the
  server's own fields:
  - the grid is an `array2<char>`, updated in place;
  - `players` and `clientSockets` are sequences the methods reassign;
  - `clientCount` is an integer.

  Each method follows the source's loops and branches. It is proved to leave
  the object in exactly the state the matching Rules function computes, and
  the methods that the lock guards also keep `Rules.Inv`.

The properties proved over the value layer:
- which direction a command selects;
- when a move happens, and that a mover never lands on a live player;
- who an ATTACK hurts and kills, and when the death notice raises;
- what QUIT, SAY, a join and a disconnect change and whom they message;
- what a broadcast sends and which slots it empties;
- that the state text carries the grid exactly.

The capacity fact the accept loop relies on is also proved. Every taken slot
is counted in `clientCount`. So while `clientCount < 4`, the slot search
always finds an empty slot and never leaves `slot` at `None`.

A disconnect without QUIT empties the slot but does not lower `clientCount`
(server.py:450-455). QUIT and a kill by ATTACK both lower it. So the
invariant is `<=` and not `==`. `Properties.CapacityLeak` proves the
consequence. After four clients have each connected and dropped without
QUIT, every slot is empty, yet the next client is refused with
"Server is full.". `Properties.LeakPermanent` shows that the server then
refuses every later client for good. A refusal changes nothing, and nothing
can fill a slot again. Nothing can lower `clientCount` either: QUIT lowers it
only when the quitter's slot is taken (server.py:300-316), and an ATTACK kill
on an empty slot raises at the death notice (server.py:276), before the
decrement (server.py:285).

Python-specific behaviour is written out.
- **Negative indexes.** `grid[-1][c]` reaches the last row (`Board.Wrap`).
  DOWN and RIGHT test only the upper bound (`Rules.BoundAsWritten`); on
  coordinates in -1..4 that test is still exact (`Properties.BoundTestSound`).
- **`in` on strings** is substring search (`Text.Contains`), and the direction
  is chosen by the `if "UP" in cmd ... elif "RIGHT" in cmd` chain in that
  order.
- **`str.split(' ')`** keeps empty fields (`Text.Split`).
- **Sending to an empty slot.** `.send` on `None` raises an AttributeError,
  which `handleCommand` does not catch. The model records this as
  `Effect.raised`: the reply to an invalid command, or an ATTACK death notice
  to a victim whose slot is empty. The command stops there.
- **Broadcast failures.** Which sends of a broadcast fail is a parameter,
  `failed`. The slot of a failed send is emptied, as `broadcastState` does.

The modules follow the parts of `server.py`:
- `Text` models the Python string operations the source uses (`str`, `in`, `split`, `+=`);
- `Board` holds the grid, its cells and `refreshPlayerPositions`;
- `Slots` holds the `g_clientSockets` table and the free-slot search of `main`;
- `Rules` holds the `World` value and one function per locked block:
  `initGameState`, each `handleCommand` branch, the join and cleanup in
  `clientHandler`, the reservation in `main`, and `broadcastState`;
- `Render` holds `buildStateString`;
- `Invariants` proves that each of those blocks keeps `Rules.Inv`;
- `Properties` states what each block does;
- `Server` is the imperative `GameState` class.

## Model

The value functions that define the model have no rows of their own:
- the Rules functions (`MoveSpec`, `AttackSpec`, `QuitSpec`, `SaySpec`,
  `Handle`, `ReserveSpec`, `JoinSpec`, `DisconnectSpec`, `DropSpec` and the
  rest);
- `Board.Place` and `Board.Refreshed`;
- `Render.StateText`, `Render.Roster`, `Render.PlayerLine`, `Render.ReadGrid`,
  `Render.LineCount` and `Render.ActiveCount`;
- `Text.IntToString`, `Text.Contains`, `Text.StartsWith`, `Text.Concat`,
  `Text.Unspaced` and `Text.AfterFirst`;
- `Slots.Recipients`.

Each is either a specification that a method row below is proved equal to,
or a definition used by the lemma rows, which state what it means.

| member | source | states |
|---|---|---|
| Server.GameState.constructor | server.py:52-87 | the new object holds the initial grid ('.' everywhere, '#' at (2,2), '+' at (3,1), (0,4), (1,3), (2,3)), four records at (-1,-1) with 100 HP and inactive, clientCount 0 and no socket; Rules.Inv holds |
| Server.GameState.NewGrid | server.py:54-68 | the fresh 5x5 array holds InitialCell at every cell; the later '+' at (1,3) overwrites the '#' written there |
| Server.GameState.SetGrid | server.py:183 | writing one cell changes that cell of the grid and no other |
| Server.GameState.RefreshPlayerPositions | server.py:94-110 | after the clearing and placing loops the grid equals Refreshed(old grid, players): terrain is kept, every other cell becomes '.', and each live record's letter is written in slot order |
| Server.GameState.BuildStateString | server.py:116-140 | the returned text is StateText of the grid and records: "STATE\n", the five rows each followed by a line break, "Players:\n", then one line per active record |
| Server.GameState.RowString | server.py:123-125 | the inner loop over one row yields that row's cells in order |
| Server.GameState.BroadcastState | server.py:147-156 | sends the state text built before the loop to each taken slot in order; a slot whose send fails is emptied and gets no message; grid, records and clientCount stay unchanged |
| Server.GameState.Invalid | server.py:248-249 | "Invalid command" goes to the sender's slot only, and if that slot is empty the send raises |
| Server.GameState.Step | server.py:174-247 | one MOVE/JUMP direction branch: the new state is MoveSpec of the old one, i.e. the source's destination, bound test, '.'/'+' test, 5 HP pickup bonus and redraw |
| Server.GameState.Destination | server.py:176-181 | the destination is the record's position shifted by the step along the direction, and the bound test is the one written for that direction (upper bound only for DOWN and RIGHT); a destination that passes lies in -1..4 on both axes |
| Server.GameState.MoveTo | server.py:181-188 | clears the old cell, gives the record the destination (with 5 more HP when the destination held '+', tested after the clear) and writes the mover's letter there |
| Server.GameState.StepCommand | server.py:173-249 | the `"UP" in cmd ... elif "RIGHT" in cmd` chain with step 1 (MOVE) or 2 (JUMP): a move in the first direction word found, or "Invalid command" when none is found |
| Server.GameState.AttackSweep | server.py:257-286 | the loop over the records, run on copies of the records, slots and count, ends in exactly the sweep AttackUpTo defines: hits, kills, notices, emptied slots, the lowered count, and a stop at the first raise |
| Server.GameState.Attack | server.py:251-290 | the loop over the records matches AttackSpec: 10 HP off every live neighbour; each killed one is deactivated, notified, its slot emptied and clientCount lowered; a kill whose slot is already empty raises and stops the command before the redraw |
| Server.GameState.SendToEach | server.py:303-307 | a send loop over the slot table sends the text to every taken slot other than `skip`, in slot order |
| Server.GameState.Vacate | server.py:295-299 | QUIT takes the record off the board at (-1,-1), inactive with its health kept, and clears its old cell |
| Server.GameState.Quit | server.py:292-320 | the new state and messages are QuitSpec: when p's slot is taken, every taken slot gets "Player p has quit the game.", then p's slot is emptied and clientCount drops by one; the redraw follows either way |
| Server.GameState.ChatText | server.py:389-395 | the chat text is "SAY Player<p>: " followed by every split field after the first, concatenated |
| Server.GameState.Say | server.py:388-411 | the chat text goes to every taken slot except the sender's; records, slots and count stay unchanged; the redraw follows |
| Server.GameState.HandleCommand | server.py:164-413 | the startswith dispatch MOVE, ATTACK, QUIT, JUMP, SAY, else invalid, gives exactly Rules.Handle's state and effect; a command that ends in a broadcast also performs it; Rules.Inv is kept |
| Server.GameState.FreeSlot | server.py:497-501 | the search loop stops at the lowest empty slot; with fewer than four counted clients it never runs off the table |
| Server.GameState.Reserve | server.py:488-504 | refuses with "Server is full." when clientCount >= 4 and changes nothing; otherwise stores the client in the lowest empty slot, which is proved to exist, and counts it; Rules.Inv is kept |
| Server.GameState.Join | server.py:425-434 | resets p's record to (p, 0) with 100 HP, active, redraws, sends READY and broadcasts; Rules.Inv is kept |
| Server.GameState.Disconnect | server.py:450-455 | deactivates p's record, clears its cell, empties its slot, redraws and broadcasts, leaving clientCount as it is; Rules.Inv is kept |
| Invariants.InitialInv | server.py:52-87 | the initial state satisfies the shared-state invariant |
| Invariants.RedrawnInv | server.py:94-110 | a redraw of a grid with no new terrain and no terrain under any record yields a state that satisfies the invariant, given on-grid active records and a covered slot table |
| Invariants.MovePreservesInv | server.py:174-247 | a MOVE or JUMP keeps the invariant |
| Invariants.MovedInv | server.py:181-191 | a move to an open cell, followed by the redraw, keeps the invariant |
| Invariants.TargetOnBoard | server.py:176-181 | a destination that passes the bound test lies in -1..4, inside the grid when the mover was, and is never the mover's own cell |
| Invariants.OthersOffTerrain | server.py:184-188 | when only the mover's record changes and the grid gains no terrain, no record stands on terrain provided the mover does not |
| Invariants.AttackSweepCount | server.py:283-286 | the ATTACK loop lowers clientCount exactly by the number of taken slots it empties, and never fills a slot |
| Invariants.AttackSweepLive | server.py:257-286 | the ATTACK loop never activates or revives a record |
| Invariants.AttackPreservesInv | server.py:251-290 | an ATTACK, completed or stopped by a raise, keeps the invariant |
| Invariants.VacatedInv | server.py:295-299 | taking a record off the board at (-1,-1), clearing its old cell and redrawing keeps the invariant under any slot table that clientCount still covers |
| Invariants.QuitPreservesInv | server.py:292-320 | QUIT keeps the invariant, including the count bound after the slot is emptied |
| Invariants.SayPreservesInv | server.py:388-411 | SAY keeps the invariant |
| Invariants.HandlePreservesInv | server.py:164-413 | every command, whatever its text, keeps the invariant |
| Invariants.ReservePreservesInv | server.py:488-504 | the slot reservation keeps Occupied(sockets) <= clientCount <= 4 |
| Invariants.JoinPreservesInv | server.py:425-434 | the join keeps the invariant: the new record stands on the terrain-free column-0 cell of its own row |
| Invariants.DisconnectPreservesInv | server.py:450-455 | the cleanup keeps the invariant although clientCount is not lowered |
| Invariants.DropPreservesInv | server.py:153-156 | emptying one slot after a failed send keeps the invariant |
| Invariants.BroadcastPreservesInv | server.py:147-156 | a broadcast that drops failed slots keeps the invariant |
| Properties.CanonicalDirection | server.py:173-174 | "MOVE <DIR>" and "JUMP <DIR>" select their own direction: no earlier word of the `in` chain occurs in them |
| Properties.JumpHasNoUp | server.py:174 | "JUMP " followed by a word without 'U' does not contain "UP" |
| Properties.DirectionPresent | server.py:174 | "<4-letter keyword> <DIR>" contains its own direction word |
| Properties.NoUpBefore | server.py:174 | "MOVE"/"JUMP" followed by DOWN, LEFT or RIGHT does not contain "UP" |
| Properties.NoDownBefore | server.py:193 | "MOVE"/"JUMP" followed by LEFT or RIGHT does not contain "DOWN" |
| Properties.NoLeftBefore | server.py:212 | "MOVE"/"JUMP" followed by RIGHT does not contain "LEFT" |
| Properties.BoundTestSound | server.py:181 | the bound tests as written (upper bound only for DOWN and RIGHT) hold exactly when the moved coordinate lands in 0..4 |
| Properties.MoveTaken | server.py:181-191 | when the moved coordinate lands in 0..4 and the destination holds '.' or '+', the record takes the destination and gains 5 HP for a '+', the '+' is used up, the grid is redrawn, and sockets and count stay |
| Properties.MoveBlocked | server.py:181-191 | when either test fails, records, slots and count stay and the grid is only redrawn |
| Properties.MovedGrid | server.py:184-191 | after a move and the redraw the grid is the old grid with the destination cleared, redrawn; the mover's old cell needs no separate treatment |
| Properties.MoveNeverStacks | server.py:181 | after a move whose tests pass, no other live player stands on the mover's cell, and that cell shows the mover's letter when the mover is live |
| Properties.AdjacentIsDistanceOne | server.py:259-266 | the elif chain tests exactly Manhattan distance 1 |
| Properties.AttackStops | server.py:268-286 | the ATTACK loop raises exactly when it reaches a victim whose slot is empty, and leaves later records and slots untouched |
| Properties.AttackRecords | server.py:257-286 | each reached record is struck, the others are unchanged, and a slot is emptied exactly when its record is killed |
| Properties.AttackNotices | server.py:272-286 | one "You were killed by Player <letter>" per victim killed, in slot order, and clientCount lowered by the number killed |
| Properties.AttackHalts | server.py:275 | once the loop has raised, no later record is visited |
| Properties.AttackRule | server.py:251-290 | the whole ATTACK: hits, kills, notices, slots, count, the attacker never hit, a raise iff some victim's slot is empty, and no raise when every live player is connected |
| Properties.SendAllReaches | server.py:305-307 | every slot in the recipient list gets the message |
| Properties.SendLoop | server.py:303-307 | a send loop sends one message per taken slot other than the skipped one, each with the same text, each taken slot reached |
| Properties.QuitRule | server.py:292-320 | QUIT moves the record off the board, no cell shows its letter, every taken slot (the quitter's too) is told, and the slot and count drop only when the slot was taken |
| Properties.SayRule | server.py:388-411 | SAY sends "SAY Player<p>: " plus the text after the first space with the spaces removed to every other taken slot, and changes no record, slot or count |
| Properties.Survivors | server.py:148-156 | the slots left taken after the failed sends below n: those taken whose send did not fail |
| Properties.BroadcastDrops | server.py:147-156 | a broadcast empties exactly the taken slots whose send fails; grid, records and count stay |
| Properties.BroadcastSends | server.py:147-156 | a broadcast sends the text, in slot order, to exactly the taken slots whose send succeeds |
| Properties.InvalidRule | server.py:247-249 | an unrecognised command, or MOVE/JUMP without a direction word, changes nothing and is not broadcast; the sender alone is told "Invalid command", or the send raises when its slot is empty |
| Properties.MoveContained | server.py:174-247 | a MOVE or JUMP whose direction parses moves no other player, fills no slot, does not raise clientCount, sends nothing of its own, never raises, and ends in a broadcast |
| Properties.AttackContained | server.py:251-290 | an ATTACK moves no other player, fills no slot, does not raise clientCount, and ends in exactly one of a broadcast and a raise |
| Properties.QuitContained | server.py:292-320 | QUIT moves no other player, fills no slot, does not raise clientCount, never raises, and ends in a broadcast |
| Properties.HandleBounds | server.py:164-413 | any command leaves the other players where they stand, only ever empties slots, never raises clientCount, and ends in a broadcast, a raise or the invalid reply |
| Properties.FreeSlotBelowCapacity | server.py:497-501 | while clientCount < 4 and every taken slot is counted, some slot is empty |
| Properties.ReserveRule | server.py:488-504 | refusal iff clientCount >= 4; otherwise the lowest empty slot is taken and counted, nothing else changes |
| Properties.JoinRule | server.py:425-434 | the joining record is (p, 0, 100 HP, active), p gets READY, and cell (p,0) shows p's letter unless a higher live slot stands there too |
| Properties.DisconnectRule | server.py:450-455 | the cleanup deactivates the record where it stands, no cell shows its letter, its slot is emptied and clientCount is unchanged |
| Properties.Visit | server.py:450-455 | a client that connects, joins and drops without QUIT leaves every slot as it was but clientCount one higher |
| Properties.Visits | server.py:450-455 | k such visits raise clientCount by k and leave the slots as they were |
| Properties.LeakFrom | server.py:488-504 | from any state with no slot taken and nobody counted, four join-and-drop visits leave every slot empty and the next client refused by a reservation that leaves the state unchanged |
| Properties.CapacityLeak | server.py:491-492 | after four such visits from the start every slot is empty, yet the next client is refused with "Server is full." and the refusal leaves the state unchanged, so further clients are refused too |
| Properties.LeakPermanent | server.py:164-413 | once every slot is empty and clientCount is 4, a reservation is refused with no change, and every command, join, disconnect cleanup and broadcast keeps the state that way, so the server is full for good |
| Properties.NoKills | server.py:274-286 | with every slot empty an ATTACK counts no kill: each death notice raises before clientCount is lowered |
| Board.Wrap | server.py:183 | Python list indexing: an index in -5..-1 counts from the end, a non-negative one is itself |
| Board.SetCell | server.py:183 | `grid[r][c] = ch` changes that one cell |
| Board.Cleared | server.py:100-103 | the clearing pass keeps '#' and '+' and makes every other cell '.' |
| Board.TopAt | server.py:106-110 | the slot whose letter the placing pass leaves in a cell: the highest live record standing there |
| Board.PlaceCell | server.py:106-110 | after the placing pass over n records a cell shows the highest live record standing there, or its cleared value |
| Board.RefreshedCell | server.py:94-110 | cell by cell, the redraw shows the highest live record standing there, or keeps the terrain, or '.' |
| Board.RefreshIdempotent | server.py:94-110 | redrawing twice equals redrawing once |
| Board.RefreshShrinks | server.py:94-110 | the redraw never creates terrain |
| Board.WriteAbsorbed | server.py:299 | clearing a non-terrain cell right before a redraw makes no difference to the redrawn grid |
| Board.RefreshSameTerrain | server.py:94-110 | the redraw depends only on where the terrain is |
| Board.RefreshedHides | server.py:106-110 | after a redraw no cell shows the letter of a record that is not live |
| Board.Marker | server.py:110 | `chr(ord('A') + i)` is a letter 'A'..'D' |
| Slots.Occupied | server.py:46 | the number of taken slots is at most the table size |
| Slots.OccupiedUpdate | server.py:286 | emptying a taken slot lowers the count of taken slots by one, filling an empty one raises it by one |
| Slots.AllTaken | server.py:497-501 | with every slot taken the count is the table size |
| Slots.LowestFree | server.py:497-501 | the slot the search picks is empty and every lower slot is taken |
| Slots.RecipientsExact | server.py:303-307 | the slots a send loop reaches are exactly the taken slots other than the skipped one, each once, in ascending order |
| Slots.RecipientsCount | server.py:303-307 | a send loop reaches as many slots as are taken, less the skipped one when it is taken |
| Rules.AttackKeepsPlaces | server.py:257-286 | the ATTACK loop changes health and activity, never a position |
| Rules.SendAllAppend | server.py:303-307 | one more recipient appends one message |
| Rules.SendStep | server.py:303-307 | one more iteration of a send loop sends to slot i exactly when it is taken and not skipped |
| Render.RowsText | server.py:123-125 | the grid rows take six characters each |
| Render.RowsTextCell | server.py:123-125 | character c of row r's line is the cell (r, c), and the sixth is the line break |
| Render.StateTextCell | server.py:116-128 | character k of line r + 1 of the state text is character k of grid row r followed by its line break |
| Render.GridRoundTrip | server.py:116-140 | the state text opens with "STATE", each of the next five lines is one grid row, "Players:" follows, and reading the cells back gives the grid |
| Render.LineCountAppend | server.py:116-140 | the line breaks of two texts glued together add up |
| Render.NoLineInside | server.py:138 | a text without a line break counts none |
| Render.RosterStep | server.py:132-138 | one more record adds one roster line when it is active, none otherwise |
| Render.RosterLines | server.py:132-138 | the roster has one line per active record |
| Render.PlayerLineIsOneLine | server.py:138 | a roster line holds exactly one line break, at its end |
| Text.NatToStringRoundTrip | server.py:138 | the decimal text of a natural number parses back to it |
| Text.IntToStringRoundTrip | server.py:138 | `str` of an integer parses back to it |
| Text.NoNewlineInNumber | server.py:138 | a rendered integer holds no line break |
| Text.Split | server.py:389 | `cmd.split(' ')` yields at least one field and no field holds the separator |
| Text.SplitJoin | server.py:389 | joining the split fields with the separator gives back the string |
| Text.ConcatSplit | server.py:389-395 | gluing all split fields drops exactly the separators |
| Text.ConcatTail | server.py:389-395 | gluing every field but the first gives the text after the first separator, with the separators dropped |
| Text.ConcatAppend | server.py:394-395 | appending one more field to the glued text |
| Text.GlueNext | server.py:394-395 | one more pass of `msg += i` extends the message by the next field of `msg_cmd[1:]` |
| Text.ContainsSuffix | server.py:174 | an occurrence in a suffix is an occurrence in the whole command |
| Text.NotContainsWithoutHead | server.py:174 | a string with no character equal to the word's first character does not contain the word |

## Left out

- Sockets, `recv`/`send` I/O, encoding, `close`, the listening socket and `main`'s argument parsing (server.py:461-517): the model has no network. Messages are values of type `Message`, and a socket is one `bool` per slot.
- Threads and `g_stateLock`: every locked block is one atomic method. The interleaving of client threads is not modelled.
- `time.sleep` and `print`: they have no effect on the state.
- The receive loop of `clientHandler` (server.py:436-448): each received command is one call of `HandleCommand`, and the end of the loop is a call of `Disconnect`.
- What happens to a thread after an uncaught exception in `handleCommand`. The model returns `raised` and the state reached so far. A thread that dies without running its cleanup is not modelled.
- Server.GameState.Say: a failing send inside the SAY loop (server.py:404-408) is not modelled. Every send to a taken slot is taken to succeed, so the loop never empties a slot.
- Server.GameState.Quit: a socket error in the QUIT send loop (server.py:304-309), which ends that loop early, is not modelled. The notice is taken to reach every taken slot.
- Server.GameState.Attack: a socket error when sending the death notice (server.py:275-278) is caught by the source and changes no state, so it is not modelled.
- Server.GameState.BroadcastState: a failed send empties the slot whose socket failed. The source finds that slot by `g_clientSockets.index(sock)`. Each slot holds its own socket, so that is the same slot; the lookup itself is not modelled.
- Integers are unbounded: health only ever changes by ±5 and −10, and Python's integers do not overflow.
- client.py is not part of this model.
