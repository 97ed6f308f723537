/** The text `buildStateString` (server.py:116-140) sends to every client:
    "STATE", the five grid rows, "Players:", then one line per active record. */
module Render {
  import opened Text
  import opened Board

  const Header: string := "STATE\n"
  const RosterHeader: string := "Players:\n"

  /** Rows 0..n-1 of the grid, each followed by a line break. */
  function RowsText(g: Grid, n: nat): (s: string)
    requires IsGrid(g) && n <= Rows
    ensures |s| == (Cols + 1) * n
  {
    if n == 0 then "" else RowsText(g, n - 1) + g[n - 1] + "\n"
  }

  /** The roster line of record i. */
  function PlayerLine(i: int, pl: Player): string
  {
    "  Player " + IntToString(i) + ": HP=" + IntToString(pl.hp)
    + " Pos = (" + IntToString(pl.x) + "," + IntToString(pl.y) + ")\n"
  }

  /** The roster lines of the active records among 0..n-1, in slot order. */
  function Roster(ps: seq<Player>, n: nat): string
    requires n <= |ps|
  {
    if n == 0 then "" else Roster(ps, n - 1) + (if ps[n - 1].active then PlayerLine(n - 1, ps[n - 1]) else "")
  }

  function StateText(g: Grid, ps: seq<Player>): string
    requires IsGrid(g)
  {
    Header + RowsText(g, Rows) + RosterHeader + Roster(ps, |ps|)
  }

  /** The grid as a client reads it back: cell (r,c) is character 6 + 6r + c. */
  function ReadGrid(text: string): (g: Grid)
    requires |text| >= |Header| + (Cols + 1) * Rows
    ensures IsGrid(g)
  {
    seq(Rows, r requires 0 <= r < Rows => seq(Cols, c requires 0 <= c < Cols => text[|Header| + (Cols + 1) * r + c]))
  }

  lemma {:induction false} RowsTextCell(g: Grid, n: nat, r: int, c: int)
    requires IsGrid(g) && n <= Rows && 0 <= r < n && 0 <= c < Cols
    ensures RowsText(g, n)[(Cols + 1) * r + c] == g[r][c]
    ensures RowsText(g, n)[(Cols + 1) * r + Cols] == '\n'
    decreases n
  {
    if r < n - 1 {
      RowsTextCell(g, n - 1, r, c);
    }
  }

  /** Line r + 1 of a state text, line break included. */
  function GridLine(t: string, r: int): string
    requires |t| >= |Header| + (Cols + 1) * Rows && 0 <= r < Rows
  {
    t[|Header| + (Cols + 1) * r..|Header| + (Cols + 1) * (r + 1)]
  }

  /** Character k of line r + 1 of the state text is character k of grid
      row r followed by its line break. */
  lemma StateTextCell(g: Grid, ps: seq<Player>, r: int, k: int)
    requires IsGrid(g) && 0 <= r < Rows && 0 <= k < Cols + 1
    ensures StateText(g, ps)[|Header| + (Cols + 1) * r + k] == (g[r] + "\n")[k]
  {
    var t := StateText(g, ps);
    var rows := RowsText(g, Rows);
    assert t == Header + (rows + (RosterHeader + Roster(ps, |ps|)));
    RowsTextCell(g, Rows, r, if k < Cols then k else 0);
    assert t[|Header| + (Cols + 1) * r + k] == rows[(Cols + 1) * r + k];
  }

  /** The state text carries the grid exactly: it opens with "STATE", each of
      the next five lines is one grid row, "Players:" follows, and reading the
      cells back gives the grid. */
  lemma GridRoundTrip(g: Grid, ps: seq<Player>)
    requires IsGrid(g)
    ensures var t := StateText(g, ps);
      t[..|Header|] == Header
      && (forall r :: 0 <= r < Rows ==> GridLine(t, r) == g[r] + "\n")
      && t[|Header| + (Cols + 1) * Rows..][..|RosterHeader|] == RosterHeader
      && ReadGrid(t) == g
  {
    var t := StateText(g, ps);
    var rows := RowsText(g, Rows);
    assert t == Header + rows + RosterHeader + Roster(ps, |ps|);
    forall r | 0 <= r < Rows
      ensures GridLine(t, r) == g[r] + "\n"
    {
      var line, want := GridLine(t, r), g[r] + "\n";
      forall k | 0 <= k < Cols + 1
        ensures line[k] == want[k]
      {
        StateTextCell(g, ps, r, k);
      }
    }
    forall r, c | 0 <= r < Rows && 0 <= c < Cols
      ensures ReadGrid(t)[r][c] == g[r][c]
    {
      StateTextCell(g, ps, r, c);
    }
    GridExt(ReadGrid(t), g);
  }

  /** How many line breaks a text holds. */
  function LineCount(s: string): nat
  {
    if |s| == 0 then 0 else LineCount(s[..|s| - 1]) + (if s[|s| - 1] == '\n' then 1 else 0)
  }

  lemma {:induction false} LineCountAppend(s: string, t: string)
    ensures LineCount(s + t) == LineCount(s) + LineCount(t)
    decreases |t|
  {
    if |t| > 0 {
      assert (s + t)[..|s + t| - 1] == s + t[..|t| - 1];
      assert (s + t)[|s + t| - 1] == t[|t| - 1];
      LineCountAppend(s, t[..|t| - 1]);
    } else {
      assert s + t == s;
    }
  }

  lemma {:induction false} NoLineInside(s: string)
    requires '\n' !in s
    ensures LineCount(s) == 0
    decreases |s|
  {
    if |s| > 0 {
      assert s[|s| - 1] in s;
      NoLineInside(s[..|s| - 1]);
    }
  }

  /** Each roster line ends in its only line break. */
  lemma PlayerLineIsOneLine(i: int, pl: Player)
    ensures LineCount(PlayerLine(i, pl)) == 1
    ensures |PlayerLine(i, pl)| > 0 && PlayerLine(i, pl)[|PlayerLine(i, pl)| - 1] == '\n'
  {
    NoNewlineInNumber(i);
    NoNewlineInNumber(pl.hp);
    NoNewlineInNumber(pl.x);
    NoNewlineInNumber(pl.y);
    var body := "  Player " + IntToString(i) + ": HP=" + IntToString(pl.hp)
      + " Pos = (" + IntToString(pl.x) + "," + IntToString(pl.y) + ")";
    assert '\n' !in body;
    NoLineInside(body);
    assert PlayerLine(i, pl) == body + "\n";
    LineCountAppend(body, "\n");
  }

  /** The number of active records among 0..n-1. */
  function ActiveCount(ps: seq<Player>, n: nat): nat
    requires n <= |ps|
  {
    if n == 0 then 0 else ActiveCount(ps, n - 1) + (if ps[n - 1].active then 1 else 0)
  }

  /** One more record adds one roster line when it is active, none otherwise. */
  lemma RosterStep(ps: seq<Player>, n: nat)
    requires 0 < n <= |ps|
    ensures LineCount(Roster(ps, n)) == LineCount(Roster(ps, n - 1)) + (if ps[n - 1].active then 1 else 0)
  {
    var prev := Roster(ps, n - 1);
    if ps[n - 1].active {
      var line := PlayerLine(n - 1, ps[n - 1]);
      assert Roster(ps, n) == prev + line;
      PlayerLineIsOneLine(n - 1, ps[n - 1]);
      LineCountAppend(prev, line);
      assert LineCount(Roster(ps, n)) == LineCount(prev + line);
    } else {
      assert Roster(ps, n) == prev;
    }
  }

  /** The roster has exactly one line per active record. */
  lemma {:induction false} RosterLines(ps: seq<Player>, n: nat)
    requires n <= |ps|
    ensures LineCount(Roster(ps, n)) == ActiveCount(ps, n)
    decreases n
  {
    if n > 0 {
      RosterLines(ps, n - 1);
      RosterStep(ps, n);
    }
  }
}
