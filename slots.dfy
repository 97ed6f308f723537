/** The occupancy table `g_clientSockets` (server.py:46), reduced to one
    boolean per slot: true when the slot holds a socket. */
module Slots {

  /** How many slots hold a socket. */
  function Occupied(s: seq<bool>): (n: nat)
    ensures n <= |s|
  {
    if |s| == 0 then 0 else Occupied(s[..|s| - 1]) + (if s[|s| - 1] then 1 else 0)
  }

  /** Emptying an occupied slot lowers the count by one; filling an empty one
      raises it by one; writing the value a slot already has changes nothing. */
  lemma {:induction false} OccupiedUpdate(s: seq<bool>, i: nat, b: bool)
    requires i < |s|
    ensures Occupied(s[i := b]) == Occupied(s) - (if s[i] then 1 else 0) + (if b then 1 else 0)
    decreases |s|
  {
    var t := s[i := b];
    if i < |s| - 1 {
      assert t[..|t| - 1] == s[..|s| - 1][i := b];
      OccupiedUpdate(s[..|s| - 1], i, b);
    } else {
      assert t[..|t| - 1] == s[..|s| - 1];
    }
  }

  /** When every slot is taken, the count is the table size. */
  lemma {:induction false} AllTaken(s: seq<bool>)
    requires forall j :: 0 <= j < |s| ==> s[j]
    ensures Occupied(s) == |s|
    decreases |s|
  {
    if |s| > 0 {
      AllTaken(s[..|s| - 1]);
    }
  }

  /** With no slot taken, the count is zero. */
  lemma {:induction false} NoneTaken(s: seq<bool>)
    requires forall j :: 0 <= j < |s| ==> !s[j]
    ensures Occupied(s) == 0
    decreases |s|
  {
    if |s| > 0 {
      NoneTaken(s[..|s| - 1]);
    }
  }

  /** The slot the accept loop picks: the lowest empty one. It exists whenever
      fewer slots are taken than there are. */
  function LowestFree(s: seq<bool>): (i: nat)
    requires Occupied(s) < |s|
    ensures i < |s| && !s[i]
    ensures forall j :: 0 <= j < i ==> s[j]
  {
    if !s[0] then 0
    else
      assert Occupied(s[1..]) < |s[1..]| by {
        OccupiedUpdate(s, 0, false);
        assert s[0 := false] == [false] + s[1..];
        OccupiedPrefix(s[1..]);
      }
      1 + LowestFree(s[1..])
  }

  /** Occupied counts a leading empty slot as nothing. */
  lemma {:induction false} OccupiedPrefix(s: seq<bool>)
    ensures Occupied([false] + s) == Occupied(s)
    decreases |s|
  {
    if |s| > 0 {
      assert ([false] + s)[..|s|] == [false] + s[..|s| - 1];
      OccupiedPrefix(s[..|s| - 1]);
    }
  }

  /** The taken slots below n other than `skip`, in ascending order: the
      recipients of a `for i, sock in enumerate(g_clientSockets)` send loop. */
  function Recipients(s: seq<bool>, skip: int, n: nat): seq<nat>
    requires n <= |s|
  {
    if n == 0 then []
    else Recipients(s, skip, n - 1) + (if s[n - 1] && n - 1 != skip then [n - 1] else [])
  }

  /** The recipients are exactly the taken slots below n other than `skip`,
      each once, in ascending order. */
  lemma {:induction false} RecipientsExact(s: seq<bool>, skip: int, n: nat)
    requires n <= |s|
    ensures var rs := Recipients(s, skip, n);
      (forall k :: 0 <= k < |rs| ==> rs[k] < n && s[rs[k]] && rs[k] != skip)
      && (forall i :: 0 <= i < n && s[i] && i != skip ==> i in rs)
      && (forall k, l :: 0 <= k < l < |rs| ==> rs[k] < rs[l])
    decreases n
  {
    if n > 0 {
      RecipientsExact(s, skip, n - 1);
    }
  }

  /** A send loop reaches every taken slot but the skipped one. */
  lemma {:induction false} RecipientsCount(s: seq<bool>, skip: int, n: nat)
    requires n <= |s|
    ensures |Recipients(s, skip, n)| == Occupied(s[..n]) - (if 0 <= skip < n && s[skip] then 1 else 0)
    decreases n
  {
    if n > 0 {
      RecipientsCount(s, skip, n - 1);
      assert s[..n][..n - 1] == s[..n - 1];
    }
  }
}
