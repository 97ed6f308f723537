/** String helpers with the meaning Python gives them in the server:
    `s.startswith(t)`, `t in s`, `str(n)` of an integer and `s.split(' ')`. */
module Text {

  /** `s.startswith(t)` */
  predicate StartsWith(s: string, t: string)
  {
    |t| <= |s| && s[..|t|] == t
  }

  /** `t in s` for strings: t occurs somewhere in s as a contiguous block. */
  predicate Contains(s: string, t: string)
    decreases |s|
  {
    StartsWith(s, t) || (|s| > 0 && Contains(s[1..], t))
  }

  /** An occurrence inside a suffix is an occurrence in the whole string. */
  lemma {:induction false} ContainsSuffix(s: string, t: string, k: nat)
    requires k <= |s| && Contains(s[k..], t)
    ensures Contains(s, t)
    decreases k
  {
    if k > 0 {
      assert s[1..][k - 1..] == s[k..];
      ContainsSuffix(s[1..], t, k - 1);
    }
  }

  /** A string none of whose characters is the first character of t does not contain t. */
  lemma {:induction false} NotContainsWithoutHead(s: string, t: string)
    requires |t| > 0 && t[0] !in s
    ensures !Contains(s, t)
    decreases |s|
  {
    if |s| > 0 {
      assert s[0] != t[0];
      NotContainsWithoutHead(s[1..], t);
    }
  }

  // ---------------------------------------------------------------------------
  // str(n)

  function DigitChar(d: nat): (ch: char)
    requires d < 10
    ensures '0' <= ch <= '9'
  {
    ('0' as int + d) as char
  }

  predicate AllDigits(s: string)
  {
    forall k :: 0 <= k < |s| ==> '0' <= s[k] <= '9'
  }

  /** Decimal digits of n, most significant first, no leading zeros. */
  function NatToString(n: nat): (s: string)
    ensures |s| >= 1 && AllDigits(s)
    ensures |s| > 1 ==> s[0] != '0'
    decreases n
  {
    if n < 10 then [DigitChar(n)] else NatToString(n / 10) + [DigitChar(n % 10)]
  }

  /** `str(n)` of a Python int: a minus sign for negative values, then the digits. */
  function IntToString(n: int): (s: string)
  {
    if n < 0 then "-" + NatToString(-n) else NatToString(n)
  }

  /** Reads back a string of decimal digits. */
  function ParseNat(s: string): nat
    requires AllDigits(s)
  {
    if |s| == 0 then 0 else ParseNat(s[..|s| - 1]) * 10 + (s[|s| - 1] as int - '0' as int)
  }

  /** Reads back an optional minus sign followed by decimal digits. */
  function ParseInt(s: string): int
    requires |s| > 0 && (s[0] == '-' ==> AllDigits(s[1..])) && (s[0] != '-' ==> AllDigits(s))
  {
    if s[0] == '-' then -(ParseNat(s[1..]) as int) else ParseNat(s)
  }

  lemma {:induction false} NatToStringRoundTrip(n: nat)
    ensures ParseNat(NatToString(n)) == n
    decreases n
  {
    if n >= 10 {
      NatToStringRoundTrip(n / 10);
      var s := NatToString(n);
      assert s[..|s| - 1] == NatToString(n / 10);
    }
  }

  /** `str` of an int can be parsed back to the same int. */
  lemma IntToStringRoundTrip(n: int)
    ensures var s := IntToString(n);
      |s| > 0 && (s[0] == '-' ==> AllDigits(s[1..])) && (s[0] != '-' ==> AllDigits(s))
      && ParseInt(s) == n
  {
    var s := IntToString(n);
    if n < 0 {
      NatToStringRoundTrip(-n);
      assert s[1..] == NatToString(-n);
    } else {
      NatToStringRoundTrip(n);
    }
  }

  /** A rendered integer never holds a line break. */
  lemma NoNewlineInNumber(n: int)
    ensures '\n' !in IntToString(n)
  {
    var s := IntToString(n);
    if n < 0 {
      assert s == "-" + NatToString(-n);
      assert forall k :: 1 <= k < |s| ==> s[k] == NatToString(-n)[k - 1];
    }
  }

  // ---------------------------------------------------------------------------
  // s.split(sep) and the ways its pieces are glued back together

  /** `s.split(sep)` with an explicit one-character separator: every separator
      ends a field, so adjacent separators give empty fields and the result is
      never empty. */
  function Split(s: string, sep: char): (parts: seq<string>)
    ensures |parts| >= 1
    ensures forall k :: 0 <= k < |parts| ==> sep !in parts[k]
    decreases |s|
  {
    if |s| == 0 then [""]
    else
      var rest := Split(s[1..], sep);
      if s[0] == sep then [""] + rest
      else [[s[0]] + rest[0]] + rest[1..]
  }

  /** `sep.join(parts)` */
  function JoinWith(parts: seq<string>, sep: char): string
    requires |parts| >= 1
  {
    if |parts| == 1 then parts[0] else parts[0] + [sep] + JoinWith(parts[1..], sep)
  }

  /** `''.join(parts)` */
  function Concat(parts: seq<string>): string
  {
    if |parts| == 0 then "" else parts[0] + Concat(parts[1..])
  }

  /** Gluing one more field on the end. */
  lemma {:induction false} ConcatAppend(parts: seq<string>, t: string)
    ensures Concat(parts + [t]) == Concat(parts) + t
    decreases |parts|
  {
    if |parts| == 0 {
      assert parts + [t] == [t];
    } else {
      assert (parts + [t])[1..] == parts[1..] + [t];
      ConcatAppend(parts[1..], t);
    }
  }

  /** Gluing one more field onto a text that already holds the first k. */
  lemma GlueNext(head: string, parts: seq<string>, k: nat)
    requires k < |parts|
    ensures head + Concat(parts[..k]) + parts[k] == head + Concat(parts[..k + 1])
  {
    assert parts[..k + 1] == parts[..k] + [parts[k]];
    ConcatAppend(parts[..k], parts[k]);
    assert head + Concat(parts[..k]) + parts[k] == head + (Concat(parts[..k]) + parts[k]);
  }

  /** s with every occurrence of sep taken out. */
  function Unspaced(s: string, sep: char): string
  {
    if |s| == 0 then "" else (if s[0] == sep then "" else [s[0]]) + Unspaced(s[1..], sep)
  }

  /** The text after the first sep, or "" when s holds no sep. */
  function AfterFirst(s: string, sep: char): string
  {
    if |s| == 0 then "" else if s[0] == sep then s[1..] else AfterFirst(s[1..], sep)
  }

  /** Splitting and joining with the same separator gives back the string. */
  lemma {:induction false} SplitJoin(s: string, sep: char)
    ensures JoinWith(Split(s, sep), sep) == s
    decreases |s|
  {
    if |s| > 0 {
      var rest := Split(s[1..], sep);
      SplitJoin(s[1..], sep);
      if s[0] == sep {
        assert ([""] + rest)[1..] == rest;
      } else {
        var parts := [[s[0]] + rest[0]] + rest[1..];
        assert parts[1..] == rest[1..];
        if |rest| > 1 {
          assert JoinWith(rest, sep) == rest[0] + [sep] + JoinWith(rest[1..], sep);
        }
      }
    }
  }

  /** Concatenating all fields drops exactly the separators. */
  lemma {:induction false} ConcatSplit(s: string, sep: char)
    ensures Concat(Split(s, sep)) == Unspaced(s, sep)
    decreases |s|
  {
    if |s| > 0 {
      var rest := Split(s[1..], sep);
      ConcatSplit(s[1..], sep);
      if s[0] == sep {
        assert ([""] + rest)[1..] == rest;
      } else {
        var parts := [[s[0]] + rest[0]] + rest[1..];
        assert parts[1..] == rest[1..];
        assert Concat(rest) == rest[0] + Concat(rest[1..]);
      }
    }
  }

  /** Concatenating every field but the first gives the text after the first
      separator with its separators dropped. */
  lemma {:induction false} ConcatTail(s: string, sep: char)
    ensures Concat(Split(s, sep)[1..]) == Unspaced(AfterFirst(s, sep), sep)
    decreases |s|
  {
    if |s| > 0 {
      var rest := Split(s[1..], sep);
      if s[0] == sep {
        assert ([""] + rest)[1..] == rest;
        ConcatSplit(s[1..], sep);
      } else {
        var parts := [[s[0]] + rest[0]] + rest[1..];
        assert parts[1..] == rest[1..];
        ConcatTail(s[1..], sep);
      }
    }
  }
}
