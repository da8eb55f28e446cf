/** The clock that the service and Redis share, and Redis keys that expire. */
module Clock {

  /** Nanoseconds since the Unix epoch. */
  type Time = int

  /** Identifiers are only compared: for equality, and in SQL for order. */
  type Uuid = int

  const SECOND: int := 1_000_000_000
  const MINUTE: int := 60 * SECOND
  const HOUR: int := 60 * MINUTE
  const DAY: int := 24 * HOUR

  /** Go's Time.Unix(): whole seconds, rounded down. */
  function Unix(t: Time): int {
    t / SECOND
  }
}

module Redis {
  import opened Clock

  /** A stored value together with the instant at which Redis drops it. */
  datatype Entry<V> = Entry(value: V, deadline: Time)

  predicate Live<K, V>(m: map<K, Entry<V>>, k: K, now: Time) {
    k in m && now < m[k].deadline
  }
}

module Wrappers {
  datatype Option<+T> = None | Some(value: T)

  datatype Result<+T, +E> = Ok(value: T) | Err(error: E)

  /** SQL's COALESCE of a parameter and a column. */
  function Coalesce<T>(a: Option<T>, b: T): T {
    if a.Some? then a.value else b
  }
}

/** strings.TrimSpace */
module Text {

  /** Unicode white space. */
  predicate IsSpace(c: char) {
    var n := c as int;
    9 <= n <= 13 || n == 0x20 || n == 0x85 || n == 0xa0 || n == 0x1680 || 0x2000 <= n <= 0x200a
    || n == 0x2028 || n == 0x2029 || n == 0x202f || n == 0x205f || n == 0x3000
  }

  /** The twenty-five characters with the Unicode property White_Space. */
  const WHITE_SPACE: string :=
    "\t\n\U{0B}\U{0C}\r \U{85}\U{A0}\U{1680}\U{2000}\U{2001}\U{2002}\U{2003}\U{2004}\U{2005}\U{2006}\U{2007}"
    + "\U{2008}\U{2009}\U{200A}\U{2028}\U{2029}\U{202F}\U{205F}\U{3000}"

  lemma SpaceIsWhiteSpace(c: char)
    ensures IsSpace(c) <==> c in WHITE_SPACE
  {
    var s := WHITE_SPACE;
    assert forall i :: 0 <= i < |s| ==> IsSpace(s[i]);
    if IsSpace(c) {
      var n := c as int;
      var i :=
        if n <= 13 then n - 9 else if n == 0x20 then 5 else if n == 0x85 then 6 else if n == 0xa0 then 7
        else if n == 0x1680 then 8 else if n <= 0x200a then n - 0x2000 + 9 else if n <= 0x2029 then n - 0x2028 + 20
        else if n == 0x202f then 22 else if n == 0x205f then 23 else 24;
      assert s[i] as int == n;
    }
  }

  predicate AllSpace(s: string) {
    forall i :: 0 <= i < |s| ==> IsSpace(s[i])
  }

  /** No white space at either end. */
  predicate Trimmed(s: string) {
    s == "" || (!IsSpace(s[0]) && !IsSpace(s[|s| - 1]))
  }

  function TrimSpace(s: string): string {
    if Trimmed(s) then s else if IsSpace(s[0]) then TrimSpace(s[1..]) else TrimSpace(s[..|s| - 1])
  }

  /** Only white space goes, and all of it at both ends. */
  lemma {:induction false} TrimSpaceTrims(s: string) returns (before: string, after: string)
    ensures s == before + TrimSpace(s) + after
    ensures AllSpace(before) && AllSpace(after) && Trimmed(TrimSpace(s))
  {
    if Trimmed(s) {
      before, after := "", "";
    } else if IsSpace(s[0]) {
      var inner;
      inner, after := TrimSpaceTrims(s[1..]);
      before := [s[0]] + inner;
      Reassembled(s[0], s, inner + TrimSpace(s) + after);
    } else {
      var inner;
      before, inner := TrimSpaceTrims(s[..|s| - 1]);
      after := inner + [s[|s| - 1]];
      assert s == s[..|s| - 1] + [s[|s| - 1]];
    }
  }

  lemma Reassembled(c: char, s: string, rest: string)
    requires s != "" && c == s[0] && rest == s[1..]
    ensures s == [c] + rest
  {
  }

  /** t is what is left of s without the white space at its ends. */
  ghost predicate IsTrimOf(t: string, s: string) {
    Trimmed(t) && exists before, after :: Surrounds(before, after) && s == before + t + after
  }

  predicate Surrounds(before: string, after: string) {
    AllSpace(before) && AllSpace(after)
  }

  lemma TrimIsOf(s: string)
    ensures IsTrimOf(TrimSpace(s), s)
  {
    var before, after := TrimSpaceTrims(s);
    assert Surrounds(before, after);
  }

  lemma {:induction false} TrimStrips(before: string, t: string, after: string)
    requires Surrounds(before, after) && Trimmed(t)
    ensures TrimSpace(before + t + after) == t
    decreases |before| + |after|
  {
    var s := before + t + after;
    if before != "" {
      assert s[0] == before[0] && s[1..] == before[1..] + t + after;
      TrimStrips(before[1..], t, after);
    } else if after != "" {
      var rest := after[..|after| - 1];
      assert s[|s| - 1] == after[|after| - 1] && s[..|s| - 1] == before + t + rest;
      TrimStrips(before, t, rest);
      if t == "" {
        SpaceTrimsToNothing(s);
      } else {
        assert s[0] == t[0];
      }
    } else {
      assert s == t;
    }
  }

  lemma {:induction false} SpaceTrimsToNothing(s: string)
    requires AllSpace(s)
    ensures TrimSpace(s) == ""
  {
    if s != "" {
      SpaceTrimsToNothing(s[1..]);
    }
  }

  /** There is only one such text, and it is empty exactly for white space. */
  lemma TrimIsUnique(t: string, s: string)
    ensures IsTrimOf(t, s) <==> t == TrimSpace(s)
    ensures TrimSpace(s) == "" <==> AllSpace(s)
  {
    TrimIsOf(s);
    if IsTrimOf(t, s) {
      var before, after :| Surrounds(before, after) && s == before + t + after;
      TrimStrips(before, t, after);
    }
    if AllSpace(s) {
      SpaceTrimsToNothing(s);
    }
    if TrimSpace(s) == "" {
      var before, after := TrimSpaceTrims(s);
      assert s == before + after;
    }
  }
}
