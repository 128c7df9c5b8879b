/** The fixed-window counter, and what it admits over whole traces of requests. */
module FixedWindow {
  import opened Common

  type Time = int

  /** The counter key: absent, or counting until it expires. */
  datatype Window = Idle | Open(count: nat, expires: Time)

  function Hit(w: Window, now: Time, length: int): Window {
    if w.Idle? || w.expires <= now then Open(1, now + length) else Open(w.count + 1, w.expires)
  }

  /** A trace of requests in time order. */
  ghost predicate Ordered(ts: seq<Time>) {
    forall i, j :: 0 <= i <= j < |ts| ==> ts[i] <= ts[j]
  }

  function After(ts: seq<Time>, length: int, n: nat): Window
    requires n <= |ts|
  {
    if n == 0 then Idle else Hit(After(ts, length, n - 1), ts[n - 1], length)
  }

  predicate Admitted(ts: seq<Time>, length: int, limit: nat, i: nat)
    requires i < |ts|
  {
    var w := After(ts, length, i + 1);
    w.Open? && w.count <= limit
  }

  /** The request that opened the window which request i falls into. */
  function Opener(ts: seq<Time>, length: int, i: nat): (o: nat)
    requires i < |ts|
    ensures o <= i
  {
    if i == 0 then 0
    else
      var o := Opener(ts, length, i - 1);
      if ts[i] < ts[o] + length then o else i
  }

  lemma {:induction false} CounterCountsFromOpener(ts: seq<Time>, length: int, i: nat)
    requires i < |ts|
    ensures var o := Opener(ts, length, i);
            After(ts, length, i + 1) == Open(i - o + 1, ts[o] + length)
  {
    if i > 0 {
      CounterCountsFromOpener(ts, length, i - 1);
    }
  }

  /** Exactly the first `limit` requests of each window are admitted. */
  lemma AdmitsTheFirstOfEachWindow(ts: seq<Time>, length: int, limit: nat, i: nat)
    requires i < |ts|
    ensures Admitted(ts, length, limit, i) <==> i < Opener(ts, length, i) + limit
  {
    CounterCountsFromOpener(ts, length, i);
  }

  /** Requests between an opener and one of its window share the opener. */
  lemma {:induction false} SameWindow(ts: seq<Time>, length: int, j: nat, i: nat)
    requires i < |ts| && Opener(ts, length, i) <= j <= i
    ensures Opener(ts, length, j) == Opener(ts, length, i)
    decreases i
  {
    if j < i {
      SameWindow(ts, length, j, i - 1);
    }
  }

  /** Windows do not overlap: a later window opens after the earlier one ends. */
  lemma {:induction false} WindowsAreApart(ts: seq<Time>, length: int, j: nat, i: nat)
    requires j <= i < |ts| && Ordered(ts) && length >= 0
    ensures Opener(ts, length, j) <= Opener(ts, length, i)
    ensures Opener(ts, length, j) < Opener(ts, length, i) ==>
              ts[Opener(ts, length, i)] >= ts[Opener(ts, length, j)] + length
    decreases i
  {
    if j < i {
      WindowsAreApart(ts, length, j, i - 1);
    }
  }

  /** Admitted requests inside the half-open interval of one window length from t. */
  ghost function AdmittedIn(ts: seq<Time>, length: int, limit: nat, t: Time): set<nat> {
    set i: nat | i < |ts| && t <= ts[i] < t + length && Admitted(ts, length, limit, i)
  }

  function Span(from: nat, n: nat): set<nat> {
    if n == 0 then {} else Span(from, n - 1) + {from + n - 1}
  }

  lemma {:induction false} SpanSize(from: nat, n: nat)
    ensures |Span(from, n)| == n
    ensures forall i: nat :: i in Span(from, n) <==> from <= i < from + n
  {
    if n > 0 {
      SpanSize(from, n - 1);
    }
  }

  /** An interval of one window length meets at most two windows. */
  lemma TwoWindowsCover(ts: seq<Time>, length: int, t: Time, first: nat, last: nat, i: nat)
    requires Ordered(ts) && length >= 0 && first <= i <= last < |ts|
    requires t <= ts[first] && ts[last] < t + length
    ensures Opener(ts, length, i) == Opener(ts, length, first) || Opener(ts, length, i) == Opener(ts, length, last)
  {
    WindowsAreApart(ts, length, i, last);
    var o := Opener(ts, length, i);
    if o <= first {
      SameWindow(ts, length, first, i);
    }
  }

  /** However the requests fall, fewer than twice the limit are admitted in any
      interval of one window length: if two windows reach into it, the request that
      opened the earlier one lies outside. */
  lemma FewerThanTwiceTheLimit(ts: seq<Time>, length: int, limit: nat, t: Time)
    requires Ordered(ts) && length >= 0
    ensures |AdmittedIn(ts, length, limit, t)| <= if limit == 0 then 0 else 2 * limit - 1
  {
    var a := AdmittedIn(ts, length, limit, t);
    if a != {} {
      var first := Least(a);
      var last := Greatest(a);
      var x, y := Opener(ts, length, first), Opener(ts, length, last);
      AdmitsTheFirstOfEachWindow(ts, length, limit, first);
      var early := if x == y then {} else Span(x + 1, limit - 1);
      SpanSize(x + 1, limit - 1);
      SpanSize(y, limit);
      WindowsAreApart(ts, length, first, last);
      forall i | i in a
        ensures i in early + Span(y, limit)
      {
        TwoWindowsCover(ts, length, t, first, last, i);
        AdmitsTheFirstOfEachWindow(ts, length, limit, i);
      }
      SubsetCardinality(a, early + Span(y, limit));
    }
  }

  /** One request, the rest of its window's share just before the window ends, and a
      full share just after. */
  function Burst(length: int, limit: nat): seq<Time>
    requires limit > 0
  {
    seq(2 * limit, i => if i == 0 then 0 else if i < limit then length - 1 else length)
  }

  lemma {:induction false} BurstOpeners(length: int, limit: nat, i: nat)
    requires length >= 2 && limit > 0 && i < 2 * limit
    ensures Opener(Burst(length, limit), length, i) == if i < limit then 0 else limit
  {
    if i > 0 {
      BurstOpeners(length, limit, i - 1);
    }
  }

  /** The bound is reached, whatever the limit. */
  lemma TheBoundIsReached(length: int, limit: nat)
    requires length >= 2 && limit > 0
    ensures Ordered(Burst(length, limit))
    ensures |AdmittedIn(Burst(length, limit), length, limit, length - 1)| == 2 * limit - 1
  {
    var ts := Burst(length, limit);
    forall i: nat | i < |ts|
      ensures Admitted(ts, length, limit, i)
    {
      BurstOpeners(length, limit, i);
      AdmitsTheFirstOfEachWindow(ts, length, limit, i);
    }
    SpanSize(1, 2 * limit - 1);
    assert AdmittedIn(ts, length, limit, length - 1) == Span(1, 2 * limit - 1);
  }

  lemma {:induction false} Least(s: set<nat>) returns (m: nat)
    requires s != {}
    ensures m in s && forall x :: x in s ==> m <= x
    decreases s
  {
    m :| m in s;
    var rest := s - {m};
    assert s == rest + {m};
    if rest != {} {
      var k := Least(rest);
      if k < m {
        m := k;
      }
    }
  }

  lemma {:induction false} Greatest(s: set<nat>) returns (m: nat)
    requires s != {}
    ensures m in s && forall x :: x in s ==> x <= m
    decreases s
  {
    m :| m in s;
    var rest := s - {m};
    assert s == rest + {m};
    if rest != {} {
      var k := Greatest(rest);
      if k > m {
        m := k;
      }
    }
  }
}
