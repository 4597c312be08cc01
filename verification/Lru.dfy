/** Least-recently-used replacement on mathematical terms: a block is resident while fewer than
    `ways` other blocks of its set were used since its own last use. */
module Lru {
  import opened Common

  /** The blocks of `x`'s set used since the last use of `x`, among `n` sets. */
  function Since(h: seq<nat>, x: nat, n: nat): set<nat>
    requires n > 0
  {
    if h == [] || h[|h| - 1] == x then {}
    else Since(h[..|h| - 1], x, n) + if h[|h| - 1] % n == x % n then {h[|h| - 1]} else {}
  }

  predicate Resident(h: seq<nat>, x: nat, n: nat, ways: nat)
    requires n > 0
  {
    x in h && |Since(h, x, n)| < ways
  }

  // ---------- inclusion ----------

  lemma {:induction false} SinceMultiple(h: seq<nat>, x: nat, n: nat, f: nat)
    requires n > 0 && f > 0
    ensures Since(h, x, n * f) <= Since(h, x, n)
  {
    if h != [] && h[|h| - 1] != x {
      SinceMultiple(h[..|h| - 1], x, n, f);
      if h[|h| - 1] % (n * f) == x % (n * f) { SameModulo(h[|h| - 1], x, n, f); }
    }
  }

  lemma SameModulo(a: nat, b: nat, n: nat, f: nat)
    requires n > 0 && f > 0 && a % (n * f) == b % (n * f)
    ensures a % n == b % n
  {
    ModMod(a, n, f);
    ModMod(b, n, f);
  }

  lemma ModMod(a: nat, n: nat, f: nat)
    requires n > 0 && f > 0
    ensures a % n == (a % (n * f)) % n
  {
    var m, q, r := n * f, a / (n * f), a % (n * f);
    assert a == m * q + r;
    assert m * q == n * (f * q);
    ModAdd(r, n, f * q);
  }

  lemma {:induction false} ModAdd(r: nat, n: nat, k: nat)
    requires n > 0
    ensures (n * k + r) % n == r % n && (n * k + r) / n == k + r / n
  {
    DivModUnique(n * k + r, n, k + r / n, r % n);
  }

  /** Splitting every set into `f` sets of the same size loses no block. */
  lemma Inclusion(h: seq<nat>, x: nat, n: nat, f: nat, ways: nat)
    requires n > 0 && f > 0 && Resident(h, x, n, ways)
    ensures n * f > 0 && Resident(h, x, n * f, ways)
  {
    SinceMultiple(h, x, n, f);
    SmallerSet(Since(h, x, n * f), Since(h, x, n));
  }

  lemma SmallerSet(a: set<nat>, b: set<nat>)
    requires a <= b
    ensures |a| <= |b|
  {
    assert b == a + (b - a);
  }

  // ---------- the stack of a set ----------

  function Without(s: seq<nat>, x: nat): (r: seq<nat>)
    ensures x !in r && forall y :: y in r <==> y in s && y != x
  {
    if s == [] then [] else (if s[0] == x then [] else [s[0]]) + Without(s[1..], x)
  }

  function Take(s: seq<nat>, k: nat): seq<nat> { if |s| <= k then s else s[..k] }

  /** The blocks of set `i`, most recently used first. */
  function Stack(h: seq<nat>, n: nat, i: nat): seq<nat>
    requires n > 0
  {
    if h == [] then []
    else
      var x, s := h[|h| - 1], Stack(h[..|h| - 1], n, i);
      if x % n == i then [x] + Without(s, x) else s
  }

  /** The elements ahead of `x`. */
  function Ahead(s: seq<nat>, x: nat): set<nat> {
    if s == [] || s[0] == x then {} else {s[0]} + Ahead(s[1..], x)
  }

  lemma {:induction false} WithoutDistinct(s: seq<nat>, x: nat)
    requires Distinct(s)
    ensures Distinct(Without(s, x))
  {
    if s != [] {
      WithoutDistinct(s[1..], x);
      assert s[0] !in s[1..];
    }
  }

  lemma {:induction false} WithoutAbsent(s: seq<nat>, x: nat)
    requires x !in s
    ensures Without(s, x) == s
  {
    if s != [] { WithoutAbsent(s[1..], x); }
  }

  lemma {:induction false} AheadIn(s: seq<nat>, x: nat)
    ensures Ahead(s, x) <= set y | y in s
    ensures x !in Ahead(s, x)
  {
    if s != [] { AheadIn(s[1..], x); }
  }

  lemma {:induction false} AheadWithout(s: seq<nat>, x: nat, y: nat)
    requires x != y
    ensures Ahead(Without(s, y), x) == Ahead(s, x) - {y}
  {
    if s != [] {
      AheadWithout(s[1..], x, y);
      if s[0] == y {
        assert Without(s, y) == Without(s[1..], y);
      } else {
        assert Without(s, y)[1..] == Without(s[1..], y);
      }
    }
  }

  lemma {:induction false} AheadTake(s: seq<nat>, x: nat, k: nat)
    requires Distinct(s)
    ensures x in Take(s, k) <==> x in s && |Ahead(s, x)| < k
    decreases |s|
  {
    if s != [] && s[0] != x {
      var t := s[1..];
      if k > 0 {
        AheadTake(t, x, k - 1);
        assert Take(s, k) == [s[0]] + Take(t, k - 1);
        AheadIn(t, x);
        assert s[0] !in Ahead(t, x);
      }
    }
  }

  lemma {:induction false} StackHolds(h: seq<nat>, n: nat, i: nat)
    requires n > 0
    ensures Distinct(Stack(h, n, i)) && forall x :: x in Stack(h, n, i) <==> x in h && x % n == i
  {
    if h != [] {
      StackHolds(h[..|h| - 1], n, i);
      WithoutDistinct(Stack(h[..|h| - 1], n, i), h[|h| - 1]);
      assert h == h[..|h| - 1] + [h[|h| - 1]];
    }
  }

  lemma {:induction false} StackSince(h: seq<nat>, n: nat, x: nat)
    requires n > 0 && x in h
    ensures Since(h, x, n) == Ahead(Stack(h, n, x % n), x)
  {
    var p, y, i := h[..|h| - 1], h[|h| - 1], x % n;
    if y != x {
      assert h == p + [y];
      StackSince(p, n, x);
      if y % n == i {
        var s := Stack(p, n, i);
        AheadWithout(s, x, y);
        assert ([y] + Without(s, y))[1..] == Without(s, y);
      }
    }
  }

  /** What an LRU set of `ways` lines holds: the `ways` most recently used blocks. */
  function Top(h: seq<nat>, n: nat, ways: nat, i: nat): seq<nat>
    requires n > 0
  {
    Take(Stack(h, n, i), ways)
  }

  /** The first `ways` entries of a set's stack are exactly its resident blocks. */
  lemma TopIsResident(h: seq<nat>, x: nat, n: nat, ways: nat)
    requires n > 0
    ensures x in Top(h, n, ways, x % n) <==> Resident(h, x, n, ways)
    ensures Distinct(Top(h, n, ways, x % n)) && |Top(h, n, ways, x % n)| <= ways
  {
    StackHolds(h, n, x % n);
    AheadTake(Stack(h, n, x % n), x, ways);
    if x in h { StackSince(h, n, x); }
  }

  lemma {:induction false} TakeWithout(s: seq<nat>, x: nat, k: nat)
    requires Distinct(s)
    ensures Take(Without(Take(s, k + 1), x), k) == Take(Without(s, x), k)
    decreases |s|
  {
    if s != [] && |s| > k + 1 {
      var t := s[1..];
      assert Take(s, k + 1)[1..] == Take(t, k);
      if s[0] == x {
        WithoutAbsent(t, x);
        WithoutAbsent(Take(t, k), x);
      } else if k > 0 {
        TakeWithout(t, x, k - 1);
        var a, b := Without(Take(t, k), x), Without(t, x);
        assert Take([s[0]] + a, k) == [s[0]] + Take(a, k - 1);
        assert Take([s[0]] + b, k) == [s[0]] + Take(b, k - 1);
      }
    }
  }

  lemma TakeFront(x: nat, a: seq<nat>, k: nat)
    requires k > 0
    ensures Take([x] + a, k) == [x] + Take(a, k - 1)
  {
  }

  lemma StackTouch(h: seq<nat>, x: nat, n: nat, i: nat)
    requires n > 0
    ensures Stack(h + [x], n, i) == if x % n == i then [x] + Without(Stack(h, n, i), x) else Stack(h, n, i)
  {
    assert (h + [x])[..|h|] == h;
  }

  /** Using a block of the set: it goes to the front, and the last one falls off a full set. */
  lemma TopTouch(h: seq<nat>, x: nat, n: nat, ways: nat)
    requires n > 0 && ways > 0
    ensures Top(h + [x], n, ways, x % n) == Take([x] + Without(Top(h, n, ways, x % n), x), ways)
    ensures forall i :: i != x % n ==> Top(h + [x], n, ways, i) == Top(h, n, ways, i)
  {
    forall i: nat
      ensures Stack(h + [x], n, i) == if x % n == i then [x] + Without(Stack(h, n, i), x) else Stack(h, n, i)
    {
      StackTouch(h, x, n, i);
    }
    var s := Stack(h, n, x % n);
    StackHolds(h, n, x % n);
    TakeWithout(s, x, ways - 1);
    TakeFront(x, Without(Take(s, ways), x), ways);
    TakeFront(x, Without(s, x), ways);
  }
}
