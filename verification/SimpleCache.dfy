/** The set-associative cache of the cache-size sweep: 2^c bytes in sets of 2^s lines of 64 bytes. */
module SimpleCache {
  import opened Common
  import opened Lru

  const Never: nat := 0xFFFF_FFFF_FFFF_FFFF

  datatype Line = Line(tag: nat, lastAccess: nat)

  // ---------- one set ----------

  /** Number of the block with this tag in set `i` of `n`. */
  function Block(tag: nat, n: nat, i: nat): nat { tag * n + i }

  function BlockOf(l: seq<Line>, p: nat, n: nat, i: nat): nat
    requires p < |l|
  {
    Block(l[p].tag, n, i)
  }

  /** The lines hold the blocks of `top`, each once. */
  ghost predicate Holds(l: seq<Line>, top: seq<nat>, n: nat, i: nat) {
    && |l| == |top|
    && (forall p: nat :: p < |l| ==> BlockOf(l, p, n, i) in top)
    && (forall b :: b in top ==> exists p: nat :: p < |l| && BlockOf(l, p, n, i) == b)
    && (forall p: nat, q: nat :: p < |l| && q < |l| && p != q ==> BlockOf(l, p, n, i) != BlockOf(l, q, n, i))
  }

  /** Later access numbers mean further ahead in the stack. */
  ghost predicate Aged(l: seq<Line>, top: seq<nat>, n: nat, i: nat) {
    forall p: nat, q: nat :: p < |l| && q < |l| ==>
      (l[q].lastAccess > l[p].lastAccess <==> BlockOf(l, q, n, i) in Ahead(top, BlockOf(l, p, n, i)))
  }

  ghost predicate SetOk(l: seq<Line>, top: seq<nat>, n: nat, i: nat) {
    Holds(l, top, n, i) && Aged(l, top, n, i)
  }

  predicate Below(l: seq<Line>, num: nat) { forall p :: 0 <= p < |l| ==> l[p].lastAccess < num }

  lemma SameTag(l: seq<Line>, p: nat, tag: nat, n: nat, i: nat)
    requires n > 0 && p < |l|
    ensures BlockOf(l, p, n, i) == Block(tag, n, i) <==> l[p].tag == tag
  {
    ProductOrder(n, tag, l[p].tag);
    ProductOrder(n, l[p].tag, tag);
  }

  lemma {:induction false} WithoutLength(s: seq<nat>, x: nat)
    requires Distinct(s) && x in s
    ensures |Without(s, x)| == |s| - 1
  {
    if s[0] == x { WithoutAbsent(s[1..], x); } else { WithoutLength(s[1..], x); }
  }

  lemma AheadFront(top: seq<nat>, x: nat, y: nat)
    ensures Ahead([x] + Without(top, x), y) == if y == x then {} else {x} + (Ahead(top, y) - {x})
  {
    if y != x {
      AheadWithout(top, y, x);
      assert ([x] + Without(top, x))[1..] == Without(top, x);
    }
  }

  lemma HitOk(l: seq<Line>, top: seq<nat>, n: nat, i: nat, num: nat, p: nat)
    requires SetOk(l, top, n, i) && Below(l, num) && p < |l| && Distinct(top)
    ensures SetOk(l[p := l[p].(lastAccess := num)], [BlockOf(l, p, n, i)] + Without(top, BlockOf(l, p, n, i)), n, i)
  {
    var x, l' := BlockOf(l, p, n, i), l[p := l[p].(lastAccess := num)];
    var top' := [x] + Without(top, x);
    WithoutLength(top, x);
    forall q: nat | q < |l| ensures BlockOf(l', q, n, i) == BlockOf(l, q, n, i) {}
    forall b | b in top' ensures exists q: nat :: q < |l'| && BlockOf(l', q, n, i) == b {
      assert b in top;
      var q: nat :| q < |l| && BlockOf(l, q, n, i) == b;
      assert BlockOf(l', q, n, i) == b;
    }
    forall y ensures Ahead(top', y) == if y == x then {} else {x} + (Ahead(top, y) - {x}) { AheadFront(top, x, y); }
  }

  lemma InsertHolds(l: seq<Line>, top: seq<nat>, n: nat, i: nat, num: nat, tag: nat)
    requires n > 0 && Holds(l, top, n, i) && Block(tag, n, i) !in top
    ensures Holds(l + [Line(tag, num)], [Block(tag, n, i)] + top, n, i)
  {
    var x, l' := Block(tag, n, i), l + [Line(tag, num)];
    var top' := [x] + top;
    forall q: nat | q < |l| ensures BlockOf(l', q, n, i) == BlockOf(l, q, n, i) {}
    assert BlockOf(l', |l|, n, i) == x;
    forall b | b in top' ensures exists q: nat :: q < |l'| && BlockOf(l', q, n, i) == b {
      if b == x {
        assert BlockOf(l', |l|, n, i) == b;
      } else {
        var q: nat :| q < |l| && BlockOf(l, q, n, i) == b;
        assert BlockOf(l', q, n, i) == b;
      }
    }
  }

  lemma InsertOk(l: seq<Line>, top: seq<nat>, n: nat, i: nat, num: nat, tag: nat)
    requires n > 0 && SetOk(l, top, n, i) && Below(l, num) && Block(tag, n, i) !in top
    ensures SetOk(l + [Line(tag, num)], [Block(tag, n, i)] + top, n, i)
  {
    InsertHolds(l, top, n, i, num, tag);
    var x, l' := Block(tag, n, i), l + [Line(tag, num)];
    var top' := [x] + top;
    forall q: nat | q < |l| ensures BlockOf(l', q, n, i) == BlockOf(l, q, n, i) {}
    assert BlockOf(l', |l|, n, i) == x;
    forall y ensures Ahead(top', y) == if y == x then {} else {x} + Ahead(top, y) { assert top'[1..] == top; }
    forall y ensures x !in Ahead(top, y) { AheadIn(top, y); }
  }

  lemma {:induction false} AheadPrefix(s: seq<nat>, y: nat, k: nat)
    requires k <= |s| && y in s[..k]
    ensures Ahead(s[..k], y) == Ahead(s, y)
    decreases |s|
  {
    if s[0] != y {
      assert s[..k][1..] == s[1..][..k - 1];
      AheadPrefix(s[1..], y, k - 1);
    }
  }

  lemma {:induction false} AllAheadOfLast(s: seq<nat>, y: nat)
    requires Distinct(s) && y in s && y != s[|s| - 1]
    ensures y in Ahead(s, s[|s| - 1])
    decreases |s|
  {
    if s[0] != y { AllAheadOfLast(s[1..], y); }
  }

  function Removed(l: seq<Line>, o: nat): seq<Line>
    requires o < |l|
  {
    l[..o] + l[o + 1..]
  }

  /** The line with the lowest access number holds the last block of the stack. */
  lemma OldestIsLast(l: seq<Line>, top: seq<nat>, n: nat, i: nat, o: nat)
    requires SetOk(l, top, n, i) && Distinct(top) && o < |l|
    requires forall p: nat :: p < |l| ==> l[o].lastAccess <= l[p].lastAccess
    ensures |top| > 0 && BlockOf(l, o, n, i) == top[|top| - 1]
  {
    var z := top[|top| - 1];
    assert z in top;
    var q: nat :| q < |l| && BlockOf(l, q, n, i) == z;
    if BlockOf(l, o, n, i) != z { AllAheadOfLast(top, BlockOf(l, o, n, i)); }
  }

  lemma RemoveHolds(l: seq<Line>, top: seq<nat>, n: nat, i: nat, o: nat)
    requires Holds(l, top, n, i) && Distinct(top) && o < |l| && BlockOf(l, o, n, i) == top[|top| - 1]
    ensures Holds(Removed(l, o), top[..|top| - 1], n, i)
  {
    var l', top' := Removed(l, o), top[..|top| - 1];
    forall q: nat | q < |l'| ensures BlockOf(l', q, n, i) in top' {
      var b := BlockOf(l, if q < o then q else q + 1, n, i);
      var k :| 0 <= k < |top| && top[k] == b;
      assert top'[k] == b;
    }
    forall b | b in top' ensures exists q: nat :: q < |l'| && BlockOf(l', q, n, i) == b {
      assert b in top;
      var q: nat :| q < |l| && BlockOf(l, q, n, i) == b;
      assert q != o;
      assert BlockOf(l', if q < o then q else q - 1, n, i) == b;
    }
    forall p: nat, q: nat | p < |l'| && q < |l'| && p != q ensures BlockOf(l', p, n, i) != BlockOf(l', q, n, i) {
      var p', q' := if p < o then p else p + 1, if q < o then q else q + 1;
      assert BlockOf(l', p, n, i) == BlockOf(l, p', n, i) && BlockOf(l', q, n, i) == BlockOf(l, q', n, i);
    }
  }

  function Skipping(o: nat, p: nat): nat { if p < o then p else p + 1 }

  lemma RemovedAt(l: seq<Line>, o: nat, p: nat)
    requires o < |l| && p < |l| - 1
    ensures Removed(l, o)[p] == l[Skipping(o, p)]
  {
  }

  lemma RemoveAged(l: seq<Line>, top: seq<nat>, n: nat, i: nat, o: nat)
    requires Holds(l, top, n, i) && Aged(l, top, n, i) && o < |l|
    requires Holds(Removed(l, o), top[..|top| - 1], n, i)
    ensures Aged(Removed(l, o), top[..|top| - 1], n, i)
  {
    var l', top' := Removed(l, o), top[..|top| - 1];
    forall p: nat, q: nat | p < |l'| && q < |l'|
      ensures l'[q].lastAccess > l'[p].lastAccess <==> BlockOf(l', q, n, i) in Ahead(top', BlockOf(l', p, n, i))
    {
      AheadPrefix(top, BlockOf(l', p, n, i), |top| - 1);
      RemovedAt(l, o, p);
      RemovedAt(l, o, q);
      var p', q' := Skipping(o, p), Skipping(o, q);
      assert l[q'].lastAccess > l[p'].lastAccess <==> BlockOf(l, q', n, i) in Ahead(top, BlockOf(l, p', n, i));
    }
  }

  // ---------- the scan ----------

  /** Position of the tag in the set, or its length; and the first line with the lowest access number. */
  method Scan(l: seq<Line>, tag: nat) returns (found: nat, oldest: nat)
    requires forall p: nat :: p < |l| ==> l[p].lastAccess < Never
    ensures found <= |l| && (found < |l| ==> l[found].tag == tag)
    ensures found == |l| ==> forall p: nat :: p < |l| ==> l[p].tag != tag
    ensures found == |l| && l != [] ==>
              oldest < |l| && forall p: nat :: p < |l| ==> l[oldest].lastAccess <= l[p].lastAccess
  {
    found, oldest := 0, |l|;
    var tAccess := Never;
    while found < |l|
      invariant found <= |l|
      invariant forall p: nat :: p < found ==> l[p].tag != tag && tAccess <= l[p].lastAccess
      invariant if found == 0 then tAccess == Never else oldest < found && tAccess == l[oldest].lastAccess
    {
      if l[found].tag == tag { return; }
      if l[found].lastAccess < tAccess {
        tAccess, oldest := l[found].lastAccess, found;
      }
      found := found + 1;
    }
  }

  /** Replacing the last block of a full set. */
  lemma ReplaceOk(l: seq<Line>, top: seq<nat>, n: nat, i: nat, num: nat, tag: nat, o: nat)
    requires n > 0 && SetOk(l, top, n, i) && Below(l, num) && Distinct(top) && Block(tag, n, i) !in top
    requires o < |l| && forall p: nat :: p < |l| ==> l[o].lastAccess <= l[p].lastAccess
    ensures |top| > 0
    ensures SetOk(Removed(l, o) + [Line(tag, num)], [Block(tag, n, i)] + top[..|top| - 1], n, i)
  {
    OldestIsLast(l, top, n, i, o);
    RemoveHolds(l, top, n, i, o);
    RemoveAged(l, top, n, i, o);
    InsertOk(Removed(l, o), top[..|top| - 1], n, i, num, tag);
  }

  lemma FoundIsHit(l: seq<Line>, top: seq<nat>, n: nat, i: nat, tag: nat, found: nat)
    requires n > 0 && SetOk(l, top, n, i) && found <= |l|
    requires if found < |l| then l[found].tag == tag else forall p: nat :: p < |l| ==> l[p].tag != tag
    ensures found < |l| <==> Block(tag, n, i) in top
  {
    if Block(tag, n, i) in top {
      var p: nat :| p < |l| && BlockOf(l, p, n, i) == Block(tag, n, i);
      SameTag(l, p, tag, n, i);
    }
  }

  /** The loop over the lines of a set, and the replacement: the set goes from its `top` blocks to
      those after one more use. */
  method UpdateSet(l: seq<Line>, tag: nat, num: nat, ways: nat, ghost top: seq<nat>, ghost n: nat, ghost i: nat)
    returns (hit: bool, r: seq<Line>)
    requires n > 0 && ways > 0 && num < Never && SetOk(l, top, n, i) && Below(l, num) && Distinct(top) && |top| <= ways
    ensures hit <==> Block(tag, n, i) in top
    ensures SetOk(r, Take([Block(tag, n, i)] + Without(top, Block(tag, n, i)), ways), n, i) && Below(r, num + 1)
  {
    ghost var x := Block(tag, n, i);
    var found, oldest := Scan(l, tag);
    FoundIsHit(l, top, n, i, tag, found);
    hit := found < |l|;
    if hit {
      r := l[found := l[found].(lastAccess := num)];
      HitOk(l, top, n, i, num, found);
      WithoutLength(top, x);
      return;
    }
    WithoutAbsent(top, x);
    if |l| < ways {
      r := l + [Line(tag, num)];
      InsertOk(l, top, n, i, num, tag);
    } else {
      r := l[..oldest] + l[oldest + 1..];
      r := r + [Line(tag, num)];
      ReplaceOk(l, top, n, i, num, tag, oldest);
      assert ([x] + top)[..ways] == [x] + top[..|top| - 1];
    }
  }

  lemma BlockSet(tag: nat, n: nat, i: nat)
    requires i < n
    ensures Block(tag, n, i) % n == i && Block(tag, n, i) / n == tag
  {
    assert tag * n == n * tag;
    DivModUnique(tag * n + i, n, tag, i);
  }

  lemma NextTag(tag: nat, n: nat)
    ensures Block(tag + 1, n, 0) == Block(tag, n, n)
  {
  }

  // ---------- the cache ----------

  const LineBytes: nat := 64

  /** Block numbers `first`, `first + 1`, ... */
  function Blocks(first: nat, count: nat): (r: seq<nat>)
    ensures |r| == count && forall k :: 0 <= k < count ==> r[k] == first + k
  {
    seq(count, k requires 0 <= k < count => first + k)
  }

  /** Number of blocks that the bytes `address .. address + size - 1` lie in. */
  function Span(address: nat, size: nat): nat {
    if size == 0 then 1 else (address + size - 1) / LineBytes - address / LineBytes + 1
  }

  function Visited(address: nat, size: nat): seq<nat> { Blocks(address / LineBytes, Span(address, size)) }

  /** A byte's block is visited exactly when the byte is accessed, or shares a block with one that is. */
  lemma VisitedCover(address: nat, size: nat, b: nat)
    requires size > 0
    ensures b in Visited(address, size) <==> exists x: nat :: address <= x < address + size && x / LineBytes == b
  {
    var first, last := address / LineBytes, (address + size - 1) / LineBytes;
    if b in Visited(address, size) {
      var k :| 0 <= k < Span(address, size) && b == first + k;
      var x := if k == 0 then address else b * LineBytes;
      assert address <= x < address + size && x / LineBytes == b;
    }
    if x: nat :| address <= x < address + size && x / LineBytes == b {
      assert Visited(address, size)[b - first] == b;
    }
  }

  /** Every block of an access was resident when its turn came. */
  predicate AllHit(h: seq<nat>, bs: seq<nat>, n: nat, ways: nat)
    requires n > 0
    decreases |bs|
  {
    bs == [] || (Resident(h, bs[0], n, ways) && AllHit(h + [bs[0]], bs[1..], n, ways))
  }

  lemma {:induction false} AllHitConcat(h: seq<nat>, p: seq<nat>, q: seq<nat>, n: nat, ways: nat)
    requires n > 0
    ensures AllHit(h, p + q, n, ways) <==> AllHit(h, p, n, ways) && AllHit(h + p, q, n, ways)
    decreases |p|
  {
    if p == [] {
      assert p + q == q && h + p == h;
    } else {
      assert (p + q)[1..] == p[1..] + q && h + [p[0]] + p[1..] == h + p;
      AllHitConcat(h + [p[0]], p[1..], q, n, ways);
    }
  }

  lemma OneMore(h: seq<nat>, first: nat, k: nat, n: nat, ways: nat)
    requires n > 0
    ensures Blocks(first, k + 1) == Blocks(first, k) + [first + k]
    ensures AllHit(h, Blocks(first, k + 1), n, ways) <==>
      AllHit(h, Blocks(first, k), n, ways) && Resident(h + Blocks(first, k), first + k, n, ways)
  {
    assert Blocks(first, k + 1) == Blocks(first, k) + [first + k];
    AllHitConcat(h, Blocks(first, k), [first + k], n, ways);
    HitOne(h + Blocks(first, k), first + k, n, ways);
  }

  lemma HitOne(h: seq<nat>, b: nat, n: nat, ways: nat)
    requires n > 0
    ensures AllHit(h, [b], n, ways) <==> Resident(h, b, n, ways)
  {
    assert [b][1..] == [];
  }

  function SetOf(first: nat, k: nat, n: nat): nat
    requires n > 0
  {
    (first + k) % n
  }

  lemma NextSetDiffers(first: nat, m: nat, k: nat, n: nat)
    requires m < k < n
    ensures SetOf(first, k, n) != SetOf(first, m, n)
  {
    var a, q, r := first + m, (first + m) / n, (first + m) % n;
    var d := k - m;
    assert a + d == n * q + (r + d);
    if r + d < n {
      DivModUnique(a + d, n, q, r + d);
    } else {
      assert n * (q + 1) == n * q + n;
      DivModUnique(a + d, n, q + 1, r + d - n);
    }
  }

  /** Tag and index of a block as the cache computes them from the address. */
  lemma TagAndIndex(address: nat, n: nat)
    requires n > 0
    ensures n * LineBytes > 0
    ensures Block(address / (n * LineBytes), n, (address / LineBytes) % n) == address / LineBytes
  {
    var b := address / LineBytes;
    assert b == n * (b / n) + b % n;
    assert address == LineBytes * b + address % LineBytes;
    assert address == (n * LineBytes) * (b / n) + (LineBytes * (b % n) + address % LineBytes) by {
      assert LineBytes * (n * (b / n)) == (n * LineBytes) * (b / n);
    }
    DivModUnique(address, n * LineBytes, b / n, LineBytes * (b % n) + address % LineBytes);
    assert n * (b / n) == (b / n) * n;
  }

  class Cache {
    const c: nat
    const s: nat
    const sets: nat
    const ways: nat
    var cacheBlocks: seq<seq<Line>>
    var readMisses: nat
    var writeMisses: nat
    var accesses: nat
    ghost var used: seq<nat>   // every block used so far, in order

    /** Each set holds its most recently used blocks; access numbers are below `num`. */
    ghost predicate Valid(num: nat)
      reads this
    {
      && c >= s + 6 && sets == Pow2(c - s - 6) && ways == Pow2(s) && |cacheBlocks| == sets
      && forall i: nat :: i < sets ==>
           SetOk(cacheBlocks[i], Top(used, sets, ways, i), sets, i) && Below(cacheBlocks[i], num)
    }

    constructor (c: nat, s: nat)
      requires c >= s + 6
      ensures Valid(1) && used == [] && this.c == c && this.s == s
      ensures readMisses == writeMisses == accesses == 0
    {
      this.c, this.s, sets, ways := c, s, Pow2(c - s - 6), Pow2(s);
      cacheBlocks := seq(Pow2(c - s - 6), _ => []);
      readMisses, writeMisses, accesses := 0, 0, 0;
      used := [];
    }

    /** A set holds exactly the blocks of that set with fewer than `ways` others used since, each once. */
    lemma Contents(num: nat, idx: nat, tag: nat)
      requires Valid(num) && idx < sets
      ensures (exists p :: 0 <= p < |cacheBlocks[idx]| && cacheBlocks[idx][p].tag == tag)
        <==> Resident(used, Block(tag, sets, idx), sets, ways)
      ensures |cacheBlocks[idx]| <= ways
      ensures forall p, q :: 0 <= p < q < |cacheBlocks[idx]| ==> cacheBlocks[idx][p].tag != cacheBlocks[idx][q].tag
    {
      var l, top := cacheBlocks[idx], Top(used, sets, ways, idx);
      BlockSet(tag, sets, idx);
      TopIsResident(used, Block(tag, sets, idx), sets, ways);
      assert SetOk(l, top, sets, idx);
      forall p: nat | p < |l| ensures BlockOf(l, p, sets, idx) == Block(tag, sets, idx) <==> l[p].tag == tag {
        SameTag(l, p, tag, sets, idx);
      }
      forall p: nat, q: nat | p < q < |l| ensures l[p].tag != l[q].tag {
        assert BlockOf(l, p, sets, idx) != BlockOf(l, q, sets, idx);
      }
    }

    /** One line of an access: a hit exactly when the block is among the most recently used of its set. */
    method UpdateCacheLine(idx: nat, tag: nat, num: nat) returns (hit: bool)
      requires Valid(num + 1) && idx < sets && Below(cacheBlocks[idx], num) && num < Never
      modifies this`cacheBlocks, this`used
      ensures Valid(num + 1) && used == old(used) + [Block(tag, sets, idx)]
      ensures forall i :: 0 <= i < sets && i != idx ==> cacheBlocks[i] == old(cacheBlocks)[i]
      ensures hit <==> Resident(old(used), Block(tag, sets, idx), sets, ways)
    {
      ghost var x := Block(tag, sets, idx);
      BlockSet(tag, sets, idx);
      TopIsResident(used, x, sets, ways);
      TopTouch(used, x, sets, ways);
      var l;
      hit, l := UpdateSet(cacheBlocks[idx], tag, num, ways, Top(used, sets, ways, idx), sets, idx);
      cacheBlocks := cacheBlocks[idx := l];
      used := used + [x];
    }

    /** The sets of the blocks from `first` on, `k` of them, may have seen access `num`; no other has. */
    ghost predicate Untouched(first: nat, k: nat, num: nat)
      reads this
      requires sets > 0 && |cacheBlocks| == sets
    {
      forall i :: 0 <= i < sets && (forall m: nat :: m < k ==> SetOf(first, m, sets) != i) ==>
        Below(cacheBlocks[i], num)
    }

    /** One block of an access; `used0` is what was used before the access. */
    method NextLine(tag: nat, idx: nat, num: nat, ghost used0: seq<nat>, ghost first: nat, ghost k: nat)
      returns (hit: bool)
      requires Valid(num + 1) && num < Never && k < sets && idx < sets && Untouched(first, k, num)
      requires Block(tag, sets, idx) == first + k && used == used0 + Blocks(first, k)
      modifies this`cacheBlocks, this`used
      ensures Valid(num + 1) && Untouched(first, k + 1, num) && used == used0 + Blocks(first, k + 1)
      ensures AllHit(used0, Blocks(first, k + 1), sets, ways) <==> hit && AllHit(used0, Blocks(first, k), sets, ways)
    {
      BlockSet(tag, sets, idx);
      forall m: nat | m < k ensures SetOf(first, m, sets) != idx { NextSetDiffers(first, m, k, sets); }
      OneMore(used0, first, k, sets, ways);
      hit := UpdateCacheLine(idx, tag, num);
      assert SetOf(first, k, sets) == idx;
      forall i | 0 <= i < sets && (forall m: nat :: m < k + 1 ==> SetOf(first, m, sets) != i)
        ensures Below(cacheBlocks[i], num)
      {
        assert forall m: nat :: m < k ==> SetOf(first, m, sets) != i;
      }
    }

    /** The blocks after the first. */
    method SplitAccess(tag0: nat, idx0: nat, size: nat, address: nat, num: nat, ghost used0: seq<nat>)
      returns (missed: nat)
      requires Valid(num + 1) && num < Never && Span(address, size) <= sets && Untouched(address / 64, 1, num)
      requires idx0 < sets && Block(tag0, sets, idx0) == address / 64 && used == used0 + Blocks(address / 64, 1)
      modifies this`cacheBlocks, this`used
      ensures Valid(num + 1) && used == used0 + Visited(address, size)
      ensures AllHit(used0, Visited(address, size), sets, ways) <==>
        missed == 0 && AllHit(used0, Blocks(address / 64, 1), sets, ways)
    {
      ghost var first := address / 64;
      var tag: nat, idx: nat := tag0, idx0 + 1;
      missed := 0;
      var sz: int := address % 64 + size - 64 - 1;
      ghost var k: nat := 1;
      while sz >= 0
        invariant Valid(num + 1) && 1 <= k <= Span(address, size) && Untouched(first, k, num)
        invariant sz == address % 64 + size - 1 - 64 * k
        invariant idx <= sets && Block(tag, sets, idx) == first + k
        invariant used == used0 + Blocks(first, k)
        invariant AllHit(used0, Blocks(first, k), sets, ways)
                  <==> missed == 0 && AllHit(used0, Blocks(first, 1), sets, ways)
      {
        if idx >= sets {
          NextTag(tag, sets);
          idx, tag := idx - sets, tag + 1;
        }
        var hit := NextLine(tag, idx, num, used0, first, k);
        if !hit { missed := missed + 1; }
        idx := idx + 1;
        sz := sz - 64;
        k := k + 1;
      }
    }

    /** The consecutive blocks that cover the accessed bytes are looked up in ascending order. */
    method UpdateCache(write: bool, size: nat, address: nat, num: nat) returns (hit: bool)
      requires Valid(num) && num < Never && Span(address, size) <= sets
      modifies this
      ensures Valid(num + 1) && used == old(used) + Visited(address, size)
      ensures hit <==> AllHit(old(used), Visited(address, size), sets, ways)
      ensures accesses == old(accesses) + 1
      ensures readMisses == old(readMisses) + (if !hit && !write then 1 else 0)
      ensures writeMisses == old(writeMisses) + (if !hit && write then 1 else 0)
    {
      var tag := address / Pow2(c - s);
      var idx := (address / 64) % sets;
      Pow2Add(c - s - 6, 6);
      assert Pow2(6) == 64;
      TagAndIndex(address, sets);
      accesses := accesses + 1;
      var bbMissCount := 0;
      assert used + Blocks(address / 64, 0) == used;
      var lineHit := NextLine(tag, idx, num, used, address / 64, 0);
      if !lineHit { bbMissCount := bbMissCount + 1; }
      var missed := SplitAccess(tag, idx, size, address, num, old(used));
      bbMissCount := bbMissCount + missed;
      hit := bbMissCount == 0;
      if !hit {
        if write { writeMisses := writeMisses + 1; } else { readMisses := readMisses + 1; }
      }
    }
  }
}
