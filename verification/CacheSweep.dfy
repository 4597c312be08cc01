/** The trace-driven backend, and the sweep over cache sizes. */
module CacheSweep {
  import opened Common
  import opened Lru
  import opened SimpleCache

  /** A read or write of `1 << pow` bytes. */
  datatype MemOp = MemOp(write: bool, addr: nat, pow: nat)
  datatype Request = Request(write: bool, addr: nat, size: nat)

  function Min(a: nat, b: nat): nat { if a < b then a else b }

  /** Requests of at most 8 bytes that cover `bytes` bytes. */
  function Pieces(write: bool, addr: nat, bytes: nat): seq<Request>
    decreases bytes
  {
    if bytes == 0 then []
    else [Request(write, addr, Min(bytes, 8))] + Pieces(write, addr + Min(bytes, 8), bytes - Min(bytes, 8))
  }

  function Requests(ops: seq<MemOp>): seq<Request> {
    if ops == [] then [] else Pieces(ops[0].write, ops[0].addr, Pow2(ops[0].pow)) + Requests(ops[1..])
  }

  function VisitedBy(r: Request): seq<nat> { Visited(r.addr, r.size) }

  /** Blocks used by a sequence of requests. */
  function Used(rs: seq<Request>): seq<nat> {
    if rs == [] then [] else Used(rs[..|rs| - 1]) + VisitedBy(rs[|rs| - 1])
  }

  /** Requests with a miss, in an LRU cache of `n` sets of `ways` lines that starts empty. */
  function Misses(rs: seq<Request>, n: nat, ways: nat): (r: nat)
    requires n > 0
    ensures r <= |rs|
  {
    if rs == [] then 0
    else
      var p, q := rs[..|rs| - 1], rs[|rs| - 1];
      Misses(p, n, ways) + if AllHit(Used(p), VisitedBy(q), n, ways) then 0 else 1
  }

  // ---------- what is requested ----------

  /** Piece number `number` of operation number `op`. */
  datatype Piece = Piece(op: nat, number: nat)

  predicate InOps(ops: seq<MemOp>, p: Piece) { p.op < |ops| && 8 * p.number < Pow2(ops[p.op].pow) }

  /** Bytes 8k to 8k + 7 of the operation, as far as it has them. */
  function RequestOf(ops: seq<MemOp>, p: Piece): Request
    requires InOps(ops, p)
  {
    var o := ops[p.op];
    var rest := Pow2(o.pow) - 8 * p.number;
    Request(o.write, o.addr + 8 * p.number, if rest < 8 then rest else 8)
  }

  predicate Before(p: Piece, q: Piece) { p.op < q.op || (p.op == q.op && p.number < q.number) }

  lemma {:induction false} PiecesAre(write: bool, addr: nat, bytes: nat)
    ensures |Pieces(write, addr, bytes)| == (bytes + 7) / 8
    ensures forall k :: 0 <= k < |Pieces(write, addr, bytes)| ==>
              8 * k < bytes
              && Pieces(write, addr, bytes)[k]
                 == Request(write, addr + 8 * k, if bytes - 8 * k < 8 then bytes - 8 * k else 8)
    decreases bytes
  {
    if bytes > 0 { PiecesAre(write, addr + Min(bytes, 8), bytes - Min(bytes, 8)); }
  }

  /** The places of the requests of the operations from number `i` on. */
  function PiecesFrom(ops: seq<MemOp>, i: nat): seq<Piece>
    requires i <= |ops|
    decreases |ops| - i
  {
    if i == |ops| then []
    else seq((Pow2(ops[i].pow) + 7) / 8, k requires 0 <= k => Piece(i, k)) + PiecesFrom(ops, i + 1)
  }

  lemma {:induction false} RequestsAre(ops: seq<MemOp>, i: nat)
    requires i <= |ops|
    ensures var rs, ps := Requests(ops[i..]), PiecesFrom(ops, i);
            && |rs| == |ps|
            && forall j :: 0 <= j < |ps| ==> ps[j].op >= i && InOps(ops, ps[j]) && rs[j] == RequestOf(ops, ps[j])
    decreases |ops| - i
  {
    if i < |ops| {
      PiecesAre(ops[i].write, ops[i].addr, Pow2(ops[i].pow));
      RequestsAre(ops, i + 1);
      assert ops[i..][1..] == ops[i + 1..];
    }
  }

  lemma {:induction false} PiecesKnown(ops: seq<MemOp>, i: nat, p: Piece)
    requires i <= |ops|
    ensures p in PiecesFrom(ops, i) <==> p.op >= i && InOps(ops, p)
    decreases |ops| - i
  {
    if i < |ops| {
      PiecesKnown(ops, i + 1, p);
      var own := seq((Pow2(ops[i].pow) + 7) / 8, k requires 0 <= k => Piece(i, k));
      if p.op == i && InOps(ops, p) { assert own[p.number] == p; }
    }
  }

  predicate Rises(ps: seq<Piece>) { forall j, k :: 0 <= j < k < |ps| ==> Before(ps[j], ps[k]) }

  lemma RisesConcat(p: seq<Piece>, q: seq<Piece>)
    requires Rises(p) && Rises(q) && forall x, y :: x in p && y in q ==> Before(x, y)
    ensures Rises(p + q)
  {
    forall j, k | 0 <= j < k < |p + q| ensures Before((p + q)[j], (p + q)[k]) {
      if j < |p| <= k { assert p[j] in p && q[k - |p|] in q; }
    }
  }

  lemma {:induction false} PiecesRise(ops: seq<MemOp>, i: nat)
    requires i <= |ops|
    ensures Rises(PiecesFrom(ops, i))
    decreases |ops| - i
  {
    if i < |ops| {
      PiecesRise(ops, i + 1);
      var own, rest := seq((Pow2(ops[i].pow) + 7) / 8, k requires 0 <= k => Piece(i, k)), PiecesFrom(ops, i + 1);
      forall x, y | x in own && y in rest ensures Before(x, y) { PiecesKnown(ops, i + 1, y); }
      RisesConcat(own, rest);
    }
  }

  /** The requests of a trace are exactly its operations in pieces of 8 bytes, in order: every byte of every
      operation in one of them, with the operation's direction, and no other byte. */
  lemma RequestsListed(ops: seq<MemOp>) returns (ps: seq<Piece>)
    ensures |ps| == |Requests(ops)|
    ensures forall j :: 0 <= j < |ps| ==> InOps(ops, ps[j]) && Requests(ops)[j] == RequestOf(ops, ps[j])
    ensures Rises(ps) && forall p :: p in ps <==> InOps(ops, p)
  {
    ps := PiecesFrom(ops, 0);
    assert ops[0..] == ops;
    RequestsAre(ops, 0);
    PiecesRise(ops, 0);
    forall p ensures p in ps <==> InOps(ops, p) { PiecesKnown(ops, 0, p); }
  }

  // ---------- what a miss is ----------

  /** Use `j` of the blocks finds its block resident. */
  predicate HitAt(h: seq<nat>, bs: seq<nat>, n: nat, ways: nat, j: nat)
    requires n > 0 && j < |bs|
  {
    Resident(h + bs[..j], bs[j], n, ways)
  }

  lemma HitShift(h: seq<nat>, bs: seq<nat>, n: nat, ways: nat, j: nat)
    requires n > 0 && j + 1 < |bs|
    ensures HitAt(h + [bs[0]], bs[1..], n, ways, j) <==> HitAt(h, bs, n, ways, j + 1)
  {
    assert (h + [bs[0]]) + bs[1..][..j] == h + bs[..j + 1];
  }

  lemma {:induction false} AllHitIs(h: seq<nat>, bs: seq<nat>, n: nat, ways: nat)
    requires n > 0
    ensures AllHit(h, bs, n, ways) <==> forall j: nat :: j < |bs| ==> HitAt(h, bs, n, ways, j)
    decreases |bs|
  {
    if bs != [] {
      var h', bs' := h + [bs[0]], bs[1..];
      AllHitIs(h', bs', n, ways);
      assert h + bs[..0] == h;
      assert HitAt(h, bs, n, ways, 0) <==> Resident(h, bs[0], n, ways);
      if AllHit(h, bs, n, ways) {
        forall j: nat | j < |bs| ensures HitAt(h, bs, n, ways, j) {
          if j > 0 { HitShift(h, bs, n, ways, j - 1); }
        }
      }
      if forall j: nat :: j < |bs| ==> HitAt(h, bs, n, ways, j) {
        forall j: nat | j < |bs'| ensures HitAt(h', bs', n, ways, j) { HitShift(h, bs, n, ways, j); }
      }
    }
  }

  /** One of the blocks of request `k` is not resident when its turn comes. */
  ghost predicate MissAt(rs: seq<Request>, n: nat, ways: nat, k: nat)
    requires n > 0 && k < |rs|
  {
    var bs := Visited(rs[k].addr, rs[k].size);
    exists j: nat :: j < |bs| && !HitAt(Used(rs[..k]), bs, n, ways, j)
  }

  lemma MissAtIs(rs: seq<Request>, n: nat, ways: nat, k: nat)
    requires n > 0 && k < |rs|
    ensures MissAt(rs, n, ways, k) <==> !AllHit(Used(rs[..k]), VisitedBy(rs[k]), n, ways)
  {
    AllHitIs(Used(rs[..k]), VisitedBy(rs[k]), n, ways);
  }

  ghost function MissSet(rs: seq<Request>, n: nat, ways: nat, m: nat): set<nat>
    requires n > 0 && m <= |rs|
  {
    set k: nat | k < m && MissAt(rs, n, ways, k)
  }

  lemma MissSetNext(rs: seq<Request>, n: nat, ways: nat, m: nat)
    requires n > 0 && m < |rs|
    ensures |MissSet(rs, n, ways, m + 1)| == |MissSet(rs, n, ways, m)| + if MissAt(rs, n, ways, m) then 1 else 0
  {
    var s, s' := MissSet(rs, n, ways, m), MissSet(rs, n, ways, m + 1);
    assert m !in s;
    assert s' == if MissAt(rs, n, ways, m) then s + {m} else s;
  }

  lemma MissesNext(rs: seq<Request>, n: nat, ways: nat, m: nat)
    requires n > 0 && m < |rs|
    ensures Misses(rs[..m + 1], n, ways) == Misses(rs[..m], n, ways) + if MissAt(rs, n, ways, m) then 1 else 0
  {
    MissAtIs(rs, n, ways, m);
    assert rs[..m + 1] == rs[..m] + [rs[m]];
    UsedMore(rs[..m], rs[m], n, ways);
  }

  lemma {:induction false} MissesUpto(rs: seq<Request>, n: nat, ways: nat, m: nat)
    requires n > 0 && m <= |rs|
    ensures Misses(rs[..m], n, ways) == |MissSet(rs, n, ways, m)|
    decreases m
  {
    if m == 0 {
      assert MissSet(rs, n, ways, 0) == {} && rs[..0] == [];
    } else {
      MissesUpto(rs, n, ways, m - 1);
      MissSetNext(rs, n, ways, m - 1);
      MissesNext(rs, n, ways, m - 1);
    }
  }

  /** Misses are counted once for each request that misses. */
  lemma MissesAre(rs: seq<Request>, n: nat, ways: nat)
    requires n > 0
    ensures Misses(rs, n, ways) == |set k: nat | k < |rs| && MissAt(rs, n, ways, k)|
  {
    MissesUpto(rs, n, ways, |rs|);
    assert rs[..|rs|] == rs;
  }

  // ---------- inclusion over the sweep ----------

  lemma {:induction false} HitsStay(h: seq<nat>, bs: seq<nat>, n: nat, f: nat, ways: nat)
    requires n > 0 && f > 0 && AllHit(h, bs, n, ways)
    ensures n * f > 0 && AllHit(h, bs, n * f, ways)
    decreases |bs|
  {
    assert n * f > 0;
    if bs != [] {
      Inclusion(h, bs[0], n, f, ways);
      HitsStay(h + [bs[0]], bs[1..], n, f, ways);
    }
  }

  lemma {:induction false} MissesShrink(rs: seq<Request>, n: nat, f: nat, ways: nat)
    requires n > 0 && f > 0
    ensures n * f > 0 && Misses(rs, n * f, ways) <= Misses(rs, n, ways)
  {
    assert n * f > 0;
    if rs != [] {
      var p, q := rs[..|rs| - 1], rs[|rs| - 1];
      MissesShrink(p, n, f, ways);
      if AllHit(Used(p), VisitedBy(q), n, ways) { HitsStay(Used(p), VisitedBy(q), n, f, ways); }
    }
  }

  function Sets(c: nat, s: nat): (r: nat)
    requires c >= s + 6
    ensures r > 0
  {
    Pow2(c - s - 6)
  }

  lemma SetsGrow(c: nat, c': nat, s: nat)
    requires s + 6 <= c <= c'
    ensures Sets(c', s) == Sets(c, s) * Pow2(c' - c)
  {
    Pow2Add(c - s - 6, c' - c);
    assert c - s - 6 + (c' - c) == c' - s - 6;
  }

  /** With the associativity fixed, a larger cache has every block of a smaller one at the same point
      of the same trace. */
  lemma SweepInclusion(h: seq<nat>, x: nat, c: nat, c': nat, s: nat)
    requires s + 6 <= c <= c' && Resident(h, x, Sets(c, s), Pow2(s))
    ensures Resident(h, x, Sets(c', s), Pow2(s))
  {
    SetsGrow(c, c', s);
    Inclusion(h, x, Sets(c, s), Pow2(c' - c), Pow2(s));
  }

  /** A larger cache never has more misses. */
  lemma SweepMonotone(rs: seq<Request>, c: nat, c': nat, s: nat)
    requires s + 6 <= c <= c'
    ensures Misses(rs, Sets(c', s), Pow2(s)) <= Misses(rs, Sets(c, s), Pow2(s))
  {
    SetsGrow(c, c', s);
    MissesShrink(rs, Sets(c, s), Pow2(c' - c), Pow2(s));
  }

  // ---------- the backend ----------

  lemma UsedMore(rs: seq<Request>, r: Request, n: nat, ways: nat)
    requires n > 0
    ensures Used(rs + [r]) == Used(rs) + VisitedBy(r)
    ensures Misses(rs + [r], n, ways) == Misses(rs, n, ways) + if AllHit(Used(rs), VisitedBy(r), n, ways) then 0 else 1
  {
    assert (rs + [r])[..|rs|] == rs;
  }

  lemma NextPiece(write: bool, addr: nat, bytes: nat, done: seq<Request>)
    requires bytes > 0
    ensures var n := Min(bytes, 8);
            done + Pieces(write, addr, bytes) == done + [Request(write, addr, n)] + Pieces(write, addr + n, bytes - n)
  {
    var n := Min(bytes, 8);
    var rest := Pieces(write, addr + n, bytes - n);
    assert done + ([Request(write, addr, n)] + rest) == done + [Request(write, addr, n)] + rest;
  }

  class Backend {
    const cache: Cache
    var accesses: nat
    var misses: nat

    constructor (c: nat, s: nat)
      requires c > s + 6
      ensures Did([]) && cache.c == c && cache.s == s && fresh(cache)
    {
      cache := new Cache(c, s);
      accesses, misses := 0, 0;
    }

    /** The requests `rs` have gone through the cache. */
    ghost predicate Did(rs: seq<Request>)
      reads this, cache
    {
      && cache.Valid(|rs| + 1) && cache.c > cache.s + 6 && cache.used == Used(rs)
      && accesses == cache.accesses == |rs|
      && misses == cache.readMisses + cache.writeMisses == Misses(rs, cache.sets, cache.ways)
    }

    method Access(write: bool, size: nat, addr: nat, ghost rs: seq<Request>)
      requires Did(rs) && size <= 8 && |rs| + 1 < Never
      modifies this, cache
      ensures Did(rs + [Request(write, addr, size)])
    {
      accesses := accesses + 1;
      assert cache.sets >= 2;
      UsedMore(rs, Request(write, addr, size), cache.sets, cache.ways);
      var hit := cache.UpdateCache(write, size, addr, accesses);
      if !hit { misses := misses + 1; }
    }

    /** One memory operation, in requests of at most 8 bytes. */
    method Update(op: MemOp, ghost rs: seq<Request>)
      requires Did(rs) && |rs + Pieces(op.write, op.addr, Pow2(op.pow))| < Never
      modifies this, cache
      ensures Did(rs + Pieces(op.write, op.addr, Pow2(op.pow)))
    {
      var numOfBytes, address := Pow2(op.pow), op.addr;
      ghost var all, done := rs + Pieces(op.write, op.addr, Pow2(op.pow)), rs;
      while numOfBytes > 0
        invariant Did(done) && done + Pieces(op.write, address, numOfBytes) == all
      {
        var accessBytes := if numOfBytes > 8 then 8 else numOfBytes;
        NextPiece(op.write, address, numOfBytes, done);
        Access(op.write, accessBytes, address, done);
        done := done + [Request(op.write, address, accessBytes)];
        numOfBytes := numOfBytes - accessBytes;
        address := address + accessBytes;
      }
      assert done + [] == done;
    }
  }

  function PiecesOf(op: MemOp): seq<Request> { Pieces(op.write, op.addr, Pow2(op.pow)) }

  lemma NextOp(ops: seq<MemOp>, i: nat, done: seq<Request>)
    requires i < |ops| && done + Requests(ops[i..]) == Requests(ops)
    ensures done + PiecesOf(ops[i]) + Requests(ops[i + 1..]) == Requests(ops)
    ensures |done + PiecesOf(ops[i])| <= |Requests(ops)|
  {
    var p, rest := PiecesOf(ops[i]), Requests(ops[i + 1..]);
    assert Requests(ops[i..]) == p + rest by { assert ops[i..][1..] == ops[i + 1..]; }
    assert (done + p) + rest == done + (p + rest);
  }

  method RunTrace(c: nat, s: nat, ops: seq<MemOp>) returns (misses: nat)
    requires c > s + 6 && |Requests(ops)| < Never
    ensures misses == Misses(Requests(ops), Sets(c, s), Pow2(s))
  {
    var b := new Backend(c, s);
    ghost var done: seq<Request> := [];
    var i := 0;
    while i < |ops|
      invariant i <= |ops| && fresh(b) && fresh(b.cache) && b.cache.c == c && b.cache.s == s
      invariant b.Did(done) && done + Requests(ops[i..]) == Requests(ops)
    {
      NextOp(ops, i, done);
      b.Update(ops[i], done);
      done := done + PiecesOf(ops[i]);
      i := i + 1;
    }
    assert done + [] == done;
    misses := b.misses;
  }

  /** The sweep of the program: 2^10 to 2^28 bytes, four lines a set. */
  method Sweep(ops: seq<MemOp>) returns (misses: seq<nat>)
    requires |Requests(ops)| < Never
    ensures |misses| == 19 && forall i :: 0 <= i < 19 ==> misses[i] == Misses(Requests(ops), Sets(10 + i, 2), Pow2(2))
    ensures forall i, j :: 0 <= i < j < 19 ==> misses[j] <= misses[i]
  {
    misses := [];
    for c := 10 to 29
      invariant |misses| == c - 10
      invariant forall i :: 0 <= i < c - 10 ==> misses[i] == Misses(Requests(ops), Sets(10 + i, 2), Pow2(2))
    {
      var m := RunTrace(c, 2, ops);
      misses := misses + [m];
    }
    forall i, j | 0 <= i < j < 19 ensures misses[j] <= misses[i] { SweepMonotone(Requests(ops), 10 + i, 10 + j, 2); }
  }
}
