/** The index of the task graph file: a topological order of the tasks, oldest ready task first. */
module TaskIndex {
  import opened Common
  import opened Tasks

  type Graph = map<TaskId, Task>

  const Root: TaskId := TaskId(0, 0)

  /** Predecessor and successor lists without duplicates that name the same edges; the root has no
      predecessor. */
  ghost predicate GraphOk(g: Graph) {
    && Root in g && g[Root].preds == []
    && (forall t :: t in g ==> g[t].id == t && Distinct(g[t].preds) && Distinct(g[t].succs))
    && (forall t, u :: t in g && u in g[t].succs ==> u in g && t in g[u].preds)
    && (forall t, u :: u in g && t in g[u].preds ==> t in g && u in g[t].succs)
  }

  predicate EdgeIn(g: Graph, t: TaskId, u: TaskId) { u in g && t in g[u].preds }

  // ---------- what an index is ----------

  function Before(index: seq<TaskId>, k: nat): set<TaskId>
    requires k <= |index|
  {
    set j | 0 <= j < k :: index[j]
  }

  function PredSet(g: Graph, t: TaskId): set<TaskId>
    requires t in g
  {
    set p | p in g[t].preds
  }

  /** With the tasks in `done` written, task `t` can be written next. */
  predicate Ready(g: Graph, done: set<TaskId>, t: TaskId) {
    t in g && t !in done && PredSet(g, t) <= done && (t == Root || g[t].preds != [])
  }

  /** The `k`-th task written was ready, and no ready task was older. */
  ghost predicate Chosen(g: Graph, index: seq<TaskId>, k: nat)
    requires k < |index|
  {
    && Ready(g, Before(index, k), index[k])
    && forall u :: Ready(g, Before(index, k), u) ==> g[index[k]].start <= g[u].start
  }

  ghost predicate Partial(g: Graph, index: seq<TaskId>) {
    forall k: nat :: k < |index| ==> Chosen(g, index, k)
  }

  /** An index: it cannot be continued. */
  ghost predicate IsIndex(g: Graph, index: seq<TaskId>) {
    Partial(g, index) && forall t :: !Ready(g, Before(index, |index|), t)
  }

  /** Task `t` is not written, but all its predecessors are; it has some, or is the root. */
  predicate CanCome(g: Graph, written: seq<TaskId>, t: TaskId) {
    && t in g && t !in written && (t == Root || g[t].preds != [])
    && forall p :: p in g[t].preds ==> p in written
  }

  predicate ComesOldest(g: Graph, written: seq<TaskId>, t: TaskId) {
    CanCome(g, written, t) && forall u :: u in g && CanCome(g, written, u) ==> g[t].start <= g[u].start
  }

  /** In terms of the list alone: each task is an oldest one that can come there, and in the end none can. */
  lemma IndexIs(g: Graph, index: seq<TaskId>)
    ensures IsIndex(g, index) <==>
            (forall k :: 0 <= k < |index| ==> ComesOldest(g, index[..k], index[k]))
            && forall t :: !CanCome(g, index, t)
  {
    forall k: nat, t | k <= |index| ensures Ready(g, Before(index, k), t) <==> CanCome(g, index[..k], t) {
      ReadyIs(g, index, k, t);
    }
    forall k: nat | k < |index| ensures Chosen(g, index, k) <==> ComesOldest(g, index[..k], index[k]) {
      ChosenIs(g, index, k);
    }
    assert index[..|index|] == index;
  }

  lemma ReadyIs(g: Graph, index: seq<TaskId>, k: nat, t: TaskId)
    requires k <= |index|
    ensures Ready(g, Before(index, k), t) <==> CanCome(g, index[..k], t)
  {
    BeforeIs(index, k);
    if t in g {
      assert forall p :: p in PredSet(g, t) <==> p in g[t].preds;
    }
  }

  lemma ChosenIs(g: Graph, index: seq<TaskId>, k: nat)
    requires k < |index|
    ensures Chosen(g, index, k) <==> ComesOldest(g, index[..k], index[k])
  {
    forall t ensures Ready(g, Before(index, k), t) <==> CanCome(g, index[..k], t) { ReadyIs(g, index, k, t); }
  }

  lemma BeforeIs(index: seq<TaskId>, k: nat)
    requires k <= |index|
    ensures forall t :: t in Before(index, k) <==> t in index[..k]
  {
    forall t | t in index[..k] ensures t in Before(index, k) {
      var j :| 0 <= j < k && index[..k][j] == t;
      assert index[j] == t;
    }
    forall t | t in Before(index, k) ensures t in index[..k] {
      var j :| 0 <= j < k && index[j] == t;
      assert index[..k][j] == t;
    }
  }

  // ---------- order and completeness ----------

  /** No task twice, and every edge into a written task goes forward. */
  lemma IndexForward(g: Graph, index: seq<TaskId>)
    requires Partial(g, index)
    ensures Distinct(index) && forall k :: 0 <= k < |index| ==> index[k] in g
    ensures forall t, k :: 0 <= k < |index| && EdgeIn(g, t, index[k]) ==> exists j :: 0 <= j < k && index[j] == t
  {
    forall i, j | 0 <= i < j < |index| ensures index[i] != index[j] {
      assert Chosen(g, index, j) && index[i] in Before(index, j);
    }
    forall t, k | 0 <= k < |index| && EdgeIn(g, t, index[k]) ensures exists j :: 0 <= j < k && index[j] == t {
      assert Chosen(g, index, k) && t in PredSet(g, index[k]);
    }
    forall k | 0 <= k < |index| ensures index[k] in g { assert Chosen(g, index, k); }
  }

  /** A path: each task is a predecessor of the next. */
  predicate IsPath(g: Graph, p: seq<TaskId>) {
    |p| > 0 && (forall k :: 0 <= k < |p| ==> p[k] in g) && forall k :: 0 <= k < |p| - 1 ==> EdgeIn(g, p[k], p[k + 1])
  }

  predicate Cycle(g: Graph, p: seq<TaskId>) {
    |p| > 1 && IsPath(g, p) && p[0] == p[|p| - 1]
  }

  ghost predicate Acyclic(g: Graph) { forall p :: !Cycle(g, p) }

  ghost predicate OneRoot(g: Graph) { forall t :: t in g && g[t].preds == [] ==> t == Root }

  function Position(index: seq<TaskId>, t: TaskId): (r: nat)
    requires t in index
    ensures r < |index| && index[r] == t
  {
    if index[0] == t then 0 else 1 + Position(index[1..], t)
  }

  lemma PositionUnique(index: seq<TaskId>, j: nat, t: TaskId)
    requires Distinct(index) && j < |index| && index[j] == t
    ensures Position(index, t) == j
  {
    assert index[Position(index, t)] == index[j];
  }

  lemma {:induction false} PathForward(g: Graph, index: seq<TaskId>, p: seq<TaskId>)
    requires Partial(g, index) && IsPath(g, p) && (forall t :: t in p ==> t in index)
    ensures |p| > 1 ==> Position(index, p[0]) < Position(index, p[|p| - 1])
    ensures |p| == 1 ==> Position(index, p[0]) == Position(index, p[|p| - 1])
    decreases |p|
  {
    if |p| > 1 {
      var q := p[..|p| - 1];
      PathForward(g, index, q);
      IndexForward(g, index);
      var a, b := p[|p| - 2], p[|p| - 1];
      assert a in p && b in p && EdgeIn(g, a, b);
      var k := Position(index, b);
      assert index[k] == b && EdgeIn(g, a, index[k]);
      var j: nat :| j < k && index[j] == a;
      PositionUnique(index, j, a);
    }
  }

  lemma PathExtends(g: Graph, q: TaskId, p: seq<TaskId>)
    requires IsPath(g, p) && q in g && EdgeIn(g, q, p[0])
    ensures IsPath(g, [q] + p)
  {
  }

  lemma PathCloses(g: Graph, p: seq<TaskId>, k: nat)
    requires IsPath(g, p) && k < |p| && EdgeIn(g, p[k], p[0])
    ensures Cycle(g, [p[k]] + p[..k + 1])
  {
    PathExtends(g, p[k], p[..k + 1]);
  }

  /** Every task of the set has a predecessor in the set. */
  ghost predicate Endless(g: Graph, r: set<TaskId>) {
    forall t {:trigger HasPred(g, r, t)} :: t in r ==> HasPred(g, r, t)
  }

  ghost predicate HasPred(g: Graph, r: set<TaskId>, t: TaskId) {
    t in g && exists q :: q in r && EdgeIn(g, q, t)
  }

  /** Such a set contains a cycle: a path can be extended backwards until it meets itself. */
  lemma {:induction false} CycleIn(g: Graph, r: set<TaskId>, p: seq<TaskId>)
    requires Endless(g, r) && IsPath(g, p) && Distinct(p) && (forall t :: t in p ==> t in r)
    ensures exists c :: Cycle(g, c)
    decreases |r| - |p|
  {
    DistinctSize(p, r);
    assert p[0] in p && HasPred(g, r, p[0]);
    var q :| q in r && EdgeIn(g, q, p[0]);
    if q in p {
      var k: nat :| k < |p| && p[k] == q;
      PathCloses(g, p, k);
    } else {
      assert HasPred(g, r, q);
      PathExtends(g, q, p);
      DistinctSize([q] + p, r);
      CycleIn(g, r, [q] + p);
    }
  }

  lemma {:induction false} DistinctSize(p: seq<TaskId>, r: set<TaskId>)
    requires Distinct(p) && forall t :: t in p ==> t in r
    ensures |p| <= |r|
    decreases |p|
  {
    if p != [] {
      assert p[0] in p && forall t :: t in p[1..] ==> t in p && t != p[0];
      DistinctSize(p[1..], r - {p[0]});
    }
  }

  lemma FullPath(p: seq<TaskId>, r: set<TaskId>, q: TaskId)
    requires Distinct(p) && (forall t :: t in p ==> t in r) && |p| == |r| && q in r
    ensures q in p
  {
    if q !in p { DistinctSize([q] + p, r); }
  }

  lemma FullIsAcyclic(g: Graph, index: seq<TaskId>)
    requires GraphOk(g) && IsIndex(g, index) && |index| == |g|
    ensures Acyclic(g) && OneRoot(g)
  {
    IndexForward(g, index);
    forall t | t in g ensures t in index { FullPath(index, g.Keys, t); }
    forall p ensures !Cycle(g, p) {
      if Cycle(g, p) { PathForward(g, index, p); }
    }
    forall t | t in g && g[t].preds == [] ensures t == Root {
      assert Chosen(g, index, Position(index, t));
    }
  }

  lemma LeftoverEndless(g: Graph, index: seq<TaskId>)
    requires GraphOk(g) && IsIndex(g, index) && OneRoot(g)
    ensures Endless(g, g.Keys - Before(index, |index|))
  {
    var done := Before(index, |index|);
    forall t | t in g.Keys - done ensures HasPred(g, g.Keys - done, t) {
      assert !Ready(g, done, t);
      var q :| q in PredSet(g, t) && q !in done;
      assert EdgeIn(g, q, t);
    }
  }

  lemma AcyclicIsFull(g: Graph, index: seq<TaskId>)
    requires GraphOk(g) && IsIndex(g, index) && Acyclic(g) && OneRoot(g)
    ensures |index| == |g|
  {
    IndexForward(g, index);
    LeftoverEndless(g, index);
    var r := g.Keys - Before(index, |index|);
    if t :| t in r {
      assert HasPred(g, r, t);
      assert IsPath(g, [t]);
      CycleIn(g, r, [t]);
    }
    forall t | t in g ensures t in Before(index, |index|) { assert t !in r; }
    assert g.Keys == Before(index, |index|);
    IndexCovers(index, g.Keys);
  }

  /** The final assertion, that as many tasks are in the index as were written, holds exactly for
      graphs without cycles whose only starting point is the root. */
  lemma FullIffAcyclic(g: Graph, index: seq<TaskId>)
    requires GraphOk(g) && IsIndex(g, index)
    ensures |index| == |g| <==> Acyclic(g) && OneRoot(g)
  {
    if |index| == |g| { FullIsAcyclic(g, index); }
    if Acyclic(g) && OneRoot(g) { AcyclicIsFull(g, index); }
  }

  lemma {:induction false} IndexCovers(index: seq<TaskId>, s: set<TaskId>)
    requires Distinct(index) && s == Before(index, |index|)
    ensures |index| == |s|
    decreases |index|
  {
    if index != [] {
      var x, i := index[|index| - 1], index[..|index| - 1];
      assert Before(i, |i|) == s - {x};
      IndexCovers(i, s - {x});
    } else { assert s == {}; }
  }

  // ---------- the index writer ----------

  /** What the writer keeps of a task: `p` predecessors are still to be written. */
  datatype Wrapper = Wrapper(self: TaskId, p: int, s: seq<TaskId>, start: nat)
  type TaskMap = map<TaskId, Wrapper>

  /** The entry of task `t`, with `p` predecessors still to be written. */
  predicate Keeps(g: Graph, m: TaskMap, t: TaskId, p: int)
    requires t in g
  {
    t in m && m[t] == Wrapper(t, p, g[t].succs, g[t].start)
  }

  function Left(g: Graph, done: set<TaskId>, t: TaskId): nat
    requires t in g
  {
    |PredSet(g, t) - done|
  }

  ghost predicate Tracked(g: Graph, done: set<TaskId>, m: TaskMap) {
    && m.Keys == g.Keys - done
    && forall t {:trigger Left(g, done, t)} :: t in g && t !in done ==> Keeps(g, m, t, Left(g, done, t))
  }

  ghost predicate Queued(g: Graph, done: set<TaskId>, q: set<TaskId>) {
    forall t {:trigger t in q} :: t in q <==> Ready(g, done, t)
  }

  /** Every predecessor of a written task is written. */
  predicate Closed(g: Graph, done: set<TaskId>) {
    forall t :: t in done ==> t in g && PredSet(g, t) <= done
  }

  /** Told the first `i` successors of `tid`, among them `t`. */
  predicate Told(g: Graph, tid: TaskId, i: nat, t: TaskId)
    requires tid in g && i <= |g[tid].succs|
  {
    t in g[tid].succs[..i]
  }

  /** The counts after the first `i` successors are told. */
  ghost predicate Counted(g: Graph, done: set<TaskId>, tid: TaskId, i: nat, m: TaskMap)
    requires tid in g && i <= |g[tid].succs|
  {
    && m.Keys == g.Keys - done
    && forall t {:trigger Told(g, tid, i, t)} :: t in g && t !in done ==>
         Keeps(g, m, t, Left(g, done, t) - if Told(g, tid, i, t) then 1 else 0)
  }

  /** Task `tid` is being written and the first `i` of its successors have been told. */
  ghost predicate Telling(g: Graph, done: set<TaskId>, tid: TaskId, i: nat, m: TaskMap, q: set<TaskId>)
    requires tid in g && i <= |g[tid].succs|
  {
    && Counted(g, done, tid, i, m)
    && forall t {:trigger t in q} {:trigger Told(g, tid, i, t)} ::
         t in q <==> (Ready(g, done, t) && t != tid) || (Told(g, tid, i, t) && Ready(g, done + {tid}, t))
  }

  lemma SuccessorWaits(g: Graph, done: set<TaskId>, tid: TaskId, u: TaskId)
    requires GraphOk(g) && Closed(g, done) && Ready(g, done, tid) && u in g[tid].succs
    ensures u in g && u !in done && u != tid && tid in PredSet(g, u)
    ensures Ready(g, done + {tid}, u) <==> |PredSet(g, u) - done| == 1
    ensures !Ready(g, done, u)
  {
    var left := PredSet(g, u) - done;
    assert tid in left;
    assert |left - {tid}| == |left| - 1;
    assert PredSet(g, u) <= done + {tid} <==> left - {tid} == {};
  }

  lemma ToldNext(g: Graph, tid: TaskId, i: nat)
    requires tid in g && i < |g[tid].succs| && Distinct(g[tid].succs)
    ensures !Told(g, tid, i, g[tid].succs[i])
    ensures forall t :: Told(g, tid, i + 1, t) <==> Told(g, tid, i, t) || t == g[tid].succs[i]
  {
    assert g[tid].succs[..i + 1] == g[tid].succs[..i] + [g[tid].succs[i]];
  }

  lemma ToldOne(g: Graph, done: set<TaskId>, tid: TaskId, i: nat, m: TaskMap, q: set<TaskId>)
    requires GraphOk(g) && Closed(g, done) && Ready(g, done, tid) && i < |g[tid].succs|
    requires Telling(g, done, tid, i, m, q)
    ensures var u := g[tid].succs[i];
            u in m && m[u].self == u &&
            Telling(g, done, tid, i + 1, m[u := m[u].(p := m[u].p - 1)], if m[u].p == 1 then q + {u} else q)
  {
    var u := g[tid].succs[i];
    SuccessorWaits(g, done, tid, u);
    ToldNext(g, tid, i);
    ToldStep(g, done, tid, i, m, q, u);
  }

  lemma CountedNext(g: Graph, done: set<TaskId>, tid: TaskId, i: nat, m: TaskMap, u: TaskId)
    requires tid in g && i < |g[tid].succs| && u in m && Counted(g, done, tid, i, m)
    requires !Told(g, tid, i, u) && (forall t :: Told(g, tid, i + 1, t) <==> Told(g, tid, i, t) || t == u)
    ensures Counted(g, done, tid, i + 1, m[u := m[u].(p := m[u].p - 1)])
  {
    var m' := m[u := m[u].(p := m[u].p - 1)];
    assert Keeps(g, m, u, Left(g, done, u));
    assert m'.Keys == m.Keys;
    forall t | t in g && t !in done
      ensures Keeps(g, m', t, Left(g, done, t) - if Told(g, tid, i + 1, t) then 1 else 0)
    {
      assert Keeps(g, m, t, Left(g, done, t) - if Told(g, tid, i, t) then 1 else 0);
    }
  }

  lemma ToldStep(g: Graph, done: set<TaskId>, tid: TaskId, i: nat, m: TaskMap, q: set<TaskId>, u: TaskId)
    requires tid in g && i < |g[tid].succs| && u in g && u !in done && Telling(g, done, tid, i, m, q)
    requires !Told(g, tid, i, u) && (forall t :: Told(g, tid, i + 1, t) <==> Told(g, tid, i, t) || t == u)
    requires !Ready(g, done, u) && (Ready(g, done + {tid}, u) <==> Left(g, done, u) == 1)
    ensures u in m && m[u].self == u
    ensures Telling(g, done, tid, i + 1, m[u := m[u].(p := m[u].p - 1)], if m[u].p == 1 then q + {u} else q)
  {
    assert Keeps(g, m, u, Left(g, done, u));
    CountedNext(g, done, tid, i, m, u);
  }

  lemma LeftAfter(g: Graph, done: set<TaskId>, tid: TaskId, t: TaskId)
    requires GraphOk(g) && t in g && tid in g && tid !in done
    ensures Left(g, done + {tid}, t) == Left(g, done, t) - if Told(g, tid, |g[tid].succs|, t) then 1 else 0
  {
    var s, left := g[tid].succs, PredSet(g, t) - done;
    assert s[..|s|] == s;
    assert PredSet(g, t) - (done + {tid}) == left - {tid};
    assert t in s <==> tid in left;
  }

  lemma ReadyAfter(g: Graph, done: set<TaskId>, tid: TaskId, t: TaskId)
    requires GraphOk(g) && Closed(g, done) && Ready(g, done, tid)
    ensures Ready(g, done + {tid}, t) <==>
      (Ready(g, done, t) && t != tid) || (Told(g, tid, |g[tid].succs|, t) && Ready(g, done + {tid}, t))
  {
    var s := g[tid].succs;
    assert s[..|s|] == s;
    assert t in g ==> (t in s <==> tid in PredSet(g, t));
  }

  lemma AllCounted(g: Graph, done: set<TaskId>, tid: TaskId, m: TaskMap)
    requires GraphOk(g) && Closed(g, done) && Ready(g, done, tid) && Counted(g, done, tid, |g[tid].succs|, m)
    ensures tid in m && Tracked(g, done + {tid}, m - {tid})
  {
    var done' := done + {tid};
    assert (m - {tid}).Keys == g.Keys - done';
    forall t | t in g && t !in done' ensures Keeps(g, m - {tid}, t, Left(g, done', t)) {
      assert Keeps(g, m, t, Left(g, done, t) - if Told(g, tid, |g[tid].succs|, t) then 1 else 0);
      LeftAfter(g, done, tid, t);
    }
  }

  lemma AllTold(g: Graph, done: set<TaskId>, tid: TaskId, m: TaskMap, q: set<TaskId>)
    requires GraphOk(g) && Closed(g, done) && Ready(g, done, tid) && Telling(g, done, tid, |g[tid].succs|, m, q)
    ensures tid in m && Tracked(g, done + {tid}, m - {tid}) && Queued(g, done + {tid}, q) && Closed(g, done + {tid})
  {
    var done' := done + {tid};
    AllCounted(g, done, tid, m);
    forall t ensures t in q <==> Ready(g, done', t) { ReadyAfter(g, done, tid, t); }
  }

  lemma StartTelling(g: Graph, done: set<TaskId>, tid: TaskId, m: TaskMap, q: set<TaskId>)
    requires tid in g && Tracked(g, done, m) && Queued(g, done, q)
    ensures Telling(g, done, tid, 0, m, q - {tid})
  {
    forall t | t in g && t !in done ensures Keeps(g, m, t, Left(g, done, t)) {}
  }

  lemma {:induction false} OldestExists(g: Graph, q: set<TaskId>) returns (t: TaskId)
    requires q != {} && q <= g.Keys
    ensures t in q && forall u :: u in q ==> g[t].start <= g[u].start
    decreases |q|
  {
    t :| t in q;
    if q != {t} {
      var v := OldestExists(g, q - {t});
      if g[v].start < g[t].start { t := v; }
    }
  }

  /** The loop over the successors of the task just written. */
  method TellSuccessors(tid: TaskId, m0: TaskMap, q0: set<TaskId>, ghost g: Graph, ghost done: set<TaskId>)
    returns (m: TaskMap, q: set<TaskId>)
    requires GraphOk(g) && Closed(g, done) && Ready(g, done, tid) && tid in m0 && m0[tid].s == g[tid].succs
    requires Telling(g, done, tid, 0, m0, q0)
    ensures Telling(g, done, tid, |g[tid].succs|, m, q)
  {
    m, q := m0, q0;
    var s := m0[tid].s;
    for i := 0 to |s|
      invariant Telling(g, done, tid, i, m, q)
    {
      var u := s[i];
      ToldOne(g, done, tid, i, m, q);
      var suTW := m[u];
      assert suTW.self == u;
      suTW := suTW.(p := suTW.p - 1);
      m := m[u := suTW];
      if suTW.p == 0 { q := q + {suTW.self}; }
    }
  }

  lemma BeforeNext(index: seq<TaskId>, k: nat)
    requires k < |index|
    ensures Before(index, k + 1) == Before(index, k) + {index[k]}
  {
    forall t | t in Before(index, k + 1) ensures t in Before(index, k) + {index[k]} {
      var j :| 0 <= j < k + 1 && index[j] == t;
    }
    forall t | t in Before(index, k) ensures t in Before(index, k + 1) {
      var j :| 0 <= j < k && index[j] == t;
      assert j < k + 1;
    }
    assert index[k] in Before(index, k + 1);
  }

  lemma OneMore(g: Graph, index: seq<TaskId>, tid: TaskId)
    requires Partial(g, index) && Ready(g, Before(index, |index|), tid)
    requires forall u :: Ready(g, Before(index, |index|), u) ==> g[tid].start <= g[u].start
    ensures Partial(g, index + [tid])
    ensures Before(index + [tid], |index| + 1) == Before(index, |index|) + {tid}
  {
    var index' := index + [tid];
    forall k: nat | k <= |index| ensures Before(index', k) == Before(index, k) {
      assert forall j :: 0 <= j < k ==> index'[j] == index[j];
    }
    forall k: nat | k < |index'| ensures Chosen(g, index', k) {
      assert k < |index| ==> Chosen(g, index, k);
    }
    BeforeNext(index', |index|);
  }

  /** The table as filled while the tasks were written to the file. */
  function Wrapped(g: Graph): TaskMap {
    map t | t in g :: Wrapper(t, |g[t].preds|, g[t].succs, g[t].start)
  }

  lemma {:induction false} DistinctCount(p: seq<TaskId>)
    requires Distinct(p)
    ensures |set t | t in p| == |p|
    decreases |p|
  {
    if p != [] {
      DistinctCount(p[1..]);
      assert (set t | t in p) == (set t | t in p[1..]) + {p[0]};
      assert p[0] !in p[1..];
    } else {
      assert (set t | t in p) == {};
    }
  }

  lemma StartLeft(g: Graph, t: TaskId)
    requires t in g && Distinct(g[t].preds)
    ensures Left(g, {}, t) == |g[t].preds|
  {
    DistinctCount(g[t].preds);
    assert PredSet(g, t) - {} == PredSet(g, t);
  }

  lemma StartReady(g: Graph, t: TaskId)
    requires GraphOk(g)
    ensures Ready(g, {}, t) <==> t == Root
  {
    if t in g && g[t].preds != [] { assert g[t].preds[0] in PredSet(g, t); }
  }

  lemma StartTracked(g: Graph)
    requires GraphOk(g)
    ensures Tracked(g, {}, Wrapped(g))
  {
    var m := Wrapped(g);
    assert m.Keys == g.Keys - {};
    forall t {:trigger Left(g, {}, t)} | t in g && t !in {} ensures Keeps(g, m, t, Left(g, {}, t)) { StartLeft(g, t); }
  }

  lemma StartQueued(g: Graph)
    requires GraphOk(g)
    ensures Queued(g, {}, {Root})
  {
    forall t ensures t in {Root} <==> Ready(g, {}, t) { StartReady(g, t); }
  }

  /** The top of the priority queue: any task with the least start time. */
  method Oldest(m: TaskMap, q: set<TaskId>, ghost g: Graph, ghost done: set<TaskId>) returns (tid: TaskId)
    requires Tracked(g, done, m) && Queued(g, done, q) && q != {}
    ensures tid in q && Ready(g, done, tid) && forall u :: Ready(g, done, u) ==> g[tid].start <= g[u].start
    ensures tid in m && m[tid].s == g[tid].succs
  {
    forall u | u in q ensures Ready(g, done, u) && u in m && m[u].start == g[u].start {
      assert Keeps(g, m, u, Left(g, done, u));
    }
    ghost var oldest := OldestExists(g, q);
    tid :| tid in q && forall u :: u in q ==> m[tid].start <= m[u].start;
    assert Keeps(g, m, tid, Left(g, done, tid));
    forall u | Ready(g, done, u) ensures g[tid].start <= g[u].start { assert u in q; }
  }

  /** `index` is written; what is left is in the map, and what is ready also in the queue. */
  ghost predicate Written(g: Graph, index: seq<TaskId>, m: TaskMap, q: set<TaskId>) {
    var done := Before(index, |index|);
    Partial(g, index) && Closed(g, done) && Tracked(g, done, m) && Queued(g, done, q)
  }

  lemma StartWritten(g: Graph)
    requires GraphOk(g)
    ensures Written(g, [], Wrapped(g), {Root})
  {
    StartTracked(g);
    StartQueued(g);
    assert Before([], 0) == {};
  }

  /** The oldest ready task is written next. */
  method WriteNext(g: Graph, index: seq<TaskId>, m0: TaskMap, q0: set<TaskId>)
    returns (tid: TaskId, m: TaskMap, q: set<TaskId>)
    requires GraphOk(g) && Written(g, index, m0, q0) && q0 != {}
    ensures Written(g, index + [tid], m, q) && |m| < |m0|
  {
    ghost var done := Before(index, |index|);
    tid := Oldest(m0, q0, g, done);
    OneMore(g, index, tid);
    StartTelling(g, done, tid, m0, q0);
    m, q := TellSuccessors(tid, m0, q0 - {tid}, g, done);
    AllTold(g, done, tid, m, q);
    assert m.Keys == m0.Keys;
    m := m - {tid};
    FewerKeys(m0, m, tid);
  }

  lemma FewerKeys(m0: TaskMap, m: TaskMap, tid: TaskId)
    requires tid in m0 && m.Keys == m0.Keys - {tid}
    ensures |m| < |m0|
  {
    assert |m.Keys| == |m0.Keys| - 1;
  }

  lemma NoneReady(g: Graph, index: seq<TaskId>, m: TaskMap, q: set<TaskId>)
    requires Written(g, index, m, q) && q == {}
    ensures IsIndex(g, index)
  {
    forall t ensures !Ready(g, Before(index, |index|), t) { assert t !in q; }
  }

  /** Writes the index; `full` is what the final assertion tests. */
  method WriteIndex(g: Graph) returns (index: seq<TaskId>, full: bool)
    requires GraphOk(g)
    ensures IsIndex(g, index)
    ensures full <==> Acyclic(g) && OneRoot(g)
  {
    var writeTaskMap := Wrapped(g);
    var taskSort := {Root};
    index := [];
    StartWritten(g);
    while taskSort != {}
      invariant Written(g, index, writeTaskMap, taskSort)
      decreases |writeTaskMap|
    {
      var tid;
      tid, writeTaskMap, taskSort := WriteNext(g, index, writeTaskMap, taskSort);
      index := index + [tid];
    }
    full := |index| == |g|;
    NoneReady(g, index, writeTaskMap, taskSort);
    FullIffAcyclic(g, index);
  }
}
