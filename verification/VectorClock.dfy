/** The vector clocks of the race detector.  A task's clock names, per context, the newest task
    that happens before it; clocks are dropped once every successor has been processed. */
module VectorClock {
  import opened Common
  import opened Tasks

  type Clock = map<nat, nat>

  /** The newer of two clocks at each context. */
  function Merge(a: Clock, b: Clock): Clock {
    map x | x in a.Keys + b.Keys :: Newer(a, b, x)
  }

  function Newer(a: Clock, b: Clock, x: nat): nat
    requires x in a || x in b
  {
    if x !in a then b[x] else if x !in b || a[x] >= b[x] then a[x] else b[x]
  }

  /** `r` is clock `a` with all of `b` merged in but the contexts `left`. */
  ghost predicate Merging(a: Clock, b: Clock, left: set<nat>, r: Clock) {
    && left <= b.Keys && (forall x :: x in r <==> x in a || (x in b && x !in left))
    && forall x :: x in r ==> r[x] == if x !in left then Newer(a, b, x) else if x in a then a[x] else 0
  }

  lemma MergeEnd(a: Clock, b: Clock, r: Clock)
    requires Merging(a, b, {}, r)
    ensures r == Merge(a, b)
  {
  }

  lemma MergeTurn(a: Clock, b: Clock, left: set<nat>, r: Clock, x: nat)
    requires Merging(a, b, left, r) && x in left
    ensures Merging(a, b, left - {x}, if x in r && b[x] <= r[x] then r else r[x := b[x]])
  {
  }

  // ---------- what a clock must say ----------

  /** Task `j` is task `k` or has a path to it. */
  ghost predicate Upto(tr: seq<Task>, j: nat, k: nat)
    requires k < |tr|
  {
    j == k || Before(tr, j, k)
  }

  /** The clock covers a task: it knows this task or a newer one of its context. */
  predicate Covers(c: Clock, id: TaskId) { id.ctx in c && c[id.ctx] >= id.seqid }

  ghost predicate Comes(tr: seq<Task>, k: nat, id: TaskId)
    requires k < |tr|
  {
    exists j: nat {:trigger Upto(tr, j, k)} :: j <= k && tr[j].id == id && Upto(tr, j, k)
  }

  /** Every entry of the clock is a task that happens before (or is) task `k`. */
  ghost predicate Sound(tr: seq<Task>, k: nat, c: Clock)
    requires k < |tr|
  {
    forall x :: x in c ==> Comes(tr, k, TaskId(x, c[x]))
  }

  ghost predicate Complete(tr: seq<Task>, k: nat, c: Clock)
    requires k < |tr|
  {
    forall j: nat {:trigger Upto(tr, j, k)} :: j <= k && Upto(tr, j, k) ==> Covers(c, tr[j].id)
  }

  /** The tests of `hbPathCheck` on an exact clock decide reachability. */
  lemma CoversIsPath(tr: seq<Task>, j: nat, k: nat, c: Clock)
    requires Chained(tr) && j < |tr| && k < |tr| && Sound(tr, k, c) && Complete(tr, k, c)
    ensures Covers(c, tr[j].id) <==> Upto(tr, j, k)
  {
    var id := tr[j].id;
    if Upto(tr, j, k) {
      if j != k { BeforeIsEarlier(tr, j, k); }
    } else if Covers(c, id) {
      assert Comes(tr, k, TaskId(id.ctx, c[id.ctx]));
      var m: nat :| m <= k && tr[m].id == TaskId(id.ctx, c[id.ctx]) && Upto(tr, m, k);
      if j < m {
        ChainPath(tr, j, m);
        if m != k { BeforeTransitive(tr, j, m, k); }
      }
    }
  }

  /** The clock under construction covers task `k` and all that reaches its first `i` predecessors. */
  ghost predicate Partial(tr: seq<Task>, k: nat, i: nat, c: Clock)
    requires k < |tr| && i <= |tr[k].preds|
  {
    Covers(c, tr[k].id) && forall m: nat :: m < k && tr[m].id in tr[k].preds[..i] ==> Complete(tr, m, c)
  }

  lemma MergeCovers(a: Clock, b: Clock, id: TaskId)
    requires Covers(a, id) || Covers(b, id)
    ensures Covers(Merge(a, b), id)
  {
  }

  lemma MergeComplete(tr: seq<Task>, m: nat, a: Clock, b: Clock)
    requires m < |tr| && (Complete(tr, m, a) || Complete(tr, m, b))
    ensures Complete(tr, m, Merge(a, b))
  {
    forall j: nat | j <= m && Upto(tr, j, m) ensures Covers(Merge(a, b), tr[j].id) { MergeCovers(a, b, tr[j].id); }
  }

  lemma ComesOver(tr: seq<Task>, m: nat, k: nat, id: TaskId)
    requires m < k < |tr| && Edge(tr, m, k) && Comes(tr, m, id)
    ensures Comes(tr, k, id)
  {
    var j: nat :| j <= m && tr[j].id == id && Upto(tr, j, m);
    assert Before(tr, j, k) && Upto(tr, j, k);
  }

  lemma MergeSound(tr: seq<Task>, k: nat, m: nat, a: Clock, b: Clock)
    requires m < k < |tr| && Edge(tr, m, k) && Sound(tr, k, a) && Sound(tr, m, b)
    ensures Sound(tr, k, Merge(a, b))
  {
    var c := Merge(a, b);
    forall x | x in c ensures Comes(tr, k, TaskId(x, c[x])) {
      if !(x in a && c[x] == a[x]) { ComesOver(tr, m, k, TaskId(x, b[x])); }
    }
  }

  lemma MergePartial(tr: seq<Task>, k: nat, i: nat, m: nat, a: Clock, b: Clock)
    requires Ordered(tr) && m < k < |tr| && i < |tr[k].preds| && tr[k].preds[i] == tr[m].id
    requires Partial(tr, k, i, a) && Complete(tr, m, b)
    ensures Partial(tr, k, i + 1, Merge(a, b))
  {
    MergeCovers(a, b, tr[k].id);
    assert tr[k].preds[..i + 1] == tr[k].preds[..i] + [tr[m].id];
    forall l: nat | l < k && tr[l].id in tr[k].preds[..i + 1] ensures Complete(tr, l, Merge(a, b)) {
      assert l == m || tr[l].id in tr[k].preds[..i];
      MergeComplete(tr, l, a, b);
    }
  }

  lemma PartialComplete(tr: seq<Task>, k: nat, c: Clock)
    requires k < |tr| && Partial(tr, k, |tr[k].preds|, c)
    ensures Complete(tr, k, c)
  {
    assert tr[k].preds[..|tr[k].preds|] == tr[k].preds;
    forall j: nat | j <= k && Upto(tr, j, k) ensures Covers(c, tr[j].id) {
      if j != k {
        var m: nat :| m < k && Edge(tr, m, k) && (m == j || Before(tr, j, m));
        if m != j { BeforeIsEarlier(tr, j, m); }
        assert Upto(tr, j, m);
      }
    }
  }

  lemma PredIndex(tr: seq<Task>, k: nat, i: nat) returns (m: nat)
    requires Ordered(tr) && k < |tr| && i < |tr[k].preds|
    ensures m < k && tr[m].id == tr[k].preds[i] && Edge(tr, m, k) && tr[m].id !in tr[k].preds[..i]
    ensures forall l: nat :: l < k && l != m ==> tr[l].id != tr[m].id
  {
    var p := tr[k].preds[i];
    assert p in tr[k].preds && Distinct(tr[k].preds);
    m :| m < k && tr[m].id == p;
  }

  // ---------- reference counts ----------

  /** The successors of task `m` among the first `k` tasks. */
  function Consumers(tr: seq<Task>, m: nat, k: nat): (r: seq<TaskId>)
    requires m < |tr| && k <= |tr|
    ensures |r| <= k
  {
    if k == 0 then []
    else Consumers(tr, m, k - 1) + if Edge(tr, m, k - 1) then [tr[k - 1].id] else []
  }

  lemma {:induction false} ConsumerIn(tr: seq<Task>, m: nat, k: nat, id: TaskId)
    requires m < |tr| && k <= |tr|
    ensures id in Consumers(tr, m, k) <==> exists j: nat :: j < k && Edge(tr, m, j) && tr[j].id == id
  {
    if k > 0 {
      ConsumerIn(tr, m, k - 1, id);
    }
  }

  lemma {:induction false} EdgeIsForward(tr: seq<Task>, m: nat, k: nat)
    requires Ordered(tr) && m < |tr| && k < |tr| && Edge(tr, m, k)
    ensures m < k && tr[k].id in tr[m].succs
  {
    var l: nat :| l < k && tr[l].id == tr[m].id;
    assert l == m;
  }

  lemma {:induction false} ConsumersDistinct(tr: seq<Task>, m: nat, k: nat)
    requires Ordered(tr) && m < |tr| && k <= |tr|
    ensures Distinct(Consumers(tr, m, k)) && forall id :: id in Consumers(tr, m, k) ==> id in tr[m].succs
  {
    if k > 0 {
      ConsumersDistinct(tr, m, k - 1);
      if Edge(tr, m, k - 1) {
        EdgeIsForward(tr, m, k - 1);
        ConsumerIn(tr, m, k - 1, tr[k - 1].id);
      }
    }
  }

  lemma {:induction false} NoConsumers(tr: seq<Task>, m: nat, k: nat)
    requires Ordered(tr) && m < |tr| && k <= m + 1 <= |tr|
    ensures Consumers(tr, m, k) == []
  {
    if k > 0 {
      NoConsumers(tr, m, k - 1);
      if Edge(tr, m, k - 1) { EdgeIsForward(tr, m, k - 1); }
    }
  }

  lemma {:induction false} DistinctFits<T>(s: seq<T>, t: seq<T>)
    requires Distinct(s) && forall x :: x in s ==> x in t
    ensures |s| <= |t|
    decreases |s|
  {
    if s != [] {
      var x := s[0];
      assert x in t;
      var k :| 0 <= k < |t| && t[k] == x;
      var t' := t[..k] + t[k + 1..];
      forall y | y in s[1..] ensures y in t' {
        var j :| 1 <= j < |s| && s[j] == y;
        assert y in t && y != x;
        var l :| 0 <= l < |t| && t[l] == y;
        assert t' [if l < k then l else l - 1] == y;
      }
      DistinctFits(s[1..], t');
    }
  }

  /** A task with an unprocessed successor still has references: its clock is not dropped yet. */
  lemma StillReferenced(tr: seq<Task>, m: nat, k: nat)
    requires Ordered(tr) && m < k < |tr| && Edge(tr, m, k)
    ensures |Consumers(tr, m, k)| < |tr[m].succs|
  {
    EdgeIsForward(tr, m, k);
    ConsumersDistinct(tr, m, k + 1);
    DistinctFits(Consumers(tr, m, k + 1), tr[m].succs);
  }

  // ---------- the table of clocks ----------

  type Table = map<TaskId, Clock>
  type Refs = map<TaskId, int>

  ghost predicate Exact(tr: seq<Task>, k: nat, c: Clock)
    requires k < |tr|
  {
    Sound(tr, k, c) && Complete(tr, k, c)
  }

  ghost predicate ExactAt(tr: seq<Task>, m: nat, clocks: Table)
    requires m < |tr|
  {
    tr[m].id in clocks ==> Exact(tr, m, clocks[tr[m].id])
  }

  /** The clocks kept for the first `k` tasks are exact. */
  ghost predicate AllExact(tr: seq<Task>, k: nat, clocks: Table)
    requires k <= |tr|
  {
    forall m: nat :: m < k ==> ExactAt(tr, m, clocks)
  }

  lemma AllExactMore(tr: seq<Task>, k: nat, clocks: Table, c: Clock)
    requires Ordered(tr) && k < |tr| && AllExact(tr, k, clocks) && Exact(tr, k, c)
    ensures AllExact(tr, k + 1, clocks[tr[k].id := c])
  {
    var clocks' := clocks[tr[k].id := c];
    forall m: nat | m < k + 1 ensures ExactAt(tr, m, clocks') {
      assert m < k ==> ExactAt(tr, m, clocks) && tr[m].id != tr[k].id;
    }
  }

  /** `used` references to task `m` are given up: a clock is kept until none is left. */
  predicate RefOk(tr: seq<Task>, clocks: Table, refs: Refs, m: nat, used: nat)
    requires m < |tr|
  {
    var id := tr[m].id;
    && id in refs && refs[id] == |tr[m].succs| - used
    && (id in clocks <==> used < |tr[m].succs| || tr[m].succs == [])
  }

  predicate Processed(tr: seq<Task>, k: nat, id: TaskId)
    requires k <= |tr|
  {
    exists m: nat :: m < k && tr[m].id == id
  }

  /** The first `k` tasks of the trace are processed: exactly the tasks with a successor still to
      come (or with none at all) have a clock. */
  ghost predicate Tracks(tr: seq<Task>, k: nat, clocks: Table, refs: Refs)
    requires k <= |tr|
  {
    && (forall m: nat :: m < k ==> RefOk(tr, clocks, refs, m, |Consumers(tr, m, k)|))
    && (forall id :: id in clocks || id in refs ==> Processed(tr, k, id))
  }

  /** References to task `m` given up when the first `i` predecessors of task `k` are dealt with too. */
  function UsedMidway(tr: seq<Task>, k: nat, i: nat, m: nat): nat
    requires m < |tr| && k < |tr| && i <= |tr[k].preds|
  {
    |Consumers(tr, m, k)| + if tr[m].id in tr[k].preds[..i] then 1 else 0
  }

  ghost predicate Midway(tr: seq<Task>, k: nat, i: nat, clocks: Table, refs: Refs)
    requires k < |tr| && i <= |tr[k].preds|
  {
    && (forall m: nat :: m < k ==> RefOk(tr, clocks, refs, m, UsedMidway(tr, k, i, m)))
    && tr[k].id in refs && refs[tr[k].id] == |tr[k].succs|
    && (forall id :: id in clocks ==> Processed(tr, k, id))
    && (forall id :: id in refs ==> Processed(tr, k + 1, id))
  }

  lemma StartOk(tr: seq<Task>, k: nat, clocks: Table, refs: Refs)
    requires Ordered(tr) && k < |tr| && Tracks(tr, k, clocks, refs)
    ensures Midway(tr, k, 0, clocks, refs[tr[k].id := |tr[k].succs|])
  {
    var refs' := refs[tr[k].id := |tr[k].succs|];
    forall m: nat | m < k ensures RefOk(tr, clocks, refs', m, UsedMidway(tr, k, 0, m)) {
      assert tr[m].id != tr[k].id;
      assert RefOk(tr, clocks, refs, m, |Consumers(tr, m, k)|);
    }
    forall id | id in refs' ensures Processed(tr, k + 1, id) {
      if id == tr[k].id { assert k < k + 1; } else { assert Processed(tr, k, id); }
    }
  }

  function Dropped(pid: TaskId, clocks: Table, refs: Refs): Table
    requires pid in refs
  {
    if refs[pid] == 1 then clocks - {pid} else clocks
  }

  lemma AllExactLess(tr: seq<Task>, k: nat, clocks: Table, refs: Refs, pid: TaskId)
    requires k <= |tr| && AllExact(tr, k, clocks) && pid in refs
    ensures AllExact(tr, k, Dropped(pid, clocks, refs))
  {
    forall m: nat | m < k ensures ExactAt(tr, m, Dropped(pid, clocks, refs)) { assert ExactAt(tr, m, clocks); }
  }

  lemma GiveUpOk(tr: seq<Task>, k: nat, i: nat, m: nat, clocks: Table, refs: Refs)
    requires Ordered(tr) && m < k < |tr| && i < |tr[k].preds| && tr[m].id == tr[k].preds[i]
    requires Edge(tr, m, k) && tr[m].id !in tr[k].preds[..i]
    requires forall l: nat :: l < k && l != m ==> tr[l].id != tr[m].id
    requires Midway(tr, k, i, clocks, refs)
    ensures tr[m].id in clocks && tr[m].id in refs
    ensures Midway(tr, k, i + 1, Dropped(tr[m].id, clocks, refs), refs[tr[m].id := refs[tr[m].id] - 1])
  {
    var pid := tr[m].id;
    StillReferenced(tr, m, k);
    assert RefOk(tr, clocks, refs, m, UsedMidway(tr, k, i, m));
    var clocks', refs' := Dropped(pid, clocks, refs), refs[pid := refs[pid] - 1];
    assert tr[k].preds[..i + 1] == tr[k].preds[..i] + [pid];
    var i' := i + 1;
    forall l: nat | l < k ensures RefOk(tr, clocks', refs', l, UsedMidway(tr, k, i', l)) {
      assert RefOk(tr, clocks, refs, l, UsedMidway(tr, k, i, l));
      assert UsedMidway(tr, k, i', l) == UsedMidway(tr, k, i, l) + if l == m then 1 else 0;
    }
    assert tr[k].id != pid;
  }

  lemma StoreOk(tr: seq<Task>, k: nat, c: Clock, clocks: Table, refs: Refs)
    requires Ordered(tr) && k < |tr| && Midway(tr, k, |tr[k].preds|, clocks, refs)
    ensures Tracks(tr, k + 1, clocks[tr[k].id := c], refs)
  {
    var clocks' := clocks[tr[k].id := c];
    assert tr[k].preds[..|tr[k].preds|] == tr[k].preds;
    var k' := k + 1;
    forall m: nat | m < k' ensures RefOk(tr, clocks', refs, m, |Consumers(tr, m, k')|) {
      if m < k {
        assert tr[m].id != tr[k].id;
        assert RefOk(tr, clocks, refs, m, UsedMidway(tr, k, |tr[k].preds|, m));
      } else {
        NoConsumers(tr, k, k + 1);
      }
    }
    forall id | id in clocks' ensures Processed(tr, k + 1, id) {
      if id == tr[k].id { assert k < k + 1; } else { assert Processed(tr, k, id); }
    }
  }

  lemma PredecessorOk(tr: seq<Task>, k: nat, i: nat, clocks: Table, refs: Refs, c: Clock)
    requires Ordered(tr) && k < |tr| && i < |tr[k].preds|
    requires Midway(tr, k, i, clocks, refs) && AllExact(tr, k, clocks)
    requires Sound(tr, k, c) && Partial(tr, k, i, c)
    ensures var pid := tr[k].preds[i];
            && pid in clocks && pid in refs
            && Midway(tr, k, i + 1, Dropped(pid, clocks, refs), refs[pid := refs[pid] - 1])
            && AllExact(tr, k, Dropped(pid, clocks, refs))
            && Sound(tr, k, Merge(c, clocks[pid])) && Partial(tr, k, i + 1, Merge(c, clocks[pid]))
  {
    var m := PredIndex(tr, k, i);
    var pid := tr[m].id;
    GiveUpOk(tr, k, i, m, clocks, refs);
    AllExactLess(tr, k, clocks, refs, pid);
    assert ExactAt(tr, m, clocks);
    MergeSound(tr, k, m, c, clocks[pid]);
    MergePartial(tr, k, i, m, c, clocks[pid]);
  }

  /** The tables with the first `i` predecessors of task `k` accounted for. */
  ghost predicate Counted(tr: seq<Task>, k: nat, i: nat, clocks: Table, refs: Refs)
    requires k < |tr| && i <= |tr[k].preds|
  {
    Ordered(tr) && Midway(tr, k, i, clocks, refs) && AllExact(tr, k, clocks)
  }

  /** The first `i` predecessors of task `k` are merged into clock `c`. */
  ghost predicate Taken(tr: seq<Task>, k: nat, i: nat, clocks: Table, refs: Refs, c: Clock)
    requires k < |tr| && i <= |tr[k].preds|
  {
    Counted(tr, k, i, clocks, refs) && Sound(tr, k, c) && Partial(tr, k, i, c)
  }

  class Clocks {
    var vecClock: Table
    var vecClockRef: Refs

    constructor ()
      ensures forall tr :: Tracks(tr, 0, vecClock, vecClockRef) && AllExact(tr, 0, vecClock)
    {
      vecClock, vecClockRef := map[], map[];
    }

    method MergeInto(predSet: Clock, subSet: Clock) returns (r: Clock)
      ensures r == Merge(predSet, subSet)
    {
      r := predSet;
      var left := subSet.Keys;
      while left != {}
        invariant Merging(predSet, subSet, left, r)
        decreases |left|
      {
        var x :| x in left;
        MergeTurn(predSet, subSet, left, r, x);
        left := left - {x};
        if x in r {
          if subSet[x] > r[x] { r := r[x := subSet[x]]; }
        } else {
          r := r[x := subSet[x]];
        }
      }
      MergeEnd(predSet, subSet, r);
    }

    method GiveUp(pid: TaskId)
      requires pid in vecClockRef
      modifies this
      ensures vecClockRef == old(vecClockRef)[pid := old(vecClockRef)[pid] - 1]
      ensures vecClock == Dropped(pid, old(vecClock), old(vecClockRef))
    {
      vecClockRef := vecClockRef[pid := vecClockRef[pid] - 1];
      if vecClockRef[pid] == 0 { vecClock := vecClock - {pid}; }
    }

    /** The clock of a predecessor is there, is merged and loses a reference. */
    method TakePredecessor(pid: TaskId, predSet: Clock, ghost tr: seq<Task>, ghost k: nat, ghost i: nat)
      returns (r: Clock)
      requires k < |tr| && i < |tr[k].preds| && pid == tr[k].preds[i]
      requires Taken(tr, k, i, vecClock, vecClockRef, predSet)
      modifies this
      ensures Taken(tr, k, i + 1, vecClock, vecClockRef, r)
    {
      PredecessorOk(tr, k, i, vecClock, vecClockRef, predSet);
      var subSet := if pid in vecClock then vecClock[pid] else map[];
      GiveUp(pid);
      r := MergeInto(predSet, subSet);
    }

    method TakePredecessors(t: Task, first: Clock, ghost tr: seq<Task>, ghost k: nat) returns (predSet: Clock)
      requires k < |tr| && t == tr[k] && Taken(tr, k, 0, vecClock, vecClockRef, first)
      modifies this
      ensures Taken(tr, k, |t.preds|, vecClock, vecClockRef, predSet)
    {
      predSet := first;
      for i := 0 to |t.preds|
        invariant Taken(tr, k, i, vecClock, vecClockRef, predSet)
      {
        predSet := TakePredecessor(t.preds[i], predSet, tr, k, i);
      }
    }

    /** The predecessors themselves, then the task itself for its own context. */
    method FirstClock(t: Task, ghost tr: seq<Task>, ghost k: nat) returns (predSet: Clock)
      requires Ordered(tr) && k < |tr| && t == tr[k]
      ensures Sound(tr, k, predSet) && Partial(tr, k, 0, predSet)
    {
      predSet := map[];
      for i := 0 to |t.preds|
        invariant Sound(tr, k, predSet)
      {
        ghost var m := PredIndex(tr, k, i);
        assert Upto(tr, m, m) && Comes(tr, m, t.preds[i]);
        ComesOver(tr, m, k, t.preds[i]);
        predSet := predSet[t.preds[i].ctx := t.preds[i].seqid];
      }
      assert Upto(tr, k, k) && Comes(tr, k, t.id);
      predSet := predSet[t.id.ctx := t.id.seqid];
    }

    /** Processing the next task of the trace. */
    method UpdateVecClock(t: Task, ghost tr: seq<Task>, ghost k: nat)
      requires Ordered(tr) && k < |tr| && t == tr[k] && Tracks(tr, k, vecClock, vecClockRef)
      requires AllExact(tr, k, vecClock)
      modifies this
      ensures Tracks(tr, k + 1, vecClock, vecClockRef) && AllExact(tr, k + 1, vecClock)
      ensures t.id in vecClock && Exact(tr, k, vecClock[t.id])
    {
      StartOk(tr, k, vecClock, vecClockRef);
      var predSet := FirstClock(t, tr, k);
      vecClockRef := vecClockRef[t.id := |t.succs|];
      predSet := TakePredecessors(t, predSet, tr, k);
      PartialComplete(tr, k, predSet);
      StoreOk(tr, k, predSet, vecClock, vecClockRef);
      AllExactMore(tr, k, vecClock, predSet);
      vecClock := vecClock[t.id := predSet];
    }

    method HbPathCheck(src: TaskId, dst: TaskId) returns (path: bool)
      ensures path <==> dst in vecClock && Covers(vecClock[dst], src)
    {
      if dst in vecClock && src.ctx in vecClock[dst] {
        return vecClock[dst][src.ctx] >= src.seqid;
      }
      return false;
    }
  }
}
