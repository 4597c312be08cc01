/** Release of tasks by counting completed predecessors, as the simulator's main loop does it. */
module Scheduler {
  import opened Common
  import opened Tasks
  import opened TaskIndex

  datatype PendingTask = PendingTask(count: int, predecessors: set<TaskId>)

  type PendingMap = map<TaskId, PendingTask>
  type CountMap = map<TaskId, int>

  // ---------- what the tables must say ----------

  /** Every predecessor has completed; the root is released at the start. */
  predicate Released(g: Graph, done: set<TaskId>, u: TaskId) {
    u in g && (u == Root || (g[u].preds != [] && PredSet(g, u) <= done))
  }

  /** Some predecessor has completed, but not all. */
  predicate Waits(g: Graph, done: set<TaskId>, u: TaskId)
    requires u in g
  {
    PredSet(g, u) * done != {} && !(PredSet(g, u) <= done)
  }

  /** Successors of `p` not released yet. */
  function Unreleased(g: Graph, rel: seq<TaskId>, p: TaskId): set<TaskId>
    requires p in g
  {
    set u | u in g[p].succs && u !in rel
  }

  ghost predicate PendAt(g: Graph, done: set<TaskId>, pend: PendingMap, u: TaskId)
    requires u in g
  {
    && (u in pend <==> Waits(g, done, u))
    && (u in pend ==> pend[u] == PendingTask(Left(g, done, u), PredSet(g, u)))
  }

  ghost predicate RelAt(g: Graph, done: set<TaskId>, rel: seq<TaskId>, u: TaskId) {
    u in rel <==> Released(g, done, u)
  }

  ghost predicate CountAt(g: Graph, done: set<TaskId>, rel: seq<TaskId>, counts: CountMap, p: TaskId)
    requires p in g
  {
    && (p in counts <==> p in done && Unreleased(g, rel, p) != {})
    && (p in counts ==> counts[p] == |Unreleased(g, rel, p)|)
  }

  ghost predicate AllCounted(g: Graph, done: set<TaskId>, rel: seq<TaskId>, counts: CountMap) {
    counts.Keys <= g.Keys
    && forall p {:trigger CountAt(g, done, rel, counts, p)} :: p in g ==> CountAt(g, done, rel, counts, p)
  }

  ghost predicate Tables(g: Graph, done: set<TaskId>, pend: PendingMap, counts: CountMap, rel: seq<TaskId>) {
    && Distinct(rel) && pend.Keys <= g.Keys
    && (forall u {:trigger PendAt(g, done, pend, u)} :: u in g ==> PendAt(g, done, pend, u))
    && (forall u {:trigger RelAt(g, done, rel, u)} :: u in g ==> RelAt(g, done, rel, u))
    && (forall u :: u in rel ==> u in g)
    && AllCounted(g, done, rel, counts)
  }

  // ---------- while the successors of `t` are told ----------

  function DoneFor(g: Graph, done: set<TaskId>, t: TaskId, i: nat, u: TaskId): set<TaskId>
    requires t in g && i <= |g[t].succs|
  {
    if Told(g, t, i, u) then done + {t} else done
  }

  ghost predicate Between(g: Graph, done: set<TaskId>, t: TaskId, i: nat, pend: PendingMap, rel: seq<TaskId>)
    requires t in g && i <= |g[t].succs|
  {
    && Distinct(rel) && pend.Keys <= g.Keys
    && (forall u {:trigger DoneFor(g, done, t, i, u)} :: u in g ==>
          PendAt(g, DoneFor(g, done, t, i, u), pend, u) && RelAt(g, DoneFor(g, done, t, i, u), rel, u))
    && (forall u :: u in rel ==> u in g)
  }

  ghost predicate Midway(g: Graph, done: set<TaskId>, t: TaskId, i: nat, pend: PendingMap, counts: CountMap,
                         rel: seq<TaskId>)
    requires t in g && i <= |g[t].succs|
  {
    Between(g, done, t, i, pend, rel) && AllCounted(g, done + {t}, rel, counts)
  }

  function Dropped(counts: CountMap, preds: set<TaskId>): CountMap {
    map p | p in counts && !(p in preds && counts[p] == 1) :: if p in preds then counts[p] - 1 else counts[p]
  }

  lemma NotYet(g: Graph, done: set<TaskId>, t: TaskId, u: TaskId)
    requires GraphOk(g) && t in g && t !in done && u in g[t].succs
    ensures u in g && t in PredSet(g, u) && !Released(g, done, u) && u != Root
    ensures Left(g, done + {t}, u) == Left(g, done, u) - 1
    ensures Left(g, done + {t}, u) == 0 <==> PredSet(g, u) <= done + {t}
    ensures Waits(g, done + {t}, u) <==> !(PredSet(g, u) <= done + {t})
    ensures !Waits(g, done, u) ==> Left(g, done, u) == |g[u].preds|
  {
    var left := PredSet(g, u) - done;
    assert t in left && t in PredSet(g, u) * (done + {t});
    assert PredSet(g, u) - (done + {t}) == left - {t};
    if !Waits(g, done, u) {
      assert left == PredSet(g, u);
      DistinctCount(g[u].preds);
    }
  }

  /** Releasing `u` takes it from the successors every predecessor waits for. */
  lemma ReleaseCount(g: Graph, done: set<TaskId>, rel: seq<TaskId>, counts: CountMap, u: TaskId, p: TaskId)
    requires GraphOk(g) && u in g && u !in rel && p in g && PredSet(g, u) <= done && counts.Keys <= g.Keys
    requires CountAt(g, done, rel, counts, p)
    ensures CountAt(g, done, rel + [u], Dropped(counts, PredSet(g, u)), p)
  {
    var a, b := Unreleased(g, rel, p), Unreleased(g, rel + [u], p);
    if p in PredSet(g, u) {
      assert u in a && b == a - {u};
      assert |b| == |a| - 1 && (|b| == 0 <==> b == {});
    } else {
      assert u !in g[p].succs && b == a;
    }
  }

  function NextPending(g: Graph, pend: PendingMap, u: TaskId): PendingTask
    requires u in g
  {
    if u in pend then pend[u].(count := pend[u].count - 1) else PendingTask(|g[u].preds| - 1, PredSet(g, u))
  }

  lemma NextCount(g: Graph, done: set<TaskId>, t: TaskId, pend: PendingMap, u: TaskId)
    requires GraphOk(g) && t in g && t !in done && u in g[t].succs && u in g && PendAt(g, done, pend, u)
    ensures NextPending(g, pend, u) == PendingTask(Left(g, done + {t}, u), PredSet(g, u))
  {
    NotYet(g, done, t, u);
  }

  /** A successor that still waits. */
  lemma TellWaiting(g: Graph, done: set<TaskId>, t: TaskId, i: nat, pend: PendingMap, counts: CountMap,
                    rel: seq<TaskId>)
    requires GraphOk(g) && t in g && t !in done && i < |g[t].succs| && Midway(g, done, t, i, pend, counts, rel)
    requires g[t].succs[i] in g && NextPending(g, pend, g[t].succs[i]).count != 0
    ensures var u := g[t].succs[i]; Midway(g, done, t, i + 1, pend[u := NextPending(g, pend, u)], counts, rel)
  {
    var u := g[t].succs[i];
    ToldNext(g, t, i);
    NotYet(g, done, t, u);
    assert DoneFor(g, done, t, i, u) == done;
    NextCount(g, done, t, pend, u);
    var pend' := pend[u := NextPending(g, pend, u)];
    forall v | v in g
      ensures PendAt(g, DoneFor(g, done, t, i + 1, v), pend', v) && RelAt(g, DoneFor(g, done, t, i + 1, v), rel, v)
    {
      assert v != u ==> DoneFor(g, done, t, i + 1, v) == DoneFor(g, done, t, i, v);
    }
  }

  lemma ReleaseCounts(g: Graph, done: set<TaskId>, rel: seq<TaskId>, counts: CountMap, u: TaskId)
    requires GraphOk(g) && u in g && u !in rel && PredSet(g, u) <= done && AllCounted(g, done, rel, counts)
    ensures PredSet(g, u) <= counts.Keys && AllCounted(g, done, rel + [u], Dropped(counts, PredSet(g, u)))
  {
    var counts' := Dropped(counts, PredSet(g, u));
    forall p | p in g ensures CountAt(g, done, rel + [u], counts', p) {
      assert CountAt(g, done, rel, counts, p);
      ReleaseCount(g, done, rel, counts, u, p);
    }
    forall p | p in PredSet(g, u) ensures p in counts {
      assert CountAt(g, done, rel, counts, p);
      assert u in Unreleased(g, rel, p);
    }
  }

  lemma ReleaseTables(g: Graph, done: set<TaskId>, t: TaskId, i: nat, pend: PendingMap, rel: seq<TaskId>, u: TaskId)
    requires t in g && i < |g[t].succs| && Between(g, done, t, i, pend, rel) && u in g && u !in rel
    requires !Told(g, t, i, u) && forall v :: Told(g, t, i + 1, v) <==> Told(g, t, i, v) || v == u
    requires !Waits(g, done + {t}, u) && Released(g, done + {t}, u)
    ensures Between(g, done, t, i + 1, pend - {u}, rel + [u])
  {
    forall v | v in g
      ensures PendAt(g, DoneFor(g, done, t, i + 1, v), pend - {u}, v)
      ensures RelAt(g, DoneFor(g, done, t, i + 1, v), rel + [u], v)
    {
      assert v != u ==> DoneFor(g, done, t, i + 1, v) == DoneFor(g, done, t, i, v);
    }
  }

  /** A successor that is released. */
  lemma TellReleased(g: Graph, done: set<TaskId>, t: TaskId, i: nat, pend: PendingMap, counts: CountMap,
                     rel: seq<TaskId>)
    requires GraphOk(g) && t in g && t !in done && i < |g[t].succs| && Midway(g, done, t, i, pend, counts, rel)
    requires g[t].succs[i] in g && NextPending(g, pend, g[t].succs[i]).count == 0
    ensures var u := g[t].succs[i];
            && PredSet(g, u) <= counts.Keys && NextPending(g, pend, u).predecessors == PredSet(g, u)
            && Midway(g, done, t, i + 1, pend - {u}, Dropped(counts, PredSet(g, u)), rel + [u])
  {
    var u := g[t].succs[i];
    ToldNext(g, t, i);
    NotYet(g, done, t, u);
    assert DoneFor(g, done, t, i, u) == done;
    NextCount(g, done, t, pend, u);
    assert RelAt(g, done, rel, u) && u !in rel;
    ReleaseTables(g, done, t, i, pend, rel, u);
    ReleaseCounts(g, done + {t}, rel, counts, u);
  }

  function Entered(g: Graph, counts: CountMap, t: TaskId): CountMap
    requires t in g
  {
    if g[t].succs == [] || t in counts then counts else counts[t := |g[t].succs|]
  }

  lemma EnterCount(g: Graph, done: set<TaskId>, pend: PendingMap, counts: CountMap, rel: seq<TaskId>, t: TaskId)
    requires GraphOk(g) && t in g && t !in done && Tables(g, done, pend, counts, rel)
    ensures AllCounted(g, done + {t}, rel, Entered(g, counts, t))
  {
    assert CountAt(g, done, rel, counts, t);
    forall u | u in g[t].succs ensures u !in rel {
      NotYet(g, done, t, u);
      assert RelAt(g, done, rel, u);
    }
    assert Unreleased(g, rel, t) == set u | u in g[t].succs;
    DistinctCount(g[t].succs);
    var counts' := Entered(g, counts, t);
    forall p | p in g ensures CountAt(g, done + {t}, rel, counts', p) { assert CountAt(g, done, rel, counts, p); }
  }

  lemma StartMidway(g: Graph, done: set<TaskId>, pend: PendingMap, counts: CountMap, rel: seq<TaskId>, t: TaskId)
    requires GraphOk(g) && t in g && t !in done && Tables(g, done, pend, counts, rel)
    ensures Midway(g, done, t, 0, pend, Entered(g, counts, t), rel)
  {
    EnterCount(g, done, pend, counts, rel, t);
    forall u | u in g
      ensures PendAt(g, DoneFor(g, done, t, 0, u), pend, u) && RelAt(g, DoneFor(g, done, t, 0, u), rel, u)
    {
      assert PendAt(g, done, pend, u) && RelAt(g, done, rel, u);
    }
  }

  lemma NotASuccessor(g: Graph, done: set<TaskId>, t: TaskId, u: TaskId)
    requires GraphOk(g) && t in g && u in g && u !in g[t].succs
    ensures Waits(g, done + {t}, u) <==> Waits(g, done, u)
    ensures Left(g, done + {t}, u) == Left(g, done, u) && (Released(g, done + {t}, u) <==> Released(g, done, u))
  {
    assert t !in PredSet(g, u);
    assert PredSet(g, u) - (done + {t}) == PredSet(g, u) - done;
    assert PredSet(g, u) * (done + {t}) == PredSet(g, u) * done;
  }

  lemma EndMidway(g: Graph, done: set<TaskId>, t: TaskId, pend: PendingMap, counts: CountMap, rel: seq<TaskId>)
    requires GraphOk(g) && t in g && Midway(g, done, t, |g[t].succs|, pend, counts, rel)
    ensures Tables(g, done + {t}, pend, counts, rel)
  {
    var s := g[t].succs;
    assert s[..|s|] == s;
    forall u | u in g ensures PendAt(g, done + {t}, pend, u) && RelAt(g, done + {t}, rel, u) {
      assert DoneFor(g, done, t, |s|, u) == if u in s then done + {t} else done;
      if u !in s { NotASuccessor(g, done, t, u); }
    }
  }

  lemma OneMoreDone(g: Graph, done: set<TaskId>, us: seq<TaskId>, i: nat, rel: seq<TaskId>)
    requires i < |us| && us[i] in g
    ensures rel + AllPredsDone(g, done, us[..i + 1])
         == rel + AllPredsDone(g, done, us[..i]) + if forall p :: p in g[us[i]].preds ==> p in done then [us[i]] else []
  {
    assert us[..i + 1][..i] == us[..i];
  }

  /** What decides whether the next successor is released. */
  lemma ReleasedIs(g: Graph, done: set<TaskId>, t: TaskId, i: nat, pend: PendingMap, counts: CountMap,
                   rel: seq<TaskId>)
    requires GraphOk(g) && t in g && t !in done && i < |g[t].succs| && Midway(g, done, t, i, pend, counts, rel)
    ensures var u := g[t].succs[i];
            u in g && (NextPending(g, pend, u).count == 0 <==> forall p :: p in g[u].preds ==> p in done + {t})
  {
    var u := g[t].succs[i];
    NotYet(g, done, t, u);
    ToldNext(g, t, i);
    assert DoneFor(g, done, t, i, u) == done;
    NextCount(g, done, t, pend, u);
    assert PredSet(g, u) <= done + {t} <==> forall p :: p in g[u].preds ==> p in done + {t};
  }

  // ---------- the scheduler ----------

  /** Those of the tasks whose predecessors are all among `done`, in their order. */
  function AllPredsDone(g: Graph, done: set<TaskId>, us: seq<TaskId>): seq<TaskId> {
    if us == [] then []
    else
      var u := us[|us| - 1];
      AllPredsDone(g, done, us[..|us| - 1])
      + if u in g && forall p :: p in g[u].preds ==> p in done then [u] else []
  }

  class Simulator {
    var pendingSuccessors: PendingMap
    var completedPredecessors: CountMap
    var released: seq<TaskId>          // every task handed to a context, in order
    var numUnfinishedTasks: int
    ghost var completed: set<TaskId>

    /** The tables agree with the graph and the tasks completed so far. */
    ghost predicate Valid(g: Graph)
      reads this
    {
      && GraphOk(g) && completed <= g.Keys && (forall t :: t in completed ==> t in released)
      && Tables(g, completed, pendingSuccessors, completedPredecessors, released)
      && numUnfinishedTasks == |g| - |completed|
    }

    constructor (g: Graph)
      requires GraphOk(g)
      ensures Valid(g) && released == [Root] && completed == {}
    {
      pendingSuccessors, completedPredecessors := map[], map[];
      released := [Root];
      numUnfinishedTasks := |g|;
      completed := {};
      new;
      StartTables(g);
    }

    /** `completedPredecessors[pred]--` for every predecessor, dropping entries that reach 0. */
    method DropCounts(preds: set<TaskId>)
      requires preds <= completedPredecessors.Keys
      modifies this`completedPredecessors
      ensures completedPredecessors == Dropped(old(completedPredecessors), preds)
    {
      var left := preds;
      ghost var c0 := completedPredecessors;
      while left != {}
        invariant left <= preds && completedPredecessors == Dropped(c0, preds - left)
        decreases |left|
      {
        var pred :| pred in left;
        left := left - {pred};
        assert pred in c0 && pred in completedPredecessors;
        if completedPredecessors[pred] == 1 {
          completedPredecessors := completedPredecessors - {pred};
        } else {
          completedPredecessors := completedPredecessors[pred := completedPredecessors[pred] - 1];
        }
      }
      assert preds - left == preds;
    }

    /** One successor of the completed task `t`. */
    method TellSuccessor(g: Graph, ghost done: set<TaskId>, t: TaskId, i: nat)
      requires GraphOk(g) && t in g && t !in done && i < |g[t].succs|
      requires Midway(g, done, t, i, pendingSuccessors, completedPredecessors, released)
      modifies this`pendingSuccessors, this`completedPredecessors, this`released
      ensures Midway(g, done, t, i + 1, pendingSuccessors, completedPredecessors, released)
      ensures var u := g[t].succs[i];
              released == old(released) + if forall p :: p in g[u].preds ==> p in done + {t} then [u] else []
    {
      var u := g[t].succs[i];
      NotYet(g, done, t, u);
      ReleasedIs(g, done, t, i, pendingSuccessors, completedPredecessors, released);
      var status := NextPending(g, pendingSuccessors, u);
      if status.count == 0 {
        TellReleased(g, done, t, i, pendingSuccessors, completedPredecessors, released);
        released := released + [u];
        DropCounts(status.predecessors);
        pendingSuccessors := pendingSuccessors - {u};
      } else {
        TellWaiting(g, done, t, i, pendingSuccessors, completedPredecessors, released);
        pendingSuccessors := pendingSuccessors[u := status];
      }
    }

    method TellSuccessors(g: Graph, ghost done: set<TaskId>, t: TaskId)
      requires GraphOk(g) && t in g && t !in done
      requires Midway(g, done, t, 0, pendingSuccessors, completedPredecessors, released)
      modifies this`pendingSuccessors, this`completedPredecessors, this`released
      ensures Tables(g, done + {t}, pendingSuccessors, completedPredecessors, released)
      ensures released == old(released) + AllPredsDone(g, done + {t}, g[t].succs)
    {
      var successors := g[t].succs;
      for i := 0 to |successors|
        invariant Midway(g, done, t, i, pendingSuccessors, completedPredecessors, released)
        invariant released == old(released) + AllPredsDone(g, done + {t}, successors[..i])
      {
        OneMoreDone(g, done + {t}, successors, i, old(released));
        TellSuccessor(g, done, t, i);
      }
      assert successors[..|successors|] == successors;
      EndMidway(g, done, t, pendingSuccessors, completedPredecessors, released);
    }

    /** A released task completes. */
    method Complete(g: Graph, t: TaskId)
      requires Valid(g) && t in released && t !in completed
      modifies this
      ensures Valid(g) && completed == old(completed) + {t}
      ensures released == old(released) + AllPredsDone(g, completed, g[t].succs)
    {
      numUnfinishedTasks := numUnfinishedTasks - 1;
      StartMidway(g, completed, pendingSuccessors, completedPredecessors, released, t);
      if g[t].succs != [] && t !in completedPredecessors {
        completedPredecessors := completedPredecessors[t := |g[t].succs|];
      }
      TellSuccessors(g, completed, t);
      completed := completed + {t};
      forall u | u in completed ensures u in released { StaysIn(old(released), released, u); }
    }
  }

  lemma StaysIn(p: seq<TaskId>, q: seq<TaskId>, u: TaskId)
    requires p <= q && u in p
    ensures u in q
  {
    var k :| 0 <= k < |p| && p[k] == u;
    assert q[k] == u;
  }

  lemma StartTables(g: Graph)
    requires GraphOk(g)
    ensures Tables(g, {}, map[], map[], [Root])
  {
    forall u | u in g ensures RelAt(g, {}, [Root], u) && PendAt(g, {}, map[], u) { StartReady(g, u); }
  }

  // ---------- what the tables guarantee ----------

  /** A task is released once, only after all its predecessors completed, and as soon as they have. */
  lemma ReleasedOnceAndInTime(g: Graph, done: set<TaskId>, pend: PendingMap, counts: CountMap, rel: seq<TaskId>)
    requires GraphOk(g) && Tables(g, done, pend, counts, rel)
    ensures Distinct(rel)
    ensures forall u, p :: u in rel && EdgeIn(g, p, u) ==> p in done
    ensures forall u :: u in g && g[u].preds != [] && (forall p :: p in g[u].preds ==> p in done) ==> u in rel
  {
    forall u, p | u in rel && EdgeIn(g, p, u) ensures p in done {
      assert RelAt(g, done, rel, u) && p in PredSet(g, u);
    }
    forall u | u in g && g[u].preds != [] && (forall p :: p in g[u].preds ==> p in done) ensures u in rel {
      assert RelAt(g, done, rel, u);
    }
  }

  lemma Leftover(g: Graph, done: set<TaskId>, rel: seq<TaskId>, u: TaskId)
    requires GraphOk(g) && u in g && u !in done && u !in rel && RelAt(g, done, rel, u) && OneRoot(g)
    ensures HasPred(g, g.Keys - done, u)
  {
    var p :| p in PredSet(g, u) && p !in done;
    assert EdgeIn(g, p, u);
  }

  lemma NothingKept(g: Graph, done: set<TaskId>, pend: PendingMap, counts: CountMap, rel: seq<TaskId>, u: TaskId)
    requires GraphOk(g) && Tables(g, done, pend, counts, rel) && done == g.Keys && OneRoot(g) && u in g
    ensures u !in pend && u !in counts
  {
    assert PendAt(g, done, pend, u) && CountAt(g, done, rel, counts, u);
    assert PredSet(g, u) <= done;
    forall v | v in g[u].succs ensures v in rel {
      assert RelAt(g, done, rel, v);
      assert PredSet(g, v) <= done;
    }
    assert Unreleased(g, rel, u) == {};
  }

  lemma AllDone(g: Graph, done: set<TaskId>, pend: PendingMap, counts: CountMap, rel: seq<TaskId>)
    requires GraphOk(g) && Tables(g, done, pend, counts, rel) && Acyclic(g) && OneRoot(g)
    requires done <= g.Keys && forall u :: u in rel ==> u in done
    ensures done == g.Keys
  {
    var r := g.Keys - done;
    forall t | t in r ensures HasPred(g, r, t) {
      assert RelAt(g, done, rel, t);
      Leftover(g, done, rel, t);
    }
    NoEndless(g, r);
    forall u | u in g ensures u in done { assert u !in r; }
  }

  lemma NoEndless(g: Graph, r: set<TaskId>)
    requires Acyclic(g) && Endless(g, r)
    ensures r == {}
  {
    if t :| t in r {
      assert HasPred(g, r, t);
      assert IsPath(g, [t]);
      CycleIn(g, r, [t]);
    }
  }

  /** When every released task has completed, every task has: nothing is left waiting, and no entry is left. */
  lemma AllRun(g: Graph, done: set<TaskId>, pend: PendingMap, counts: CountMap, rel: seq<TaskId>)
    requires GraphOk(g) && Tables(g, done, pend, counts, rel) && Acyclic(g) && OneRoot(g)
    requires done <= g.Keys && forall u :: u in rel ==> u in done
    ensures done == g.Keys && pend == map[] && counts == map[]
  {
    AllDone(g, done, pend, counts, rel);
    if u :| u in pend || u in counts { NothingKept(g, done, pend, counts, rel, u); }
  }
}
