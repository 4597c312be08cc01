/** The longest path through the task graph, and the walk back along it. */
module CriticalPath {
  import opened Tasks

  const Zero: TaskId := TaskId(0, 0)

  /** The tasks visited, from the start of the region of interest on: each once, predecessors first.
      Predecessors outside the region are not visited. */
  ghost predicate Sorted(tr: seq<Task>) {
    && (forall j, k :: 0 <= j < k < |tr| ==> tr[j].id != tr[k].id)
    && (forall m: nat, k: nat :: m < |tr| && k < |tr| && Edge(tr, m, k) ==> m < k)
  }

  /** A path within the visited tasks that ends at task number `k`. */
  predicate PathTo(tr: seq<Task>, p: seq<nat>, k: nat) {
    && |p| > 0 && p[|p| - 1] == k && (forall i :: 0 <= i < |p| ==> p[i] < |tr|)
    && forall i :: 0 <= i < |p| - 1 ==> Edge(tr, p[i], p[i + 1])
  }

  function Sum(dur: seq<nat>, p: seq<nat>): nat
    requires forall i :: 0 <= i < |p| ==> p[i] < |dur|
  {
    if p == [] then 0 else Sum(dur, p[..|p| - 1]) + dur[p[|p| - 1]]
  }

  /** `len` is the largest sum of durations over the paths that end at task `k`. */
  ghost predicate Longest(tr: seq<Task>, dur: seq<nat>, k: nat, len: nat)
    requires |dur| == |tr|
  {
    && (forall p :: PathTo(tr, p, k) ==> Sum(dur, p) <= len)
    && exists p :: PathTo(tr, p, k) && Sum(dur, p) == len
  }

  datatype PathNode = PathNode(duration: nat, length: nat, critNode: TaskId)

  type Shadow = map<TaskId, PathNode>

  /** `shadowGraph[p].length`: an absent entry is created with zeros. */
  function LengthOf(g: Shadow, id: TaskId): nat { if id in g then g[id].length else 0 }

  /** What the scan over the first `i` predecessors finds: the greatest length, first of equals;
      task 0 and no length if there is no positive one. */
  ghost predicate Best(g: Shadow, pred: seq<TaskId>, i: nat, lpath: nat, cnode: TaskId)
    requires i <= |pred|
  {
    && (forall j :: 0 <= j < i ==> LengthOf(g, pred[j]) <= lpath)
    && (if lpath == 0 then cnode == Zero
        else exists j :: 0 <= j < i && FirstBest(g, pred, j, lpath, cnode))
  }

  predicate FirstBest(g: Shadow, pred: seq<TaskId>, j: nat, lpath: nat, cnode: TaskId)
    requires j < |pred|
  {
    pred[j] == cnode && LengthOf(g, cnode) == lpath && forall l :: 0 <= l < j ==> LengthOf(g, pred[l]) < lpath
  }

  method Scan(g: Shadow, pred: seq<TaskId>) returns (lpath: nat, cnode: TaskId)
    ensures Best(g, pred, |pred|, lpath, cnode)
  {
    lpath, cnode := 0, Zero;
    for i := 0 to |pred|
      invariant Best(g, pred, i, lpath, cnode)
    {
      if LengthOf(g, pred[i]) > lpath {
        lpath, cnode := LengthOf(g, pred[i]), pred[i];
        assert FirstBest(g, pred, i, lpath, cnode);
      }
    }
  }

  /** The entry of task `k` is right: its length is the longest path's, and its link leads to the
      predecessor before it on such a path, or to task 0 when no predecessor has a length. */
  ghost predicate NodeOk(tr: seq<Task>, dur: seq<nat>, g: Shadow, k: nat)
    requires |dur| == |tr| && k < |tr|
  {
    && tr[k].id in g && g[tr[k].id].duration == dur[k] && Longest(tr, dur, k, g[tr[k].id].length)
    && LinkOk(tr, dur, g, k)
  }

  ghost predicate LinkOk(tr: seq<Task>, dur: seq<nat>, g: Shadow, k: nat)
    requires |dur| == |tr| && k < |tr| && tr[k].id in g
  {
    var x := g[tr[k].id];
    (exists m: nat :: m < k && Linked(tr, dur, g, k, m)) || (x.critNode == Zero && x.length == dur[k])
  }

  ghost predicate Linked(tr: seq<Task>, dur: seq<nat>, g: Shadow, k: nat, m: nat)
    requires |dur| == |tr| && m < k < |tr| && tr[k].id in g
  {
    && Edge(tr, m, k) && tr[m].id in g && g[tr[k].id].critNode == tr[m].id
    && g[tr[m].id].length > 0 && g[tr[k].id].length == g[tr[m].id].length + dur[k]
  }

  ghost predicate Upto(tr: seq<Task>, dur: seq<nat>, g: Shadow, k: nat)
    requires |dur| == |tr| && k <= |tr|
  {
    && (forall m: nat :: m < k ==> NodeOk(tr, dur, g, m))
    && (forall id :: id in g ==> exists m: nat :: m < k && tr[m].id == id)
  }

  lemma PathLast(tr: seq<Task>, dur: seq<nat>, p: seq<nat>, k: nat)
    requires Sorted(tr) && |dur| == |tr| && PathTo(tr, p, k) && |p| > 1
    ensures var q := p[..|p| - 1]; PathTo(tr, q, p[|p| - 2]) && Sum(dur, p) == Sum(dur, q) + dur[k]
    ensures Edge(tr, p[|p| - 2], k) && p[|p| - 2] < k
  {
  }

  lemma PathMore(tr: seq<Task>, dur: seq<nat>, p: seq<nat>, m: nat, k: nat)
    requires |dur| == |tr| && k < |tr| && PathTo(tr, p, m) && Edge(tr, m, k)
    ensures PathTo(tr, p + [k], k) && Sum(dur, p + [k]) == Sum(dur, p) + dur[k]
  {
    assert (p + [k])[..|p|] == p;
  }

  lemma Alone(tr: seq<Task>, dur: seq<nat>, k: nat)
    requires |dur| == |tr| && k < |tr|
    ensures PathTo(tr, [k], k) && Sum(dur, [k]) == dur[k]
  {
    assert [k][..0] == [];
  }

  /** The recurrence computes the longest path. */
  lemma BestIsLongest(tr: seq<Task>, dur: seq<nat>, g: Shadow, k: nat, lpath: nat, cnode: TaskId)
    requires Sorted(tr) && |dur| == |tr| && k < |tr| && Upto(tr, dur, g, k)
    requires Best(g, tr[k].preds, |tr[k].preds|, lpath, cnode)
    ensures Longest(tr, dur, k, lpath + dur[k])
    ensures lpath > 0 ==> exists m: nat :: m < k && tr[m].id == cnode && Edge(tr, m, k)
    ensures lpath > 0 ==> cnode in g && g[cnode].length == lpath
  {
    Alone(tr, dur, k);
    forall p | PathTo(tr, p, k) ensures Sum(dur, p) <= lpath + dur[k] {
      if |p| == 1 {
        assert p == [k];
      } else {
        PathLast(tr, dur, p, k);
        var m := p[|p| - 2];
        assert NodeOk(tr, dur, g, m);
        var j :| 0 <= j < |tr[k].preds| && tr[k].preds[j] == tr[m].id;
        assert Sum(dur, p[..|p| - 1]) <= g[tr[m].id].length;
      }
    }
    if lpath > 0 {
      var m: nat :| m < k && tr[m].id == cnode;
      assert NodeOk(tr, dur, g, m);
      var p :| PathTo(tr, p, m) && Sum(dur, p) == g[cnode].length;
      PathMore(tr, dur, p, m, k);
    }
  }

  lemma NodeStays(tr: seq<Task>, dur: seq<nat>, g: Shadow, g': Shadow, m: nat)
    requires |dur| == |tr| && m < |tr| && NodeOk(tr, dur, g, m)
    requires forall id :: id in g ==> id in g' && g'[id] == g[id]
    ensures NodeOk(tr, dur, g', m)
  {
    if l: nat :| l < m && Linked(tr, dur, g, m, l) { assert Linked(tr, dur, g', m, l); }
  }

  /** One task of the main loop. */
  method Visit(g: Shadow, t: Task, d: nat, ghost tr: seq<Task>, ghost dur: seq<nat>, ghost k: nat) returns (g': Shadow)
    requires Sorted(tr) && |dur| == |tr| && k < |tr| && t == tr[k] && d == dur[k] && Upto(tr, dur, g, k)
    ensures Upto(tr, dur, g', k + 1)
  {
    var lpath, cnode := Scan(g, t.preds);
    BestIsLongest(tr, dur, g, k, lpath, cnode);
    g' := g[t.id := PathNode(d, lpath + d, cnode)];
    forall m: nat | m < k + 1 ensures NodeOk(tr, dur, g', m) {
      if m < k {
        NodeStays(tr, dur, g, g', m);
      } else if lpath > 0 {
        var l: nat :| l < k && tr[l].id == cnode && Edge(tr, l, k);
        assert Linked(tr, dur, g', k, l);
      }
    }
  }

  method LongestPaths(tr: seq<Task>, dur: seq<nat>) returns (g: Shadow)
    requires Sorted(tr) && |dur| == |tr|
    ensures Upto(tr, dur, g, |tr|)
  {
    g := map[];
    for k := 0 to |tr|
      invariant Upto(tr, dur, g, k)
    {
      g := Visit(g, tr[k], dur[k], tr, dur, k);
    }
  }

  // ---------- walking back ----------

  /** The chain of links from task `k` leads to task 0 over edges of the graph. */
  ghost predicate ReachesZero(tr: seq<Task>, dur: seq<nat>, g: Shadow, k: nat)
    requires |dur| == |tr| && k < |tr| && tr[k].id in g
    decreases k
  {
    tr[k].id == Zero || exists m: nat :: m < k && Linked(tr, dur, g, k, m) && ReachesZero(tr, dur, g, m)
  }

  lemma ReachesOver(tr: seq<Task>, dur: seq<nat>, g: Shadow, k: nat, m: nat)
    requires Sorted(tr) && |dur| == |tr| && m < k < |tr| && tr[k].id in g && Linked(tr, dur, g, k, m)
    requires tr[k].id != Zero
    ensures ReachesZero(tr, dur, g, k) <==> ReachesZero(tr, dur, g, m)
  {
    if ReachesZero(tr, dur, g, k) {
      var l: nat :| l < k && Linked(tr, dur, g, k, l) && ReachesZero(tr, dur, g, l);
      assert tr[l].id == tr[m].id;
    }
  }

  /** Durations along the links from `end` add up to its length; task 0, where the walk stops, is not
      counted. */
  method WalkBack(g: Shadow, end: TaskId, roiStart: TaskId, ghost tr: seq<Task>, ghost dur: seq<nat>, ghost k: nat)
    returns (cycles: nat)
    requires Sorted(tr) && |dur| == |tr| && Upto(tr, dur, g, |tr|) && k < |tr| && tr[k].id == end
    requires tr[0].id == roiStart
    requires forall m: nat :: m < |tr| && tr[m].id == Zero ==> tr[m].preds == []
    ensures end in g
    ensures if ReachesZero(tr, dur, g, k) then Zero in g && cycles + g[Zero].duration == g[end].length
            else cycles == g[end].length
  {
    var currentId := end;
    cycles := 0;
    assert NodeOk(tr, dur, g, k);
    ghost var at: nat, linked := k, true;
    while currentId != Zero
      invariant linked ==> at < |tr| && tr[at].id == currentId && currentId in g
      invariant linked ==> cycles + g[currentId].length == g[end].length
      invariant linked ==> (ReachesZero(tr, dur, g, k) <==> ReachesZero(tr, dur, g, at))
      invariant !linked ==> currentId == Zero && cycles == g[end].length && !ReachesZero(tr, dur, g, k)
      decreases if linked then at + 1 else 0
    {
      assert NodeOk(tr, dur, g, at);
      cycles := cycles + g[currentId].duration;
      if currentId == roiStart { return; }
      currentId := g[currentId].critNode;
      ghost var here := at;
      if m: nat :| m < at && Linked(tr, dur, g, at, m) {
        ReachesOver(tr, dur, g, at, m);
        at := m;
      } else {
        linked := false;
      }
    }
    if linked { assert NodeOk(tr, dur, g, at); }
  }
}
