/** Task graphs: tasks of several contexts, with symmetric lists of predecessors and successors. */
module Tasks {
  import opened Common

  datatype TaskId = TaskId(ctx: nat, seqid: nat)

  /** One memory access of `1 << pow` bytes. */
  datatype Access = Access(write: bool, addr: nat, pow: nat)

  datatype Task = Task(id: TaskId, preds: seq<TaskId>, succs: seq<TaskId>, start: nat, accesses: seq<Access>)

  /** Task `m` of the trace is a direct predecessor of task `k`. */
  predicate Edge(tr: seq<Task>, m: nat, k: nat)
    requires m < |tr| && k < |tr|
  {
    tr[m].id in tr[k].preds
  }

  /** There is a path of at least one edge from task `j` to task `k`. */
  ghost predicate Before(tr: seq<Task>, j: nat, k: nat)
    requires k < |tr|
    decreases k
  {
    exists m: nat :: m < k && Edge(tr, m, k) && (m == j || Before(tr, j, m))
  }

  /** The trace lists tasks in a topological order of a graph with symmetric edges, each once.
      Successors that lie beyond the end of the trace are allowed. */
  ghost predicate Ordered(tr: seq<Task>) {
    && (forall j, k :: 0 <= j < k < |tr| ==> tr[j].id != tr[k].id)
    && (forall k: nat :: k < |tr| ==> Distinct(tr[k].preds) && Distinct(tr[k].succs))
    && (forall k: nat, p :: k < |tr| && p in tr[k].preds ==> exists m: nat :: m < k && tr[m].id == p)
    && (forall m: nat, k: nat :: m < k < |tr| && Edge(tr, m, k) ==> tr[k].id in tr[m].succs)
  }

  /** No task of context `x` lies strictly between `j` and `k`. */
  predicate NoneBetween(tr: seq<Task>, j: nat, k: nat, x: nat)
    requires k <= |tr|
  {
    forall m: nat :: j < m < k ==> tr[m].id.ctx != x
  }

  /** The tasks of a context form a chain of edges in the order of their sequence ids. */
  ghost predicate Chained(tr: seq<Task>) {
    forall j: nat, k: nat :: j < k < |tr| && tr[j].id.ctx == tr[k].id.ctx ==>
      tr[j].id.seqid < tr[k].id.seqid && (NoneBetween(tr, j, k, tr[k].id.ctx) ==> Edge(tr, j, k))
  }

  lemma {:induction false} BeforeIsEarlier(tr: seq<Task>, j: nat, k: nat)
    requires k < |tr| && Before(tr, j, k)
    ensures j < k
    decreases k
  {
    var m: nat :| m < k && Edge(tr, m, k) && (m == j || Before(tr, j, m));
    if m != j { BeforeIsEarlier(tr, j, m); }
  }

  lemma {:induction false} BeforeTransitive(tr: seq<Task>, i: nat, j: nat, k: nat)
    requires j < |tr| && k < |tr| && Before(tr, i, j) && Before(tr, j, k)
    ensures Before(tr, i, k)
    decreases k
  {
    var m: nat :| m < k && Edge(tr, m, k) && (m == j || Before(tr, j, m));
    if m != j { BeforeTransitive(tr, i, j, m); }
  }

  /** Earlier tasks of a context have a path to later ones. */
  lemma {:induction false} ChainPath(tr: seq<Task>, j: nat, k: nat)
    requires Chained(tr) && j < k < |tr| && tr[j].id.ctx == tr[k].id.ctx
    ensures Before(tr, j, k)
    decreases k - j
  {
    if NoneBetween(tr, j, k, tr[k].id.ctx) {
      assert Edge(tr, j, k);
    } else {
      var m: nat :| j < m < k && tr[m].id.ctx == tr[k].id.ctx;
      ChainPath(tr, j, m);
      ChainPath(tr, m, k);
      BeforeTransitive(tr, j, m, k);
    }
  }
}
