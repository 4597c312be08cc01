/** The bytes accessed by a trace, named by task, access and byte, and the detector's answers in these
    terms. */
module RaceAccesses {
  import opened Common
  import opened Tasks
  import opened RaceDetector

  /** Byte number `byte` of access number `access` of task number `task`. */
  datatype At = At(task: nat, access: nat, byte: nat)

  /** An accessed byte of the first `n` tasks. */
  predicate InTrace(tr: seq<Task>, n: nat, p: At) {
    && p.task < n <= |tr| && p.access < |tr[p.task].accesses|
    && p.byte < Pow2(tr[p.task].accesses[p.access].pow)
  }

  function AccessAt(tr: seq<Task>, p: At): Access
    requires InTrace(tr, |tr|, p)
  {
    tr[p.task].accesses[p.access]
  }

  /** Access `p` is to byte `b`. */
  predicate Touches(tr: seq<Task>, n: nat, p: At, b: nat) {
    InTrace(tr, n, p) && AccessAt(tr, p).addr + p.byte == b
  }

  predicate Writes(tr: seq<Task>, n: nat, p: At, b: nat) { Touches(tr, n, p, b) && AccessAt(tr, p).write }

  predicate Earlier(p: At, q: At) {
    p.task < q.task || (p.task == q.task && (p.access < q.access || (p.access == q.access && p.byte < q.byte)))
  }

  // ---------- the list of them ----------

  function AllBytes(m: nat, i: nat, pow: nat, from: nat): seq<At>
    requires from <= Pow2(pow)
  {
    seq(Pow2(pow) - from, j requires 0 <= j < Pow2(pow) - from => At(m, i, from + j))
  }

  function AllOf(tr: seq<Task>, m: nat, i: nat): seq<At>
    requires m < |tr| && i <= |tr[m].accesses|
    decreases |tr[m].accesses| - i
  {
    if i == |tr[m].accesses| then [] else AllBytes(m, i, tr[m].accesses[i].pow, 0) + AllOf(tr, m, i + 1)
  }

  function All(tr: seq<Task>, n: nat): seq<At>
    requires n <= |tr|
  {
    if n == 0 then [] else All(tr, n - 1) + AllOf(tr, n - 1, 0)
  }

  function EventOf(tr: seq<Task>, p: At): Event
    requires InTrace(tr, |tr|, p)
  {
    Event(p.task, AccessAt(tr, p).write, AccessAt(tr, p).addr + p.byte)
  }

  /** The events are those of the accesses `ps`. */
  ghost predicate Lists(tr: seq<Task>, ev: seq<Event>, ps: seq<At>) {
    && |ev| == |ps|
    && forall j :: 0 <= j < |ps| ==> InTrace(tr, |tr|, ps[j]) && ev[j] == EventOf(tr, ps[j])
  }

  ghost predicate Rising(ps: seq<At>) { forall i, j :: 0 <= i < j < |ps| ==> Earlier(ps[i], ps[j]) }

  lemma {:induction false} BytesListed(tr: seq<Task>, m: nat, i: nat, from: nat)
    requires m < |tr| && i < |tr[m].accesses| && from <= Pow2(tr[m].accesses[i].pow)
    ensures Lists(tr, BytesOf(m, tr[m].accesses[i], from), AllBytes(m, i, tr[m].accesses[i].pow, from))
    decreases Pow2(tr[m].accesses[i].pow) - from
  {
    var a := tr[m].accesses[i];
    if from < Pow2(a.pow) {
      BytesListed(tr, m, i, from + 1);
      assert AllBytes(m, i, a.pow, from) == [At(m, i, from)] + AllBytes(m, i, a.pow, from + 1);
    }
  }

  lemma ListsConcat(tr: seq<Task>, e: seq<Event>, p: seq<At>, e': seq<Event>, p': seq<At>)
    requires Lists(tr, e, p) && Lists(tr, e', p')
    ensures Lists(tr, e + e', p + p')
  {
  }

  lemma RisingConcat(p: seq<At>, q: seq<At>)
    requires Rising(p) && Rising(q) && forall x, y :: x in p && y in q ==> Earlier(x, y)
    ensures Rising(p + q)
  {
    forall i, j | 0 <= i < j < |p + q| ensures Earlier((p + q)[i], (p + q)[j]) {
      if i < |p| && j >= |p| { assert p[i] in p && q[j - |p|] in q; }
    }
  }

  lemma {:induction false} TaskListed(tr: seq<Task>, m: nat, i: nat)
    requires m < |tr| && i <= |tr[m].accesses|
    ensures Lists(tr, TaskEvents(m, tr[m].accesses[i..]), AllOf(tr, m, i))
    decreases |tr[m].accesses| - i
  {
    var all := tr[m].accesses;
    if i < |all| {
      BytesListed(tr, m, i, 0);
      TaskListed(tr, m, i + 1);
      assert all[i..][1..] == all[i + 1..];
      ListsConcat(tr, BytesOf(m, all[i], 0), AllBytes(m, i, all[i].pow, 0),
                  TaskEvents(m, all[i + 1..]), AllOf(tr, m, i + 1));
    }
  }

  lemma {:induction false} AllListed(tr: seq<Task>, n: nat)
    requires n <= |tr|
    ensures Lists(tr, Events(tr, n), All(tr, n))
  {
    if n > 0 {
      AllListed(tr, n - 1);
      TaskListed(tr, n - 1, 0);
      assert tr[n - 1].accesses[0..] == tr[n - 1].accesses;
      ListsConcat(tr, Events(tr, n - 1), All(tr, n - 1), TaskEvents(n - 1, tr[n - 1].accesses), AllOf(tr, n - 1, 0));
    }
  }

  lemma InBytes(m: nat, i: nat, pow: nat, p: At)
    ensures p in AllBytes(m, i, pow, 0) <==> p.task == m && p.access == i && p.byte < Pow2(pow)
  {
    if p.task == m && p.access == i && p.byte < Pow2(pow) { assert AllBytes(m, i, pow, 0)[p.byte] == p; }
  }

  lemma {:induction false} InTask(tr: seq<Task>, m: nat, i: nat, p: At)
    requires m < |tr| && i <= |tr[m].accesses|
    ensures p in AllOf(tr, m, i) <==> p.task == m && i <= p.access && InTrace(tr, m + 1, p)
    decreases |tr[m].accesses| - i
  {
    if i < |tr[m].accesses| {
      InBytes(m, i, tr[m].accesses[i].pow, p);
      InTask(tr, m, i + 1, p);
    }
  }

  lemma {:induction false} InAll(tr: seq<Task>, n: nat, p: At)
    requires n <= |tr|
    ensures p in All(tr, n) <==> InTrace(tr, n, p)
  {
    if n > 0 {
      InAll(tr, n - 1, p);
      InTask(tr, n - 1, 0, p);
    }
  }

  lemma {:induction false} TaskRising(tr: seq<Task>, m: nat, i: nat)
    requires m < |tr| && i <= |tr[m].accesses|
    ensures Rising(AllOf(tr, m, i))
    decreases |tr[m].accesses| - i
  {
    if i < |tr[m].accesses| {
      TaskRising(tr, m, i + 1);
      var p, q := AllBytes(m, i, tr[m].accesses[i].pow, 0), AllOf(tr, m, i + 1);
      forall x, y | x in p && y in q ensures Earlier(x, y) {
        InBytes(m, i, tr[m].accesses[i].pow, x);
        InTask(tr, m, i + 1, y);
      }
      RisingConcat(p, q);
    }
  }

  lemma {:induction false} AllRising(tr: seq<Task>, n: nat)
    requires n <= |tr|
    ensures Rising(All(tr, n))
  {
    if n > 0 {
      AllRising(tr, n - 1);
      TaskRising(tr, n - 1, 0);
      forall x, y | x in All(tr, n - 1) && y in AllOf(tr, n - 1, 0) ensures Earlier(x, y) {
        InAll(tr, n - 1, x);
        InTask(tr, n - 1, 0, y);
      }
      RisingConcat(All(tr, n - 1), AllOf(tr, n - 1, 0));
    }
  }

  /** The events the detector goes through are the accessed bytes of the trace: each once, by task, access
      and byte, and no others. */
  lemma EventsListed(tr: seq<Task>, n: nat) returns (ps: seq<At>)
    requires n <= |tr|
    ensures Lists(tr, Events(tr, n), ps) && Rising(ps) && forall p :: p in ps <==> InTrace(tr, n, p)
  {
    ps := All(tr, n);
    AllListed(tr, n);
    AllRising(tr, n);
    forall p ensures p in ps <==> InTrace(tr, n, p) { InAll(tr, n, p); }
  }

  // ---------- races ----------

  ghost predicate Unrelated(tr: seq<Task>, p: At, q: At) {
    p.task != q.task && q.task < |tr| && !Before(tr, p.task, q.task)
  }

  /** Access `p` is the last write of the byte before access `q`. */
  ghost predicate WroteLast(tr: seq<Task>, n: nat, b: nat, p: At, q: At) {
    && Writes(tr, n, p, b) && Earlier(p, q)
    && forall r :: Writes(tr, n, r, b) && Earlier(r, q) ==> r == p || Earlier(r, p)
  }

  /** Access `p` is the first of the byte, and `q` a write with none before it. */
  ghost predicate BothFirst(tr: seq<Task>, n: nat, b: nat, p: At, q: At) {
    && Touches(tr, n, p, b) && Earlier(p, q) && Writes(tr, n, q, b)
    && (forall r :: Touches(tr, n, r, b) ==> !Earlier(r, p))
    && (forall r :: Writes(tr, n, r, b) ==> !Earlier(r, q))
  }

  /** Among the first `n` tasks, one from number `roi` on accesses byte `b` unordered with the last write
      before, or, writing the byte first, with its first access. */
  ghost predicate Raced(tr: seq<Task>, n: nat, roi: nat, b: nat) {
    exists p, q ::
      && Touches(tr, n, q, b) && q.task >= roi && Unrelated(tr, p, q)
      && (WroteLast(tr, n, b, p, q) || BothFirst(tr, n, b, p, q))
  }

  /** Places in the list and in the trace, at a pair of accesses. */
  ghost predicate Matched(tr: seq<Task>, n: nat, ev: seq<Event>, ps: seq<At>) {
    n <= |tr| && Lists(tr, ev, ps) && Rising(ps) && forall p :: p in ps <==> InTrace(tr, n, p)
  }

  lemma EarlierIff(tr: seq<Task>, n: nat, ev: seq<Event>, ps: seq<At>, i: nat, j: nat)
    requires Matched(tr, n, ev, ps) && i < |ps| && j < |ps|
    ensures Earlier(ps[i], ps[j]) <==> i < j
    ensures ps[i] == ps[j] <==> i == j
  {
  }

  lemma TouchesIff(tr: seq<Task>, n: nat, ev: seq<Event>, ps: seq<At>, i: nat, b: nat)
    requires Matched(tr, n, ev, ps) && i < |ps|
    ensures |ev| == |ps| && (Touches(tr, n, ps[i], b) <==> ev[i].addr == b)
    ensures Writes(tr, n, ps[i], b) <==> WriteTo(ev, b, i)
    ensures ev[i].task == ps[i].task
  {
    assert ps[i] in ps;
  }

  lemma PlaceOf(tr: seq<Task>, n: nat, ev: seq<Event>, ps: seq<At>, p: At) returns (i: nat)
    requires Matched(tr, n, ev, ps) && InTrace(tr, n, p)
    ensures i < |ps| && ps[i] == p
  {
    assert p in ps;
    i :| 0 <= i < |ps| && ps[i] == p;
  }

  lemma WroteLastIff(tr: seq<Task>, n: nat, ev: seq<Event>, ps: seq<At>, b: nat, i: nat, j: nat)
    requires Matched(tr, n, ev, ps) && i < j < |ps|
    ensures |ev| == |ps| && (LastWrite(ev, b, i, j) <==> WroteLast(tr, n, b, ps[i], ps[j]))
  {
    TouchesIff(tr, n, ev, ps, i, b);
    EarlierIff(tr, n, ev, ps, i, j);
    if LastWrite(ev, b, i, j) {
      forall r | Writes(tr, n, r, b) && Earlier(r, ps[j]) ensures r == ps[i] || Earlier(r, ps[i]) {
        var k := PlaceOf(tr, n, ev, ps, r);
        TouchesIff(tr, n, ev, ps, k, b);
        EarlierIff(tr, n, ev, ps, k, j);
        EarlierIff(tr, n, ev, ps, k, i);
      }
    }
    if WroteLast(tr, n, b, ps[i], ps[j]) {
      forall k: nat | i < k < j ensures !WriteTo(ev, b, k) {
        TouchesIff(tr, n, ev, ps, k, b);
        EarlierIff(tr, n, ev, ps, k, j);
        EarlierIff(tr, n, ev, ps, k, i);
      }
    }
  }

  lemma BothFirstIff(tr: seq<Task>, n: nat, ev: seq<Event>, ps: seq<At>, b: nat, i: nat, j: nat)
    requires Matched(tr, n, ev, ps) && i < j < |ps|
    ensures |ev| == |ps|
    ensures FirstAccess(ev, b, i) && FirstWrite(ev, b, j) <==> BothFirst(tr, n, b, ps[i], ps[j])
  {
    TouchesIff(tr, n, ev, ps, i, b);
    TouchesIff(tr, n, ev, ps, j, b);
    EarlierIff(tr, n, ev, ps, i, j);
    if FirstAccess(ev, b, i) && FirstWrite(ev, b, j) {
      forall r | Touches(tr, n, r, b)
        ensures !Earlier(r, ps[i]) && (Writes(tr, n, r, b) ==> !Earlier(r, ps[j]))
      {
        var k := PlaceOf(tr, n, ev, ps, r);
        TouchesIff(tr, n, ev, ps, k, b);
        EarlierIff(tr, n, ev, ps, k, i);
        EarlierIff(tr, n, ev, ps, k, j);
      }
    }
    if BothFirst(tr, n, b, ps[i], ps[j]) {
      forall k: nat | k < j ensures !WriteTo(ev, b, k) && (k < i ==> ev[k].addr != b) {
        TouchesIff(tr, n, ev, ps, k, b);
        EarlierIff(tr, n, ev, ps, k, j);
        EarlierIff(tr, n, ev, ps, k, i);
      }
    }
  }

  lemma MeetsIff(tr: seq<Task>, n: nat, ev: seq<Event>, ps: seq<At>, b: nat, i: nat, j: nat)
    requires Matched(tr, n, ev, ps) && i < j < |ps|
    ensures |ev| == |ps|
    ensures Meets(ev, b, i, j) && Unordered(tr, ev, i, j) <==>
            Touches(tr, n, ps[j], b) && Unrelated(tr, ps[i], ps[j])
            && (WroteLast(tr, n, b, ps[i], ps[j]) || BothFirst(tr, n, b, ps[i], ps[j]))
  {
    TouchesIff(tr, n, ev, ps, i, b);
    TouchesIff(tr, n, ev, ps, j, b);
    WroteLastIff(tr, n, ev, ps, b, i, j);
    BothFirstIff(tr, n, ev, ps, b, i, j);
  }

  /** What is reported, in terms of the tasks' accesses. */
  lemma RacedIff(tr: seq<Task>, n: nat, roi: nat, b: nat)
    requires n <= |tr| && Sequential(tr, Events(tr, n))
    ensures Reported(tr, Events(tr, n), b, roi) <==> Raced(tr, n, roi, b)
  {
    var ev := Events(tr, n);
    var ps := EventsListed(tr, n);
    ReportedIff(tr, ev, b, roi);
    if RaceFrom(tr, ev, b, roi) {
      var i: nat, j: nat :| i < j < |ev| && ev[j].task >= roi && Meets(ev, b, i, j) && Unordered(tr, ev, i, j);
      MeetsIff(tr, n, ev, ps, b, i, j);
      TouchesIff(tr, n, ev, ps, j, b);
    }
    if Raced(tr, n, roi, b) {
      var p, q :| && Touches(tr, n, q, b) && q.task >= roi && Unrelated(tr, p, q)
                  && (WroteLast(tr, n, b, p, q) || BothFirst(tr, n, b, p, q));
      var i := PlaceOf(tr, n, ev, ps, p);
      var j := PlaceOf(tr, n, ev, ps, q);
      EarlierIff(tr, n, ev, ps, i, j);
      MeetsIff(tr, n, ev, ps, b, i, j);
      TouchesIff(tr, n, ev, ps, j, b);
    }
  }

  // ---------- reports ----------

  /** The report names two accesses of its byte, one of them a write, by tasks with no path either way. */
  ghost predicate NamesRace(tr: seq<Task>, n: nat, r: Report) {
    exists p, q :: NamedBy(tr, n, r, p, q)
  }

  ghost predicate NamedBy(tr: seq<Task>, n: nat, r: Report, p: At, q: At) {
    && Touches(tr, n, p, r.addr) && Touches(tr, n, q, r.addr) && Earlier(p, q)
    && r.existing == MemoryOp(AccessAt(tr, p).write, tr[p.task].id)
    && r.access == MemoryOp(AccessAt(tr, q).write, tr[q.task].id)
    && (r.existing.write || r.access.write)
    && p.task != q.task && !Before(tr, p.task, q.task) && !Before(tr, q.task, p.task)
  }

  lemma GenuineNames(tr: seq<Task>, n: nat, r: Report)
    requires n <= |tr| && Genuine(tr, Events(tr, n), r)
    ensures NamesRace(tr, n, r)
  {
    var ev := Events(tr, n);
    var ps := EventsListed(tr, n);
    var i: nat, j: nat :| i < j < |ev| && GenuineAt(tr, ev, r, i, j);
    TouchesIff(tr, n, ev, ps, i, r.addr);
    TouchesIff(tr, n, ev, ps, j, r.addr);
    EarlierIff(tr, n, ev, ps, i, j);
    assert NamedBy(tr, n, r, ps[i], ps[j]);
  }
}
