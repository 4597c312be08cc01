/** The happens-before race detector: what it reports, byte by byte, and when that is exact. */
module RaceDetector {
  import opened Common
  import opened Tasks

  /** An access to one byte by task number `task` of the trace. */
  datatype Event = Event(task: nat, write: bool, addr: nat)

  function BytesOf(k: nat, a: Access, from: nat): seq<Event>
    requires from <= Pow2(a.pow)
    decreases Pow2(a.pow) - from
  {
    if from == Pow2(a.pow) then [] else [Event(k, a.write, a.addr + from)] + BytesOf(k, a, from + 1)
  }

  function TaskEvents(k: nat, accesses: seq<Access>): seq<Event> {
    if accesses == [] then [] else BytesOf(k, accesses[0], 0) + TaskEvents(k, accesses[1..])
  }

  /** The byte accesses of the first `k` tasks, in the order they are processed. */
  function Events(tr: seq<Task>, k: nat): seq<Event>
    requires k <= |tr|
  {
    if k == 0 then [] else Events(tr, k - 1) + TaskEvents(k - 1, tr[k - 1].accesses)
  }

  // ---------- the detector's decision, as a function of the events so far ----------

  /** The access remembered for byte `b`: replaced by other tasks' writes only; a task's own write
      replaces its read. */
  function Last(ev: seq<Event>, b: nat): (r: Option<Event>)
    ensures r.Some? ==> r.value in ev && r.value.addr == b
  {
    if ev == [] then None
    else
      var e, prev := ev[|ev| - 1], Last(ev[..|ev| - 1], b);
      if e.addr != b then prev
      else if prev.None? then Some(e)
      else if e.write && !(prev.value.task == e.task && prev.value.write) then Some(e)
      else prev
  }

  /** Event `j` conflicts with the remembered access and no path orders them. */
  ghost predicate RaceAt(tr: seq<Task>, ev: seq<Event>, j: nat)
    requires j < |ev|
  {
    var e, prev := ev[j], Last(ev[..j], ev[j].addr);
    && prev.Some? && prev.value.task != e.task && (prev.value.write || e.write)
    && e.task < |tr| && !Before(tr, prev.value.task, e.task)
  }

  /** A race on byte `b` is reported, when tasks from number `roi` on are watched. */
  ghost predicate Reported(tr: seq<Task>, ev: seq<Event>, b: nat, roi: nat) {
    exists j: nat :: j < |ev| && ev[j].addr == b && ev[j].task >= roi && RaceAt(tr, ev, j)
  }

  // ---------- exactness ----------

  /** Events of a trace: tasks come one after the other. */
  predicate Sequential(tr: seq<Task>, ev: seq<Event>) {
    && (forall j :: 0 <= j < |ev| ==> ev[j].task < |tr|)
    && (forall i, j :: 0 <= i < j < |ev| ==> ev[i].task <= ev[j].task)
  }

  predicate WriteTo(ev: seq<Event>, b: nat, i: nat)
    requires i < |ev|
  {
    ev[i].addr == b && ev[i].write
  }

  ghost predicate Unordered(tr: seq<Task>, ev: seq<Event>, i: nat, j: nat)
    requires i < |ev| && j < |ev|
  {
    ev[i].task != ev[j].task && ev[j].task < |tr| && !Before(tr, ev[i].task, ev[j].task)
  }

  /** Some access of the byte is unordered with a write processed before it. */
  ghost predicate RaceAfterWrite(tr: seq<Task>, ev: seq<Event>, b: nat) {
    exists i: nat, j: nat :: i < j < |ev| && WriteTo(ev, b, i) && ev[j].addr == b && Unordered(tr, ev, i, j)
  }

  predicate FirstAccess(ev: seq<Event>, b: nat, i: nat)
    requires i < |ev|
  {
    ev[i].addr == b && forall k :: 0 <= k < i ==> ev[k].addr != b
  }

  predicate FirstWrite(ev: seq<Event>, b: nat, j: nat)
    requires j < |ev|
  {
    WriteTo(ev, b, j) && forall k: nat :: k < j ==> !WriteTo(ev, b, k)
  }

  /** The byte's first access is unordered with its first write. */
  ghost predicate RaceOfFirsts(tr: seq<Task>, ev: seq<Event>, b: nat) {
    exists i: nat, j: nat :: i < j < |ev| && FirstAccess(ev, b, i) && FirstWrite(ev, b, j) && Unordered(tr, ev, i, j)
  }

  /** Before any write the task of the first access is remembered. */
  lemma {:induction false} LastUnwritten(ev: seq<Event>, b: nat, i: nat, j: nat)
    requires i < j <= |ev| && FirstAccess(ev, b, i) && forall k: nat :: k < j ==> !WriteTo(ev, b, k)
    ensures Last(ev[..j], b) == Some(ev[i])
    decreases j
  {
    var p := ev[..j];
    assert p[..|p| - 1] == ev[..j - 1];
    assert !WriteTo(ev, b, j - 1);
    if j - 1 == i { NothingYet(ev, b, i); } else { LastUnwritten(ev, b, i, j - 1); }
  }

  lemma {:induction false} NothingYet(ev: seq<Event>, b: nat, i: nat)
    requires i <= |ev| && forall k :: 0 <= k < i ==> ev[k].addr != b
    ensures Last(ev[..i], b) == None
    decreases i
  {
    if i > 0 {
      assert ev[..i][..i - 1] == ev[..i - 1];
      NothingYet(ev, b, i - 1);
    }
  }

  /** Once there is a write, a write is remembered, by the task that wrote last. */
  lemma {:induction false} LastWritten(ev: seq<Event>, b: nat, i: nat, j: nat) returns (w: nat)
    requires i < j <= |ev| && WriteTo(ev, b, i)
    ensures i <= w < j && WriteTo(ev, b, w) && Last(ev[..j], b).Some?
    ensures var l := Last(ev[..j], b).value; l.write && l.task == ev[w].task
    decreases j
  {
    var p := ev[..j];
    assert p[..|p| - 1] == ev[..j - 1];
    if WriteTo(ev, b, j - 1) {
      w := j - 1;
    } else {
      w := LastWritten(ev, b, i, j - 1);
    }
  }

  lemma ReportHere(tr: seq<Task>, ev: seq<Event>, b: nat, j: nat)
    requires j < |ev| && ev[j].addr == b && RaceAt(tr, ev, j)
    ensures Reported(tr, ev, b, 0)
  {
  }

  /** An access unordered with an earlier write is never missed: if it is not the one reported,
      a write in between is unordered with one of the two. */
  lemma {:induction false} WriteRaceFound(tr: seq<Task>, ev: seq<Event>, b: nat, i: nat, j: nat)
    requires Sequential(tr, ev) && i < j < |ev| && WriteTo(ev, b, i) && ev[j].addr == b && Unordered(tr, ev, i, j)
    ensures Reported(tr, ev, b, 0)
    decreases j
  {
    var w := LastWritten(ev, b, i, j);
    var ti, tw, tj := ev[i].task, ev[w].task, ev[j].task;
    if tw == tj {
      WriteRaceFound(tr, ev, b, i, w);
    } else if !Before(tr, tw, tj) {
      ReportHere(tr, ev, b, j);
    } else {
      if Before(tr, ti, tw) { BeforeTransitive(tr, ti, tw, tj); }
      WriteRaceFound(tr, ev, b, i, w);
    }
  }

  lemma {:induction false} FirstBelow(ev: seq<Event>, b: nat, j: nat) returns (i: nat)
    requires j < |ev| && ev[j].addr == b
    ensures i <= j && FirstAccess(ev, b, i)
    decreases j
  {
    if k: nat :| k < j && ev[k].addr == b { i := FirstBelow(ev, b, k); } else { i := j; }
  }

  lemma IndexIn(ev: seq<Event>, j: nat, e: Event) returns (i: nat)
    requires j <= |ev| && e in ev[..j]
    ensures i < j && ev[i] == e
  {
    i :| 0 <= i < j && ev[..j][i] == e;
  }

  /** What a reported race is. */
  lemma RaceIsReal(tr: seq<Task>, ev: seq<Event>, b: nat, j: nat)
    requires Sequential(tr, ev) && j < |ev| && ev[j].addr == b && RaceAt(tr, ev, j)
    ensures RaceAfterWrite(tr, ev, b) || RaceOfFirsts(tr, ev, b)
  {
    var prev := Last(ev[..j], b).value;
    var i := IndexIn(ev, j, prev);
    if prev.write {
      assert WriteTo(ev, b, i) && Unordered(tr, ev, i, j);
    } else {
      if k: nat :| k < j && WriteTo(ev, b, k) {
        var w := LastWritten(ev, b, k, j);
        assert false;
      }
      var f := FirstBelow(ev, b, i);
      LastUnwritten(ev, b, f, j);
      assert FirstWrite(ev, b, j) && Unordered(tr, ev, f, j);
    }
  }

  /** The detector is exact for races of an access with an earlier write, and of reads with a later
      write it knows the first read of the byte only. */
  lemma DetectorExact(tr: seq<Task>, ev: seq<Event>, b: nat)
    requires Sequential(tr, ev)
    ensures Reported(tr, ev, b, 0) <==> RaceAfterWrite(tr, ev, b) || RaceOfFirsts(tr, ev, b)
  {
    if Reported(tr, ev, b, 0) {
      var j: nat :| j < |ev| && ev[j].addr == b && ev[j].task >= 0 && RaceAt(tr, ev, j);
      RaceIsReal(tr, ev, b, j);
    }
    if RaceAfterWrite(tr, ev, b) {
      var i: nat, j: nat :| i < j < |ev| && WriteTo(ev, b, i) && ev[j].addr == b && Unordered(tr, ev, i, j);
      WriteRaceFound(tr, ev, b, i, j);
    }
    if RaceOfFirsts(tr, ev, b) {
      var i: nat, j: nat :| i < j < |ev| && FirstAccess(ev, b, i) && FirstWrite(ev, b, j) && Unordered(tr, ev, i, j);
      LastUnwritten(ev, b, i, j);
      ReportHere(tr, ev, b, j);
    }
  }

  // ---------- from any task on ----------

  /** Access `i` is the last write of byte `b` before number `j`. */
  predicate LastWrite(ev: seq<Event>, b: nat, i: nat, j: nat)
    requires i < j <= |ev|
  {
    WriteTo(ev, b, i) && forall k: nat :: i < k < j ==> !WriteTo(ev, b, k)
  }

  /** Number `j` meets access `i`: the last write before it, or, being the first write, the first access. */
  predicate Meets(ev: seq<Event>, b: nat, i: nat, j: nat)
    requires i < j < |ev|
  {
    ev[j].addr == b && (LastWrite(ev, b, i, j) || (FirstAccess(ev, b, i) && FirstWrite(ev, b, j)))
  }

  ghost predicate RaceFrom(tr: seq<Task>, ev: seq<Event>, b: nat, roi: nat) {
    exists i: nat, j: nat :: i < j < |ev| && ev[j].task >= roi && Meets(ev, b, i, j) && Unordered(tr, ev, i, j)
  }

  lemma {:induction false} LastIs(ev: seq<Event>, b: nat, i: nat, j: nat)
    requires i < j <= |ev| && LastWrite(ev, b, i, j)
    ensures Last(ev[..j], b).Some?
    ensures var l := Last(ev[..j], b).value; l.write && l.task == ev[i].task
    decreases j
  {
    var p := ev[..j];
    assert p[..|p| - 1] == ev[..j - 1];
    if j - 1 > i {
      assert !WriteTo(ev, b, j - 1);
      LastIs(ev, b, i, j - 1);
    }
  }

  lemma {:induction false} LastWriteExists(ev: seq<Event>, b: nat, k: nat, j: nat) returns (i: nat)
    requires k < j <= |ev| && WriteTo(ev, b, k)
    ensures i < j && LastWrite(ev, b, i, j)
    decreases j - k
  {
    if l: nat :| k < l < j && WriteTo(ev, b, l) { i := LastWriteExists(ev, b, l, j); } else { i := k; }
  }

  /** The decision about one access. */
  lemma RaceAtIff(tr: seq<Task>, ev: seq<Event>, b: nat, j: nat)
    requires Sequential(tr, ev) && j < |ev| && ev[j].addr == b
    ensures RaceAt(tr, ev, j) <==> exists i: nat :: i < j && Meets(ev, b, i, j) && Unordered(tr, ev, i, j)
  {
    if k: nat :| k < j && WriteTo(ev, b, k) {
      var w := LastWriteExists(ev, b, k, j);
      LastIs(ev, b, w, j);
      assert Meets(ev, b, w, j) && (RaceAt(tr, ev, j) <==> Unordered(tr, ev, w, j));
      forall i: nat | i < j && Meets(ev, b, i, j) ensures i == w { assert !FirstWrite(ev, b, j); }
    } else if k: nat :| k < j && ev[k].addr == b {
      var f := FirstBelow(ev, b, k);
      LastUnwritten(ev, b, f, j);
      assert !WriteTo(ev, b, f);
      assert RaceAt(tr, ev, j) <==> ev[j].write && Unordered(tr, ev, f, j);
      assert Meets(ev, b, f, j) <==> ev[j].write;
      forall i: nat | i < j && Meets(ev, b, i, j) ensures i == f {}
    } else {
      NothingYet(ev, b, j);
    }
  }

  /** Exactly what is reported when tasks from number `roi` on are watched. */
  lemma ReportedIff(tr: seq<Task>, ev: seq<Event>, b: nat, roi: nat)
    requires Sequential(tr, ev)
    ensures Reported(tr, ev, b, roi) <==> RaceFrom(tr, ev, b, roi)
  {
    forall j: nat | j < |ev| && ev[j].addr == b
      ensures RaceAt(tr, ev, j) <==> exists i: nat :: i < j && Meets(ev, b, i, j) && Unordered(tr, ev, i, j)
    {
      RaceAtIff(tr, ev, b, j);
    }
    if RaceFrom(tr, ev, b, roi) {
      var i: nat, j: nat :| i < j < |ev| && ev[j].task >= roi && Meets(ev, b, i, j) && Unordered(tr, ev, i, j);
      assert RaceAt(tr, ev, j);
    }
    if Reported(tr, ev, b, roi) {
      var j: nat :| j < |ev| && ev[j].addr == b && ev[j].task >= roi && RaceAt(tr, ev, j);
      var i: nat :| i < j && Meets(ev, b, i, j) && Unordered(tr, ev, i, j);
    }
  }

  // ---------- what is missed ----------

  /** A true race: two accesses, one of them a write, by tasks with no path either way. */
  ghost predicate TrueRace(tr: seq<Task>, ev: seq<Event>, b: nat) {
    exists i: nat, j: nat :: i < j < |ev| && ev[i].addr == b && ev[j].addr == b && (ev[i].write || ev[j].write)
      && Unordered(tr, ev, i, j)
  }

  lemma ReportsAreTrueRaces(tr: seq<Task>, ev: seq<Event>, b: nat)
    requires Sequential(tr, ev) && Reported(tr, ev, b, 0)
    ensures TrueRace(tr, ev, b)
  {
    DetectorExact(tr, ev, b);
    if RaceAfterWrite(tr, ev, b) {
      var i: nat, j: nat :| i < j < |ev| && WriteTo(ev, b, i) && ev[j].addr == b && Unordered(tr, ev, i, j);
    } else {
      var i: nat, j: nat :| i < j < |ev| && FirstAccess(ev, b, i) && FirstWrite(ev, b, j) && Unordered(tr, ev, i, j);
    }
  }

  /** A root with two reading tasks, and a writing one that comes after the first of them only. */
  function MissedTrace(): seq<Task> {
    [Task(TaskId(0, 0), [], [TaskId(1, 0), TaskId(2, 0)], 0, []),
     Task(TaskId(1, 0), [TaskId(0, 0)], [TaskId(1, 1)], 0, [Access(false, 8, 0)]),
     Task(TaskId(2, 0), [TaskId(0, 0)], [], 0, [Access(false, 8, 0)]),
     Task(TaskId(1, 1), [TaskId(1, 0)], [], 0, [Access(true, 8, 0)])]
  }

  /** A read that is not the byte's first, unordered with a later write, is a race no one hears of. */
  lemma SecondReaderMissed()
    ensures var tr := MissedTrace();
            Ordered(tr) && Chained(tr) && TrueRace(tr, Events(tr, 4), 8) && !Reported(tr, Events(tr, 4), 8, 0)
  {
    var tr, ev := MissedTrace(), [Event(1, false, 8), Event(2, false, 8), Event(3, true, 8)];
    MissedEvents();
    MissedOrdered(tr);
    MissedChained();
    MissedPaths(tr);
    MissedReports(tr, ev);
    assert Unordered(tr, ev, 1, 2);
  }

  lemma MissedPaths(tr: seq<Task>)
    requires tr == MissedTrace()
    ensures Before(tr, 1, 3) && !Before(tr, 2, 3)
  {
    assert Edge(tr, 1, 3);
    NotBeforeEarlier(tr, 2, 1);
    forall m: nat | m < 3 && Edge(tr, m, 3) ensures m == 1 {}
  }

  lemma NotBeforeEarlier(tr: seq<Task>, j: nat, k: nat)
    requires k <= j && k < |tr|
    ensures !Before(tr, j, k)
  {
    if Before(tr, j, k) { BeforeIsEarlier(tr, j, k); }
  }

  lemma MissedReports(tr: seq<Task>, ev: seq<Event>)
    requires |tr| == 4 && ev == [Event(1, false, 8), Event(2, false, 8), Event(3, true, 8)] && Before(tr, 1, 3)
    ensures !Reported(tr, ev, 8, 0)
  {
    DetectorExact(tr, ev, 8);
    assert ev[0].addr == 8;
  }

  lemma MissedOrdered(tr: seq<Task>)
    requires tr == MissedTrace()
    ensures Ordered(tr)
  {
    assert forall k: nat :: k < 4 ==> tr[k].preds == [] || tr[k].preds == [TaskId(0, 0)] || k == 3;
    forall k: nat, p | k < |tr| && p in tr[k].preds ensures exists m: nat :: m < k && tr[m].id == p {
      var m := if k == 3 then 1 else 0;
      assert m < k && tr[m].id == p;
    }
    forall m: nat, k: nat | m < k < |tr| && Edge(tr, m, k) ensures tr[k].id in tr[m].succs {
      MissedEdge(tr, m, k);
    }
    forall k: nat | k < |tr| ensures Distinct(tr[k].preds) && Distinct(tr[k].succs) {}
  }

  lemma MissedEdge(tr: seq<Task>, m: nat, k: nat)
    requires tr == MissedTrace() && m < k < |tr| && Edge(tr, m, k)
    ensures tr[k].id in tr[m].succs
  {
    if k == 3 { assert m == 1; } else { assert m == 0; }
  }

  lemma MissedChained()
    ensures Chained(MissedTrace())
  {
    assert Edge(MissedTrace(), 1, 3);
  }

  lemma OneByte(k: nat, w: bool)
    ensures TaskEvents(k, [Access(w, 8, 0)]) == [Event(k, w, 8)]
  {
    var a := Access(w, 8, 0);
    assert Pow2(0) == 1;
    assert BytesOf(k, a, 1) == [];
    assert [a][1..] == [] && TaskEvents(k, []) == [];
  }

  lemma MissedEvents()
    ensures Events(MissedTrace(), 4) == [Event(1, false, 8), Event(2, false, 8), Event(3, true, 8)]
  {
    var tr := MissedTrace();
    OneByte(1, false);
    OneByte(2, false);
    OneByte(3, true);
    assert Events(tr, 0) == [] && TaskEvents(0, []) == [] && Events(tr, 1) == [];
    assert Events(tr, 2) == [Event(1, false, 8)];
    assert Events(tr, 3) == [Event(1, false, 8), Event(2, false, 8)];
  }

  // ---------- reports ----------

  datatype MemoryOp = MemoryOp(write: bool, tid: TaskId)
  datatype Report = Report(addr: nat, existing: MemoryOp, access: MemoryOp)

  predicate Remembered(tr: seq<Task>, op: MemoryOp, e: Event) {
    e.task < |tr| && op == MemoryOp(e.write, tr[e.task].id)
  }

  /** A report names two accesses of the byte by tasks with no path either way, one of them a write. */
  ghost predicate Genuine(tr: seq<Task>, ev: seq<Event>, r: Report) {
    exists i: nat, j: nat :: i < j < |ev| && GenuineAt(tr, ev, r, i, j)
  }

  ghost predicate GenuineAt(tr: seq<Task>, ev: seq<Event>, r: Report, i: nat, j: nat)
    requires i < j < |ev|
  {
    && ev[i].addr == r.addr && ev[j].addr == r.addr && (ev[i].write || ev[j].write)
    && Remembered(tr, r.existing, ev[i]) && Remembered(tr, r.access, ev[j])
    && !Before(tr, ev[i].task, ev[j].task) && !Before(tr, ev[j].task, ev[i].task) && ev[i].task != ev[j].task
  }
}
