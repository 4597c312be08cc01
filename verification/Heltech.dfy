/** The detector of `heltech.cpp`: tables of accesses and clocks, updated byte by byte. */
module Heltech {
  import opened Common
  import opened Tasks
  import opened VectorClock
  import opened RaceDetector
  import opened RaceAccesses

  ghost predicate LastKnown(tr: seq<Task>, ev: seq<Event>, last: map<nat, MemoryOp>) {
    forall b :: if b in last then Last(ev, b).Some? && Remembered(tr, last[b], Last(ev, b).value) else Last(ev, b).None?
  }

  ghost predicate RacesKnown(tr: seq<Task>, ev: seq<Event>, roi: nat, races: set<nat>) {
    forall b :: b in races <==> Reported(tr, ev, b, roi)
  }

  /** One genuine report for every byte with a race. */
  ghost predicate ReportsKnown(tr: seq<Task>, ev: seq<Event>, races: set<nat>, reports: seq<Report>) {
    && |reports| == |races|
    && (forall k, l :: 0 <= k < l < |reports| ==> reports[k].addr != reports[l].addr)
    && forall k :: 0 <= k < |reports| ==> reports[k].addr in races && Genuine(tr, ev, reports[k])
  }

  lemma AppendLast(ev: seq<Event>, e: Event, b: nat)
    ensures var prev := Last(ev, b);
            Last(ev + [e], b) ==
              if e.addr != b then prev
              else if prev.None? || (e.write && !(prev.value.task == e.task && prev.value.write)) then Some(e)
              else prev
  {
    assert (ev + [e])[..|ev|] == ev;
  }

  lemma AppendReported(tr: seq<Task>, ev: seq<Event>, e: Event, roi: nat, b: nat)
    ensures Reported(tr, ev + [e], b, roi) <==>
      Reported(tr, ev, b, roi) || (e.addr == b && e.task >= roi && RaceAt(tr, ev + [e], |ev|))
  {
    var ev' := ev + [e];
    forall j: nat | j < |ev| ensures ev'[j] == ev[j] && (RaceAt(tr, ev', j) <==> RaceAt(tr, ev, j)) {
      assert ev'[..j] == ev[..j];
    }
    if Reported(tr, ev, b, roi) {
      var j: nat :| j < |ev| && ev[j].addr == b && ev[j].task >= roi && RaceAt(tr, ev, j);
      assert ev'[j].addr == b && RaceAt(tr, ev', j);
    }
    if Reported(tr, ev', b, roi) {
      var j: nat :| j < |ev'| && ev'[j].addr == b && ev'[j].task >= roi && RaceAt(tr, ev', j);
      if j < |ev| { assert ev[j].addr == b && RaceAt(tr, ev, j); }
    }
    if e.addr == b && e.task >= roi && RaceAt(tr, ev', |ev|) {
      assert ev'[|ev|].addr == b;
    }
  }

  lemma LastStored(tr: seq<Task>, ev: seq<Event>, last: map<nat, MemoryOp>, e: Event)
    requires LastKnown(tr, ev, last) && e.task < |tr|
    ensures Last(ev + [e], e.addr) == Last(ev, e.addr) ==> LastKnown(tr, ev + [e], last)
    ensures Last(ev + [e], e.addr) == Some(e) ==>
      LastKnown(tr, ev + [e], last[e.addr := MemoryOp(e.write, tr[e.task].id)])
  {
    forall b | b != e.addr ensures Last(ev + [e], b) == Last(ev, b) { AppendLast(ev, e, b); }
  }

  lemma RacesAfter(tr: seq<Task>, ev: seq<Event>, e: Event, roi: nat, races: set<nat>)
    requires RacesKnown(tr, ev, roi, races)
    ensures RacesKnown(tr, ev + [e], roi,
                       if e.task >= roi && RaceAt(tr, ev + [e], |ev|) then races + {e.addr} else races)
  {
    forall b ensures Reported(tr, ev + [e], b, roi) <==>
      Reported(tr, ev, b, roi) || (e.addr == b && e.task >= roi && RaceAt(tr, ev + [e], |ev|))
    {
      AppendReported(tr, ev, e, roi, b);
    }
  }

  lemma ReportsStay(tr: seq<Task>, ev: seq<Event>, e: Event, races: set<nat>, reports: seq<Report>)
    requires ReportsKnown(tr, ev, races, reports)
    ensures ReportsKnown(tr, ev + [e], races, reports)
  {
    var ev' := ev + [e];
    forall k | 0 <= k < |reports| ensures Genuine(tr, ev', reports[k]) {
      assert Genuine(tr, ev, reports[k]);
      var i: nat, j: nat :| i < j < |ev| && GenuineAt(tr, ev, reports[k], i, j);
      assert ev'[i] == ev[i] && ev'[j] == ev[j];
      assert GenuineAt(tr, ev', reports[k], i, j);
    }
  }

  /** A step that adds no report. */
  lemma NothingNew(tr: seq<Task>, ev: seq<Event>, e: Event, roi: nat, races: set<nat>, reports: seq<Report>)
    requires RacesKnown(tr, ev, roi, races) && ReportsKnown(tr, ev, races, reports)
    requires e.task >= roi && RaceAt(tr, ev + [e], |ev|) ==> e.addr in races
    ensures RacesKnown(tr, ev + [e], roi, races) && ReportsKnown(tr, ev + [e], races, reports)
  {
    RacesAfter(tr, ev, e, roi, races);
    ReportsStay(tr, ev, e, races, reports);
    assert e.addr in races ==> races + {e.addr} == races;
  }

  lemma NewReport(tr: seq<Task>, ev: seq<Event>, e: Event, races: set<nat>, reports: seq<Report>, r: Report)
    requires ReportsKnown(tr, ev + [e], races, reports) && Sequential(tr, ev + [e]) && e.addr !in races
    requires RaceAt(tr, ev + [e], |ev|) && r.addr == e.addr
    requires Last(ev, e.addr).Some? && Remembered(tr, r.existing, Last(ev, e.addr).value) && Remembered(tr, r.access, e)
    ensures ReportsKnown(tr, ev + [e], races + {e.addr}, reports + [r])
  {
    NewGenuine(tr, ev, e, r);
  }

  lemma NewGenuine(tr: seq<Task>, ev: seq<Event>, e: Event, r: Report)
    requires Sequential(tr, ev + [e]) && RaceAt(tr, ev + [e], |ev|) && r.addr == e.addr
    requires Last(ev, e.addr).Some? && Remembered(tr, r.existing, Last(ev, e.addr).value) && Remembered(tr, r.access, e)
    ensures Genuine(tr, ev + [e], r)
  {
    var ev' := ev + [e];
    assert ev'[..|ev|] == ev;
    var i := IndexIn(ev', |ev|, Last(ev, e.addr).value);
    assert ev'[i].task <= ev'[|ev|].task;
    if Before(tr, e.task, ev'[i].task) { BeforeIsEarlier(tr, e.task, ev'[i].task); }
    assert GenuineAt(tr, ev', r, i, |ev|);
  }

  /** Task ids name tasks, and the clock of the current task decides the path. */
  lemma PathDecided(tr: seq<Task>, j: nat, k: nat, c: Clock)
    requires Ordered(tr) && Chained(tr) && j <= k < |tr| && Exact(tr, k, c)
    ensures tr[j].id == tr[k].id <==> j == k
    ensures Covers(c, tr[j].id) <==> j == k || Before(tr, j, k)
  {
    CoversIsPath(tr, j, k, c);
  }

  lemma {:induction false} EventsOfTask(k: nat, accesses: seq<Access>)
    ensures forall e :: e in TaskEvents(k, accesses) ==> e.task == k
  {
    if accesses != [] {
      BytesOfTask(k, accesses[0], 0);
      EventsOfTask(k, accesses[1..]);
    }
  }

  lemma {:induction false} BytesOfTask(k: nat, a: Access, from: nat)
    requires from <= Pow2(a.pow)
    ensures forall e :: e in BytesOf(k, a, from) ==> e.task == k
    decreases Pow2(a.pow) - from
  {
    if from < Pow2(a.pow) { BytesOfTask(k, a, from + 1); }
  }

  lemma {:induction false} EventsSequential(tr: seq<Task>, k: nat)
    requires k <= |tr|
    ensures Sequential(tr, Events(tr, k)) && forall e :: e in Events(tr, k) ==> e.task < k
  {
    if k > 0 {
      EventsSequential(tr, k - 1);
      EventsOfTask(k - 1, tr[k - 1].accesses);
      var p, q := Events(tr, k - 1), TaskEvents(k - 1, tr[k - 1].accesses);
      forall j | 0 <= j < |p + q| ensures if j < |p| then (p + q)[j] in p else (p + q)[j] in q {}
    }
  }

  lemma SequentialStart(tr: seq<Task>, k: nat, ev: seq<Event>, e: Event, rest: seq<Event>)
    requires k <= |tr| && ev + ([e] + rest) == Events(tr, k)
    ensures Sequential(tr, ev + [e]) && (ev + [e]) + rest == Events(tr, k)
  {
    EventsSequential(tr, k);
    assert (ev + [e]) + rest == ev + ([e] + rest);
    forall j | 0 <= j < |ev + [e]| ensures (ev + [e])[j] == Events(tr, k)[j] {}
  }

  /** Number of the task with this id, or the length of the trace. */
  function IndexOf(tr: seq<Task>, id: TaskId): (r: nat)
    ensures r <= |tr| && (r < |tr| ==> tr[r].id == id) && forall k :: 0 <= k < r ==> tr[k].id != id
  {
    if tr == [] || tr[0].id == id then 0 else 1 + IndexOf(tr[1..], id)
  }

  lemma TaskEventsFrom(k: nat, accesses: seq<Access>, i: nat)
    requires i < |accesses|
    ensures TaskEvents(k, accesses[i..]) == BytesOf(k, accesses[i], 0) + TaskEvents(k, accesses[i + 1..])
  {
    assert accesses[i..][1..] == accesses[i + 1..];
  }

  lemma NextByte(tr: seq<Task>, k: nat, a: Access, sz: nat, ev: seq<Event>, rest: seq<Event>)
    requires k < |tr| && sz < Pow2(a.pow) && ev + (BytesOf(k, a, sz) + rest) == Events(tr, k + 1)
    ensures var e := Event(k, a.write, a.addr + sz);
            Sequential(tr, ev + [e]) && (ev + [e]) + (BytesOf(k, a, sz + 1) + rest) == Events(tr, k + 1)
  {
    var e, more := Event(k, a.write, a.addr + sz), BytesOf(k, a, sz + 1);
    assert BytesOf(k, a, sz) + rest == [e] + (more + rest);
    SequentialStart(tr, k + 1, ev, e, more + rest);
  }

  class Detector {
    const clocks: Clocks
    var lastAccess: map<nat, MemoryOp>
    var raceAddresses: set<nat>
    var reports: seq<Report>
    var inROI: bool

    constructor ()
      ensures forall tr :: Tracks(tr, 0, clocks.vecClock, clocks.vecClockRef) && AllExact(tr, 0, clocks.vecClock)
      ensures lastAccess == map[] && raceAddresses == {} && reports == [] && !inROI
      ensures fresh(clocks)
    {
      clocks := new Clocks();
      lastAccess, raceAddresses, reports, inROI := map[], {}, [], false;
    }

    /** The fields say what the events so far say, with tasks from number `roi` on watched. */
    ghost predicate Knows(tr: seq<Task>, ev: seq<Event>, roi: nat)
      reads this
    {
      && LastKnown(tr, ev, lastAccess) && RacesKnown(tr, ev, roi, raceAddresses)
      && ReportsKnown(tr, ev, raceAddresses, reports)
    }

    /** Whether the access by task number `k` races with the one remembered. */
    method Races(tid: TaskId, b: nat, write: bool, ghost tr: seq<Task>, ghost k: nat, ghost ev: seq<Event>)
      returns (race: bool)
      requires Ordered(tr) && Chained(tr) && k < |tr| && tr[k].id == tid && Sequential(tr, ev + [Event(k, write, b)])
      requires tid in clocks.vecClock && Exact(tr, k, clocks.vecClock[tid])
      requires LastKnown(tr, ev, lastAccess) && b in lastAccess
      ensures lastAccess[b].tid == tid <==> Last(ev, b).value.task == k
      ensures race <==> lastAccess[b].tid != tid && RaceAt(tr, ev + [Event(k, write, b)], |ev|)
    {
      var existing := lastAccess[b];
      ghost var ev' := ev + [Event(k, write, b)];
      ghost var prev := Last(ev, b).value;
      assert ev'[..|ev|] == ev;
      ghost var i := IndexIn(ev', |ev|, prev);
      assert ev'[i].task <= ev'[|ev|].task;
      PathDecided(tr, prev.task, k, clocks.vecClock[tid]);
      race := false;
      if existing.tid != tid && (write || existing.write) {
        var path := clocks.HbPathCheck(existing.tid, tid);
        race := !path;
      }
    }

    /** What stays remembered of the byte. */
    method Remember(tid: TaskId, b: nat, write: bool, ghost tr: seq<Task>, ghost k: nat, ghost ev: seq<Event>)
      requires k < |tr| && tr[k].id == tid && LastKnown(tr, ev, lastAccess)
      requires b in lastAccess ==> (lastAccess[b].tid == tid <==> Last(ev, b).value.task == k)
      modifies this`lastAccess
      ensures LastKnown(tr, ev + [Event(k, write, b)], lastAccess)
    {
      AppendLast(ev, Event(k, write, b), b);
      LastStored(tr, ev, lastAccess, Event(k, write, b));
      if b !in lastAccess || (write && !(lastAccess[b].tid == tid && lastAccess[b].write)) {
        lastAccess := lastAccess[b := MemoryOp(write, tid)];
      }
    }

    /** Reports a race that is the byte's first and lies in the region of interest. */
    method ReportRace(race: bool, b: nat, existing: MemoryOp, access: MemoryOp, ghost tr: seq<Task>,
                      ghost ev: seq<Event>, ghost e: Event, ghost roi: nat)
      requires RacesKnown(tr, ev, roi, raceAddresses) && ReportsKnown(tr, ev, raceAddresses, reports)
      requires Sequential(tr, ev + [e]) && e.addr == b && (inROI <==> e.task >= roi)
      requires race <==> RaceAt(tr, ev + [e], |ev|)
      requires race ==> Last(ev, b).Some? && Remembered(tr, existing, Last(ev, b).value) && Remembered(tr, access, e)
      modifies this`raceAddresses, this`reports
      ensures RacesKnown(tr, ev + [e], roi, raceAddresses) && ReportsKnown(tr, ev + [e], raceAddresses, reports)
    {
      if race && inROI && b !in raceAddresses {
        RacesAfter(tr, ev, e, roi, raceAddresses);
        ReportsStay(tr, ev, e, raceAddresses, reports);
        NewReport(tr, ev, e, raceAddresses, reports, Report(b, existing, access));
        reports := reports + [Report(b, existing, access)];
        raceAddresses := raceAddresses + {b};
      } else {
        NothingNew(tr, ev, e, roi, raceAddresses, reports);
      }
    }

    /** One byte of an access by the current task. */
    method AccessByte(tid: TaskId, b: nat, write: bool, ghost tr: seq<Task>, ghost k: nat, ghost ev: seq<Event>,
                      ghost roi: nat)
      requires Ordered(tr) && Chained(tr) && k < |tr| && tr[k].id == tid && Sequential(tr, ev + [Event(k, write, b)])
      requires tid in clocks.vecClock && Exact(tr, k, clocks.vecClock[tid])
      requires Knows(tr, ev, roi) && (inROI <==> k >= roi)
      modifies this`lastAccess, this`raceAddresses, this`reports
      ensures Knows(tr, ev + [Event(k, write, b)], roi)
    {
      ghost var e := Event(k, write, b);
      var race, existing := false, MemoryOp(write, tid);
      assert (ev + [e])[..|ev|] == ev;
      if b in lastAccess {
        existing := lastAccess[b];
        race := Races(tid, b, write, tr, k, ev);
        race := race && existing.tid != tid;
      }
      ReportRace(race, b, existing, MemoryOp(write, tid), tr, ev, e, roi);
      Remember(tid, b, write, tr, k, ev);
    }

    /** All accesses of the current task. */
    method AccessTask(t: Task, ghost tr: seq<Task>, ghost k: nat, ghost roi: nat)
      requires Ordered(tr) && Chained(tr) && k < |tr| && tr[k] == t
      requires t.id in clocks.vecClock && Exact(tr, k, clocks.vecClock[t.id])
      requires Knows(tr, Events(tr, k), roi) && (inROI <==> k >= roi)
      modifies this`lastAccess, this`raceAddresses, this`reports
      ensures Knows(tr, Events(tr, k + 1), roi)
    {
      ghost var ev := Events(tr, k);
      ghost var all := TaskEvents(k, t.accesses);
      for i := 0 to |t.accesses|
        invariant Knows(tr, ev, roi) && (inROI <==> k >= roi)
        invariant ev + TaskEvents(k, t.accesses[i..]) == Events(tr, k + 1)
      {
        ev := AccessBytes(t, i, tr, k, ev, roi);
      }
      assert ev + [] == ev;
    }

    /** The byte `sz` of an access; `rest` lies ahead. */
    method AccessNext(tid: TaskId, a: Access, sz: nat, ghost tr: seq<Task>, ghost k: nat, ghost ev: seq<Event>,
                      ghost rest: seq<Event>, ghost roi: nat) returns (ghost ev': seq<Event>)
      requires Ordered(tr) && Chained(tr) && k < |tr| && tr[k].id == tid
      requires tid in clocks.vecClock && Exact(tr, k, clocks.vecClock[tid])
      requires Knows(tr, ev, roi) && (inROI <==> k >= roi)
      requires sz < Pow2(a.pow) && ev + (BytesOf(k, a, sz) + rest) == Events(tr, k + 1)
      modifies this`lastAccess, this`raceAddresses, this`reports
      ensures Knows(tr, ev', roi) && ev' + (BytesOf(k, a, sz + 1) + rest) == Events(tr, k + 1)
    {
      ev' := ev + [Event(k, a.write, a.addr + sz)];
      NextByte(tr, k, a, sz, ev, rest);
      assert ev' + (BytesOf(k, a, sz + 1) + rest) == Events(tr, k + 1);
      AccessByte(tid, a.addr + sz, a.write, tr, k, ev, roi);
    }

    /** Every byte of access number `i`. */
    method AccessBytes(t: Task, i: nat, ghost tr: seq<Task>, ghost k: nat, ghost ev0: seq<Event>, ghost roi: nat)
      returns (ghost ev: seq<Event>)
      requires Ordered(tr) && Chained(tr) && k < |tr| && tr[k] == t && i < |t.accesses|
      requires t.id in clocks.vecClock && Exact(tr, k, clocks.vecClock[t.id])
      requires Knows(tr, ev0, roi) && (inROI <==> k >= roi)
      requires ev0 + TaskEvents(k, t.accesses[i..]) == Events(tr, k + 1)
      modifies this`lastAccess, this`raceAddresses, this`reports
      ensures Knows(tr, ev, roi)
      ensures ev + TaskEvents(k, t.accesses[i + 1..]) == Events(tr, k + 1)
    {
      var a := t.accesses[i];
      ghost var rest := TaskEvents(k, t.accesses[i + 1..]);
      TaskEventsFrom(k, t.accesses, i);
      ev := ev0;
      var n := Pow2(a.pow);
      var sz := 0;
      while sz < n
        invariant sz <= n
        invariant Knows(tr, ev, roi) && (inROI <==> k >= roi)
        invariant ev + (BytesOf(k, a, sz) + rest) == Events(tr, k + 1)
      {
        ev := AccessNext(t.id, a, sz, tr, k, ev, rest, roi);
        sz := sz + 1;
      }
      assert [] + rest == rest;
    }

    /** The first `k` tasks are processed. */
    ghost predicate Ready(tr: seq<Task>, k: nat, roi: nat)
      reads this, clocks
      requires k <= |tr|
    {
      && Tracks(tr, k, clocks.vecClock, clocks.vecClockRef) && AllExact(tr, k, clocks.vecClock)
      && Knows(tr, Events(tr, k), roi) && (inROI <==> k > roi)
    }

    lemma NothingKnown(tr: seq<Task>, roi: nat)
      requires lastAccess == map[] && raceAddresses == {} && reports == []
      ensures Knows(tr, Events(tr, 0), roi)
    {
    }

    method ProcessTask(t: Task, roiStart: TaskId, ghost tr: seq<Task>, ghost k: nat)
      requires Ordered(tr) && Chained(tr) && k < |tr| && tr[k] == t && Ready(tr, k, IndexOf(tr, roiStart))
      modifies this`inROI, this`lastAccess, this`raceAddresses, this`reports, clocks
      ensures Ready(tr, k + 1, IndexOf(tr, roiStart))
    {
      if t.id == roiStart { inROI := true; }
      clocks.UpdateVecClock(t, tr, k);
      AccessTask(t, tr, k, IndexOf(tr, roiStart));
    }
  }

  method Detect(trace: seq<Task>, roiStart: TaskId, roiEnd: TaskId) returns (races: set<nat>, reports: seq<Report>)
    requires Ordered(trace) && Chained(trace)
    ensures RacesKnown(trace, Events(trace, IndexOf(trace, roiEnd)), IndexOf(trace, roiStart), races)
    ensures ReportsKnown(trace, Events(trace, IndexOf(trace, roiEnd)), races, reports)
  {
    var d := new Detector();
    ghost var from := IndexOf(trace, roiStart);
    var k := 0;
    d.NothingKnown(trace, from);
    while k < |trace| && trace[k].id != roiEnd
      invariant k <= IndexOf(trace, roiEnd) && fresh(d) && fresh(d.clocks) && d.Ready(trace, k, from)
      decreases |trace| - k
    {
      d.ProcessTask(trace[k], roiStart, trace, k);
      k := k + 1;
    }
    assert k == IndexOf(trace, roiEnd) && d.Knows(trace, Events(trace, k), from);
    races, reports := d.raceAddresses, d.reports;
  }

  /** `hbRaceDetector`: runs up to the task `roiEnd`, reporting from the task `roiStart` on.  The raced bytes
      are exactly those of `Raced`, and each has one report, which names a race. */
  method HbRaceDetector(trace: seq<Task>, roiStart: TaskId, roiEnd: TaskId)
    returns (races: set<nat>, reports: seq<Report>)
    requires Ordered(trace) && Chained(trace)
    ensures forall b :: b in races <==> Raced(trace, IndexOf(trace, roiEnd), IndexOf(trace, roiStart), b)
    ensures forall k :: 0 <= k < |reports| ==> NamesRace(trace, IndexOf(trace, roiEnd), reports[k])
    ensures forall k, l :: 0 <= k < l < |reports| ==> reports[k].addr != reports[l].addr
    ensures |reports| == |races| && forall k :: 0 <= k < |reports| ==> reports[k].addr in races
  {
    races, reports := Detect(trace, roiStart, roiEnd);
    ghost var n, from := IndexOf(trace, roiEnd), IndexOf(trace, roiStart);
    EventsSequential(trace, n);
    forall b ensures b in races <==> Raced(trace, n, from, b) { RacedIff(trace, n, from, b); }
    forall k | 0 <= k < |reports| ensures NamesRace(trace, n, reports[k]) { GenuineNames(trace, n, reports[k]); }
  }
}
