/** Barrier events grouped into rounds: one barrier task a round, with every participant as a
    predecessor and every participant's next task as a successor. */
module Barrier {
  import opened Tasks

  // ---------- rounds, abstractly ----------

  datatype Event = Enter(ctx: nat) | Exit(ctx: nat)

  function Ins(ev: seq<Event>, c: nat): nat {
    if ev == [] then 0 else Ins(ev[..|ev| - 1], c) + if ev[|ev| - 1] == Enter(c) then 1 else 0
  }

  function Outs(ev: seq<Event>, c: nat): nat {
    if ev == [] then 0 else Outs(ev[..|ev| - 1], c) + if ev[|ev| - 1] == Exit(c) then 1 else 0
  }

  /** A participant leaves before it enters again, and leaves a round that all have entered. */
  ghost predicate LegalNext(all: set<nat>, ev: seq<Event>, e: Event) {
    && e.ctx in all
    && match e
       case Enter(c) => Ins(ev, c) == Outs(ev, c)
       case Exit(c) => Ins(ev, c) == Outs(ev, c) + 1 && forall d :: d in all ==> Ins(ev, d) >= Ins(ev, c)
  }

  ghost predicate LegalRun(all: set<nat>, ev: seq<Event>) {
    forall k :: 0 <= k < |ev| ==> LegalNext(all, ev[..k], ev[k])
  }

  /** `entered` the next round; in `leaving`, `exited` have left the round before it. */
  datatype Rounds = Rounds(entered: set<nat>, leaving: bool, exited: set<nat>, finished: nat)

  predicate Finishes(all: set<nat>, s: Rounds, e: Event) {
    e.Exit? && (if s.leaving then s.exited else {}) + {e.ctx} == all
  }

  function Step(all: set<nat>, s: Rounds, e: Event): Rounds {
    match e
    case Enter(c) => s.(entered := s.entered + {c})
    case Exit(c) =>
      if Finishes(all, s, e) then Rounds(if s.leaving then s.entered else {}, false, {}, s.finished + 1)
      else if s.leaving then s.(exited := s.exited + {c})
      else Rounds({}, true, {c}, s.finished)
  }

  function After(all: set<nat>, ev: seq<Event>): Rounds {
    if ev == [] then Rounds({}, false, {}, 0) else Step(all, After(all, ev[..|ev| - 1]), ev[|ev| - 1])
  }

  /** What the barrier code relies on. */
  predicate CanStep(all: set<nat>, s: Rounds, e: Event) {
    && e.ctx in all
    && match e
       case Enter(c) => c !in s.entered && (s.leaving ==> c in s.exited)
       case Exit(c) => if s.leaving then c !in s.exited else s.entered == all
  }

  predicate RoundsOk(all: set<nat>, s: Rounds) {
    && s.entered <= all && s.exited <= all
    && if s.leaving then s.exited != {} && s.exited != all && s.entered <= s.exited else s.exited == {}
  }

  ghost predicate CountsAt(s: Rounds, ev: seq<Event>, c: nat) {
    && Outs(ev, c) == s.finished + (if c in s.exited then 1 else 0)
    && Ins(ev, c) == Outs(ev, c) + (if c in s.entered then 1 else 0) + (if s.leaving && c !in s.exited then 1 else 0)
  }

  ghost predicate Counts(all: set<nat>, s: Rounds, ev: seq<Event>) {
    forall c {:trigger CountsAt(s, ev, c)} :: c in all ==> CountsAt(s, ev, c)
  }

  /** A legal event is one the barrier code can take. */
  lemma LegalCanStep(all: set<nat>, s: Rounds, ev: seq<Event>, e: Event)
    requires RoundsOk(all, s) && Counts(all, s, ev) && LegalNext(all, ev, e)
    ensures CanStep(all, s, e)
  {
    assert CountsAt(s, ev, e.ctx);
    if e.Exit? {
      forall d | d in all ensures !s.leaving ==> d in s.entered { assert CountsAt(s, ev, d); }
      if s.leaving {
        var d :| d in all && d !in s.exited;
        assert CountsAt(s, ev, d) && Ins(ev, d) == s.finished + 1;
      }
    }
  }

  lemma StepOk(all: set<nat>, s: Rounds, e: Event)
    requires RoundsOk(all, s) && CanStep(all, s, e)
    ensures RoundsOk(all, Step(all, s, e))
  {
  }

  lemma ExitCases(all: set<nat>, s: Rounds, c: nat)
    requires CanStep(all, s, Exit(c))
    ensures var s', left := Step(all, s, Exit(c)), if s.leaving then s.exited else {};
            && c !in left && s'.entered == (if s.leaving then s.entered else {})
            && s'.leaving == !Finishes(all, s, Exit(c))
            && (s'.leaving ==> s'.exited == left + {c})
  {
  }

  lemma StepCounts(all: set<nat>, s: Rounds, ev: seq<Event>, e: Event)
    requires RoundsOk(all, s) && Counts(all, s, ev) && CanStep(all, s, e)
    ensures Counts(all, Step(all, s, e), ev + [e])
  {
    assert (ev + [e])[..|ev|] == ev;
    forall c | c in all ensures CountsAt(Step(all, s, e), ev + [e], c) { assert CountsAt(s, ev, c); }
  }

  lemma LegalStart(all: set<nat>, ev: seq<Event>)
    requires LegalRun(all, ev) && ev != []
    ensures LegalRun(all, ev[..|ev| - 1]) && LegalNext(all, ev[..|ev| - 1], ev[|ev| - 1])
  {
    var p := ev[..|ev| - 1];
    forall k | 0 <= k < |p| ensures LegalNext(all, p[..k], p[k]) {
      assert p[..k] == ev[..k] && LegalNext(all, ev[..k], ev[k]);
    }
  }

  lemma FitsNext(all: set<nat>, p: seq<Event>, e: Event)
    requires RoundsOk(all, After(all, p)) && Counts(all, After(all, p), p) && LegalNext(all, p, e)
    ensures CanStep(all, After(all, p), e)
    ensures RoundsOk(all, After(all, p + [e])) && Counts(all, After(all, p + [e]), p + [e])
  {
    LegalCanStep(all, After(all, p), p, e);
    StepOk(all, After(all, p), e);
    StepCounts(all, After(all, p), p, e);
    assert (p + [e])[..|p|] == p;
  }

  /** Along every legal run each event is one the barrier code can take, and the participants' counts
      tell which round they are in. */
  lemma {:induction false} RunFits(all: set<nat>, ev: seq<Event>)
    requires LegalRun(all, ev)
    ensures RoundsOk(all, After(all, ev)) && Counts(all, After(all, ev), ev)
    ensures forall k :: 0 <= k < |ev| ==> CanStep(all, After(all, ev[..k]), ev[k])
  {
    if ev != [] {
      var p, e := ev[..|ev| - 1], ev[|ev| - 1];
      LegalStart(all, ev);
      RunFits(all, p);
      FitsNext(all, p, e);
      assert p + [e] == ev;
      forall k | 0 <= k < |ev| ensures CanStep(all, After(all, ev[..k]), ev[k]) {
        if k < |p| { assert p[..k] == ev[..k] && p[k] == ev[k]; } else { assert ev[..k] == p; }
      }
    }
  }

  function Exits(ev: seq<Event>): nat {
    if ev == [] then 0 else Exits(ev[..|ev| - 1]) + if ev[|ev| - 1].Exit? then 1 else 0
  }

  lemma ExitCount(all: set<nat>, s: Rounds, e: Event)
    requires RoundsOk(all, s) && CanStep(all, s, e)
    ensures var s' := Step(all, s, e);
            s'.finished * |all| + |s'.exited| == s.finished * |all| + |s.exited| + if e.Exit? then 1 else 0
  {
    if e.Exit? {
      assert |s.exited + {e.ctx}| == |s.exited| + 1;
      assert (s.finished + 1) * |all| == s.finished * |all| + |all|;
    }
  }

  /** A round finishes exactly on every N-th exit. */
  lemma {:induction false} EveryNthExit(all: set<nat>, ev: seq<Event>)
    requires LegalRun(all, ev) && all != {}
    ensures Exits(ev) == After(all, ev).finished * |all| + |After(all, ev).exited|
    ensures |After(all, ev).exited| < |all|
  {
    RunFits(all, ev);
    SmallerThan(After(all, ev).exited, all);
    if ev != [] {
      var p, e := ev[..|ev| - 1], ev[|ev| - 1];
      assert forall k :: 0 <= k < |p| ==> p[..k] == ev[..k];
      RunFits(all, p);
      EveryNthExit(all, p);
      ExitCount(all, After(all, p), e);
    }
  }

  lemma SmallerThan(a: set<nat>, b: set<nat>)
    requires a <= b && (a != b || b == {})
    ensures b != {} ==> |a| < |b|
  {
    if b != {} {
      var x :| x in b && x !in a;
      assert b == a + (b - a) && |b| == |a| + |b - a|;
    }
  }

  // ---------- barrier tasks ----------

  class GraphTask {
    const id: TaskId
    var preds: seq<TaskId>
    var succs: seq<TaskId>
    var start: nat
    var end: nat

    constructor (id: TaskId)
      ensures this.id == id && preds == [] && succs == [] && start == 0 && end == 0
    {
      this.id := id;
      preds, succs, start, end := [], [], 0, 0;
    }
  }

  function Next(id: TaskId): TaskId { id.(seqid := id.seqid + 1) }

  function ContextsOf(s: seq<TaskId>): set<nat> { set id | id in s :: id.ctx }

  /** The list has one task of each of these contexts, and no other. */
  predicate OneEach(s: seq<TaskId>, cs: set<nat>) { ContextsOf(s) == cs && |s| == |cs| }

  lemma OneMore(s: seq<TaskId>, cs: set<nat>, id: TaskId)
    requires OneEach(s, cs) && id.ctx !in cs
    ensures OneEach(s + [id], cs + {id.ctx})
  {
    assert ContextsOf(s + [id]) == ContextsOf(s) + {id.ctx} by {
      assert (s + [id])[|s|] == id;
      forall x | x in s ensures x in s + [id] {}
    }
  }

  method HasContext(s: seq<TaskId>, cid: nat) returns (found: bool)
    ensures found <==> cid in ContextsOf(s)
  {
    found := false;
    for i := 0 to |s|
      invariant !found && forall j :: 0 <= j < i ==> s[j].ctx != cid
    {
      if s[i].ctx == cid {
        assert s[i] in s;
        return true;
      }
    }
  }

  function Larger(a: nat, b: nat): nat { if a > b then a else b }

  /** The largest of the times, 0 if there are none. */
  function Latest(times: seq<nat>): nat {
    if times == [] then 0
    else
      var last, before := times[|times| - 1], Latest(times[..|times| - 1]);
      if last > before then last else before
  }

  lemma {:induction false} LatestIs(times: seq<nat>)
    ensures times != [] ==> Latest(times) in times
    ensures forall t :: t in times ==> t <= Latest(times)
  {
    if times != [] {
      var n := |times| - 1;
      assert times == times[..n] + [times[n]];
      LatestIs(times[..n]);
    }
  }

  class BarrierWrapper {
    const all: set<nat>                  // the participants
    var entryBarrierTask: GraphTask?
    var exitBarrierTasks: seq<GraphTask>
    ghost var rounds: Rounds
    ghost var arrived: seq<nat>          // when those that entered the next round arrived

    ghost function Repr(): set<object>
      reads this
    {
      (if entryBarrierTask == null then {} else {entryBarrierTask}) + set t: GraphTask | t in exitBarrierTasks
    }

    /** The entry barrier has those that entered the next round as predecessors, and starts when the last of
        them arrived. */
    ghost predicate EntryOk(entered: set<nat>)
      reads this`entryBarrierTask, this`arrived, entryBarrierTask
    {
      && (entryBarrierTask == null <==> entered == {}) && |arrived| == |entered|
      && (entryBarrierTask != null ==> OneEach(entryBarrierTask.preds, entered) && entryBarrierTask.succs == []
                                       && entryBarrierTask.start == Latest(arrived))
    }

    /** At most one barrier is being left; its task has every participant before it and those that
        left after it. */
    ghost predicate ExitOk(leaving: bool, exited: set<nat>)
      reads this`exitBarrierTasks, set t: GraphTask | t in exitBarrierTasks
    {
      && |exitBarrierTasks| == (if leaving then 1 else 0)
      && (leaving ==> exitBarrierTasks[0] in exitBarrierTasks && OneEach(exitBarrierTasks[0].preds, all)
                      && OneEach(exitBarrierTasks[0].succs, exited))
    }

    ghost predicate Valid()
      reads this, Repr()
    {
      && RoundsOk(all, rounds) && all != {} && EntryOk(rounds.entered) && ExitOk(rounds.leaving, rounds.exited)
      && (entryBarrierTask != null ==> entryBarrierTask !in exitBarrierTasks)
    }

    constructor (all: set<nat>)
      requires all != {}
      ensures Valid() && rounds == After(all, []) && this.all == all && Repr() == {}
    {
      this.all := all;
      entryBarrierTask, exitBarrierTasks := null, [];
      rounds, arrived := Rounds({}, false, {}, 0), [];
    }

    /** The exit barrier that the context has not entered, if there is one. */
    method MissedExit(cid: nat) returns (ebt: GraphTask?)
      requires Valid()
      ensures rounds.leaving && cid !in all ==> ebt == exitBarrierTasks[0]
      ensures !rounds.leaving || cid in all ==> ebt == null
    {
      ebt := null;
      for k := 0 to |exitBarrierTasks|
        invariant ebt == null && (k > 0 ==> cid in all)
      {
        var hasExitedBarrier := HasContext(exitBarrierTasks[k].preds, cid);
        if !hasExitedBarrier { return exitBarrierTasks[k]; }
      }
    }

    /** Task `arriving` becomes a predecessor of the barrier task. */
    method Attach(barrier: GraphTask, arriving: GraphTask, arrivalTime: nat)
      requires barrier != arriving
      modifies barrier, arriving
      ensures arriving.succs == old(arriving.succs) + [barrier.id] && arriving.end == arrivalTime
      ensures arriving.preds == old(arriving.preds)
      ensures barrier.preds == old(barrier.preds) + [arriving.id] && barrier.succs == old(barrier.succs)
      ensures barrier.start == Larger(arrivalTime, old(barrier.start)) && barrier.end == old(barrier.end)
    {
      barrier.start := if arrivalTime > barrier.start then arrivalTime else barrier.start;
      arriving.succs := arriving.succs + [barrier.id];
      arriving.end := arrivalTime;
      barrier.preds := barrier.preds + [arriving.id];
    }

    /** Valid, but that there may be an entry barrier which nobody has entered yet. */
    ghost predicate Open()
      reads this, Repr()
    {
      && RoundsOk(all, rounds) && all != {} && ExitOk(rounds.leaving, rounds.exited)
      && entryBarrierTask != null && entryBarrierTask !in exitBarrierTasks
      && OneEach(entryBarrierTask.preds, rounds.entered) && entryBarrierTask.succs == []
      && entryBarrierTask.start == Latest(arrived) && |arrived| == |rounds.entered|
    }

    /** The first to enter a round creates its task. */
    method EntryTask(first: TaskId) returns (barrier: GraphTask)
      requires Valid()
      modifies this`entryBarrierTask
      ensures barrier == entryBarrierTask && Open()
      ensures if old(entryBarrierTask) == null then
                fresh(barrier) && barrier.id == Next(first) && barrier.preds == [] && barrier.start == barrier.end == 0
              else barrier == old(entryBarrierTask)
    {
      if entryBarrierTask == null {
        entryBarrierTask := new GraphTask(Next(first));
      }
      barrier := entryBarrierTask;
    }

    /** The context takes no part in the rounds, and one is being left. */
    ghost predicate Late(c: nat)
      reads this`rounds
    {
      rounds.leaving && c !in all
    }

    /** The barrier task the arriving task goes to: that of the next round, or for a context the barrier
        being left does not know that one. */
    method OnEnter(arriving: GraphTask, arrivalTime: nat) returns (barrier: GraphTask)
      requires Valid() && arriving !in Repr()
      requires CanStep(all, rounds, Enter(arriving.id.ctx)) || Late(arriving.id.ctx)
      modifies this, Repr(), arriving
      ensures exitBarrierTasks == old(exitBarrierTasks)
      ensures arriving.succs == old(arriving.succs) + [barrier.id] && arriving.id in barrier.preds
      ensures arriving.preds == old(arriving.preds) && arriving.end == arrivalTime
      ensures !old(Late(arriving.id.ctx)) ==>
                && Valid() && rounds == Step(all, old(rounds), Enter(arriving.id.ctx))
                && arrived == old(arrived) + [arrivalTime] && barrier == entryBarrierTask
                && if old(entryBarrierTask) == null then
                     && fresh(barrier) && barrier.id == Next(arriving.id) && barrier.preds == [arriving.id]
                     && barrier.start == arrivalTime && barrier.end == 0
                   else
                     && barrier == old(entryBarrierTask) && barrier.preds == old(entryBarrierTask.preds) + [arriving.id]
                     && barrier.start == Larger(arrivalTime, old(entryBarrierTask.start))
                     && barrier.end == old(entryBarrierTask.end)
      ensures old(Late(arriving.id.ctx)) ==>
                && barrier == exitBarrierTasks[0] && barrier.preds == old(exitBarrierTasks[0].preds) + [arriving.id]
                && barrier.succs == old(exitBarrierTasks[0].succs)
                && barrier.start == old(exitBarrierTasks[0].start) && barrier.end == old(exitBarrierTasks[0].end)
                && rounds == old(rounds) && entryBarrierTask == old(entryBarrierTask) && arrived == old(arrived)
    {
      var ebt := MissedExit(arriving.id.ctx);
      if ebt != null {
        barrier := ebt;
        JoinLate(barrier, arriving, arrivalTime);
      } else {
        barrier := EnterNext(arriving, arrivalTime);
      }
    }

    method JoinLate(barrier: GraphTask, arriving: GraphTask, arrivalTime: nat)
      requires barrier != arriving
      modifies barrier, arriving
      ensures arriving.succs == old(arriving.succs) + [barrier.id] && arriving.end == arrivalTime
      ensures arriving.preds == old(arriving.preds)
      ensures barrier.preds == old(barrier.preds) + [arriving.id] && barrier.succs == old(barrier.succs)
      ensures barrier.start == old(barrier.start) && barrier.end == old(barrier.end)
    {
      arriving.succs := arriving.succs + [barrier.id];
      barrier.preds := barrier.preds + [arriving.id];
      arriving.end := arrivalTime;
    }

    method EnterNext(arriving: GraphTask, arrivalTime: nat) returns (barrier: GraphTask)
      requires Valid() && arriving !in Repr() && CanStep(all, rounds, Enter(arriving.id.ctx))
      modifies this`rounds, this`arrived, this`entryBarrierTask, entryBarrierTask, arriving
      ensures Valid() && rounds == Step(all, old(rounds), Enter(arriving.id.ctx))
      ensures arriving.succs == old(arriving.succs) + [barrier.id] && arriving.id in barrier.preds
      ensures arriving.preds == old(arriving.preds) && arriving.end == arrivalTime
      ensures arrived == old(arrived) + [arrivalTime] && barrier == entryBarrierTask
      ensures if old(entryBarrierTask) == null then
                && fresh(barrier) && barrier.id == Next(arriving.id) && barrier.preds == [arriving.id]
                && barrier.start == arrivalTime && barrier.end == 0
              else
                && barrier == old(entryBarrierTask) && barrier.preds == old(entryBarrierTask.preds) + [arriving.id]
                && barrier.start == Larger(arrivalTime, old(entryBarrierTask.start))
                && barrier.end == old(entryBarrierTask.end)
    {
      barrier := EntryTask(arriving.id);
      Join(barrier, arriving, arrivalTime);
    }

    /** The arriving task becomes a predecessor of the entry barrier. */
    method Join(barrier: GraphTask, arriving: GraphTask, arrivalTime: nat)
      requires Open() && barrier == entryBarrierTask && arriving !in Repr()
      requires CanStep(all, rounds, Enter(arriving.id.ctx))
      modifies this`rounds, this`arrived, barrier, arriving
      ensures Valid() && rounds == Step(all, old(rounds), Enter(arriving.id.ctx))
      ensures arriving.succs == old(arriving.succs) + [barrier.id] && arriving.preds == old(arriving.preds)
      ensures arriving.end == arrivalTime && arrived == old(arrived) + [arrivalTime]
      ensures barrier.preds == old(barrier.preds) + [arriving.id] && barrier.end == old(barrier.end)
      ensures barrier.start == Larger(arrivalTime, old(barrier.start))
    {
      OneMore(barrier.preds, rounds.entered, arriving.id);
      Attach(barrier, arriving, arrivalTime);
      rounds := rounds.(entered := rounds.entered + {arriving.id.ctx});
      assert (arrived + [arrivalTime])[..|arrived|] == arrived;
      arrived := arrived + [arrivalTime];
    }

    /** The oldest exit barrier that the context has entered and not left, if there is one. */
    method OpenExit(cid: nat) returns (exitT: GraphTask?)
      requires Valid() && cid in all
      ensures exitT == if rounds.leaving && cid !in rounds.exited then exitBarrierTasks[0] else null
    {
      exitT := null;
      for k := 0 to |exitBarrierTasks|
        invariant exitT == null && (k > 0 ==> cid in rounds.exited)
      {
        var hasArrived := HasContext(exitBarrierTasks[k].preds, cid);
        if hasArrived {
          var hasExited := HasContext(exitBarrierTasks[k].succs, cid);
          if !hasExited { return exitBarrierTasks[k]; }
        }
      }
    }

    /** The barrier being left, or the one all have entered, which is left from now on. */
    method ExitTask(cid: nat, exitTime: nat) returns (exitT: GraphTask)
      requires Valid() && CanStep(all, rounds, Exit(cid))
      modifies this`entryBarrierTask, this`exitBarrierTasks, this`arrived, entryBarrierTask
      ensures exitT == old(if rounds.leaving then exitBarrierTasks[0] else entryBarrierTask)
      ensures exitBarrierTasks == [exitT] && entryBarrierTask == if rounds.leaving then old(entryBarrierTask) else null
      ensures OneEach(exitT.preds, all) && OneEach(exitT.succs, if rounds.leaving then rounds.exited else {})
      ensures exitT.end == if rounds.leaving then old(exitBarrierTasks[0].end) else exitTime
      ensures exitT.preds == old(exitT.preds) && exitT.succs == old(exitT.succs) && exitT.start == old(exitT.start)
      ensures if rounds.leaving then
                arrived == old(arrived) && (entryBarrierTask != null ==> unchanged(entryBarrierTask))
              else arrived == [] && exitT.start == Latest(old(arrived))
      ensures rounds.leaving ==> EntryOk(rounds.entered)
    {
      var open := OpenExit(cid);
      if open == null {
        var hasEntered := HasContext(entryBarrierTask.preds, cid);
        assert hasEntered;
        entryBarrierTask.end := exitTime;
        exitT := entryBarrierTask;
        exitBarrierTasks := exitBarrierTasks + [entryBarrierTask];
        entryBarrierTask, arrived := null, [];
      } else {
        exitT := open;
      }
    }

    /** The barrier task this context leaves; it is finished when one successor only is missing. */
    method OnExit(cid: nat, exitTime: nat) returns (exitT: GraphTask, finished: bool)
      requires Valid() && CanStep(all, rounds, Exit(cid))
      modifies this`entryBarrierTask, this`exitBarrierTasks, this`arrived, entryBarrierTask
      ensures finished <==> Finishes(all, rounds, Exit(cid))
      ensures exitT == old(if rounds.leaving then exitBarrierTasks[0] else entryBarrierTask)
      ensures exitBarrierTasks == (if finished then [] else [exitT])
      ensures entryBarrierTask == if rounds.leaving then old(entryBarrierTask) else null
      ensures rounds.leaving ==> EntryOk(rounds.entered)
      ensures exitT != entryBarrierTask
      ensures OneEach(exitT.preds, all) && OneEach(exitT.succs, if rounds.leaving then rounds.exited else {})
      ensures exitT.end == if rounds.leaving then old(exitBarrierTasks[0].end) else exitTime
      ensures exitT.preds == old(exitT.preds) && exitT.succs == old(exitT.succs) && exitT.start == old(exitT.start)
      ensures if rounds.leaving then
                arrived == old(arrived) && (entryBarrierTask != null ==> unchanged(entryBarrierTask))
              else arrived == [] && exitT.start == Latest(old(arrived))
    {
      exitT := ExitTask(cid, exitTime);
      finished := |exitT.preds| == 1 + |exitT.succs|;
      LastOne(all, if rounds.leaving then rounds.exited else {}, cid);
      assert exitBarrierTasks == [exitT];
      RemoveOnly(exitT);
      if finished { exitBarrierTasks := Remove(exitBarrierTasks, exitT); }
    }

    /** The next task of the leaving context, after both its last one and the barrier task. */
    method Continue(barrier: GraphTask, active: GraphTask, endTime: nat, ghost left: set<nat>)
      returns (continuation: GraphTask)
      requires barrier != active && OneEach(barrier.succs, left) && active.id.ctx !in left
      modifies barrier, active
      ensures fresh(continuation) && continuation.preds == [active.id, barrier.id]
      ensures continuation.id == if barrier.id.ctx == active.id.ctx then Next(barrier.id) else Next(active.id)
      ensures continuation.id.ctx == active.id.ctx && continuation.start == endTime
      ensures active.succs == old(active.succs) + [continuation.id]
      ensures barrier.succs == old(barrier.succs) + [continuation.id] && barrier.preds == old(barrier.preds)
      ensures barrier.start == old(barrier.start) && barrier.end == old(barrier.end)
      ensures active.preds == old(active.preds) && active.start == old(active.start) && active.end == old(active.end)
      ensures OneEach(barrier.succs, left + {active.id.ctx})
    {
      continuation := new GraphTask(Next(if barrier.id.ctx == active.id.ctx then barrier.id else active.id));
      active.succs := active.succs + [continuation.id];
      continuation.preds := [active.id, barrier.id];
      continuation.start := endTime;
      OneMore(barrier.succs, left, continuation.id);
      barrier.succs := barrier.succs + [continuation.id];
    }

    ghost function LeftBefore(): set<nat>
      reads this`rounds
    {
      if rounds.leaving then rounds.exited else {}
    }

    lemma Left(barrier: GraphTask)
      requires RoundsOk(all, rounds) && all != {} && EntryOk(rounds.entered) && barrier != entryBarrierTask
      requires exitBarrierTasks == (if rounds.leaving then [barrier] else [])
      requires rounds.leaving ==> OneEach(barrier.preds, all) && OneEach(barrier.succs, rounds.exited)
      ensures Valid()
    {
    }

    /** The successor that was missing is added, and the round moves on. */
    method LinkNext(barrier: GraphTask, active: GraphTask, endTime: nat, finished: bool)
      returns (continuation: GraphTask)
      requires RoundsOk(all, rounds) && all != {} && CanStep(all, rounds, Exit(active.id.ctx))
      requires finished <==> Finishes(all, rounds, Exit(active.id.ctx))
      requires barrier != entryBarrierTask && active != barrier && active != entryBarrierTask
      requires exitBarrierTasks == (if finished then [] else [barrier])
      requires EntryOk(if rounds.leaving then rounds.entered else {})
      requires OneEach(barrier.preds, all) && OneEach(barrier.succs, LeftBefore())
      modifies this`rounds, barrier, active
      ensures Valid() && rounds == Step(all, old(rounds), Exit(active.id.ctx))
      ensures OneEach(barrier.preds, all) && OneEach(barrier.succs, old(LeftBefore()) + {active.id.ctx})
      ensures fresh(continuation) && continuation.preds == [active.id, barrier.id] && continuation.start == endTime
      ensures active.succs == old(active.succs) + [continuation.id]
      ensures active.preds == old(active.preds) && active.start == old(active.start) && active.end == old(active.end)
      ensures barrier.succs == old(barrier.succs) + [continuation.id] && barrier.preds == old(barrier.preds)
      ensures barrier.start == old(barrier.start) && barrier.end == old(barrier.end)
      ensures continuation.id == if barrier.id.ctx == active.id.ctx then Next(barrier.id) else Next(active.id)
    {
      ghost var s := Step(all, rounds, Exit(active.id.ctx));
      StepOk(all, rounds, Exit(active.id.ctx));
      ExitCases(all, rounds, active.id.ctx);
      continuation := Continue(barrier, active, endTime, LeftBefore());
      rounds := s;
      Left(barrier);
    }

    /** Leaving a barrier; a round that is finished has every participant on both sides of its task. */
    method Leave(active: GraphTask, endTime: nat) returns (barrier: GraphTask, continuation: GraphTask, finished: bool)
      requires Valid() && active !in Repr() && CanStep(all, rounds, Exit(active.id.ctx))
      modifies this, Repr(), active
      ensures Valid() && rounds == Step(all, old(rounds), Exit(active.id.ctx))
      ensures barrier == old(if rounds.leaving then exitBarrierTasks[0] else entryBarrierTask)
      ensures finished <==> Finishes(all, old(rounds), Exit(active.id.ctx))
      ensures finished ==> OneEach(barrier.preds, all) && OneEach(barrier.succs, all)
      ensures fresh(continuation) && continuation.preds == [active.id, barrier.id] && continuation.start == endTime
      ensures active.succs == old(active.succs) + [continuation.id]
      ensures active.preds == old(active.preds) && active.start == old(active.start) && active.end == old(active.end)
      ensures barrier.succs == old(barrier.succs) + [continuation.id] && barrier.preds == old(barrier.preds)
      ensures continuation.id == if barrier.id.ctx == active.id.ctx then Next(barrier.id) else Next(active.id)
      ensures barrier.start == old(barrier.start)
      ensures if old(rounds.leaving) then barrier.end == old(barrier.end) && arrived == old(arrived)
              else barrier.end == endTime && arrived == [] && barrier.start == Latest(old(arrived))
    {
      barrier, finished := OnExit(active.id.ctx, endTime);
      continuation := LinkNext(barrier, active, endTime, finished);
    }
  }

  lemma LastOne(all: set<nat>, exited: set<nat>, c: nat)
    requires c in all && c !in exited && exited <= all
    ensures |all| == 1 + |exited| <==> exited + {c} == all
  {
    var rest := all - exited - {c};
    assert all == exited + {c} + rest && |all| == |exited| + 1 + |rest|;
  }

  lemma RemoveOnly(t: GraphTask)
    ensures Remove([t], t) == []
  {
    assert [t][1..] == [] && Remove([], t) == [];
  }

  function Remove(s: seq<GraphTask>, t: GraphTask): seq<GraphTask> {
    if s == [] then [] else (if s[0] == t then [] else [s[0]]) + Remove(s[1..], t)
  }
}
