/** A complete trace of which events are left over: the hint names the ticket of a later queue than the
    one whose turn it is. */
module MergeLoss {
  import opened Common
  import opened EventMerge
  import opened MergeScan
  import opened MergeEnd

  function Sync1(pos: nat, ctx: nat, ticket: nat): Event { Event(pos, ctx, Sync(ticket)) }

  /** Contexts 0, 1 and 2 with the tickets 5; 1, 3, 6 and an event without one; 0, 2, 4. */
  function Trace(): seq<Event> {
    [Sync1(0, 1, 1), Sync1(1, 1, 3), Event(2, 1, Plain), Sync1(3, 1, 6),
     Sync1(4, 0, 5), Sync1(5, 2, 0), Sync1(6, 2, 2), Sync1(7, 2, 4)]
  }

  // ---------- scans of the queues 0 and 1 ----------

  lemma LeastIs(s: set<nat>, k: nat)
    requires k in s && forall l :: l in s ==> k <= l
    ensures Least(s) == k
  {
  }

  /** Queue 0 is blocked; what the scan does at queue 1. */
  lemma ScanTwo(m: Merge, a: seq<Event>, b: seq<Event>)
    requires m.s.queued == map[0 := a, 1 := b] && m.cur == 0 && !Hinted(m)
    requires a != [] && a[0].kind.Sync? && a[0].kind.ticket != m.s.ticketNum
    ensures Scan(m, NoTicket) == Scan(m.(cur := 1), CurrMin(a[0], NoTicket))
  {
    assert Later(m.s.queued, 0) == {1};
    LeastIs({1}, 1);
  }

  /** Both queues are blocked: the hint is set to the lower ticket, or asked to be set. */
  lemma ScanLast(m: Merge, a: seq<Event>, b: seq<Event>, currMin: nat)
    requires m.s.queued == map[0 := a, 1 := b] && m.cur == 1 && !Hinted(m)
    requires b != [] && b[0].kind.Sync? && b[0].kind.ticket != m.s.ticketNum
    ensures Scan(m, currMin)
         == Step(None, m.(cur := 0, reset := !m.reset, min := if m.reset then CurrMin(b[0], currMin) else 0))
  {
    assert Later(m.s.queued, 1) == {};
    LeastIs(m.s.queued.Keys, 0);
  }

  lemma TakeLast(m: Merge, a: seq<Event>, b: seq<Event>, currMin: nat)
    requires m.s.queued == map[0 := a, 1 := b] && m.cur == 1 && !Hinted(m)
    requires b != [] && Due(b[0], m.s.ticketNum, m.s.barrierNum)
    ensures Scan(m, currMin) == Step(Some(b[0]), m.(s := Popped(m.s, 1), cur := if Numbered(b[0]) then 0 else 1))
  {
    LeastIs(Popped(m.s, 1).queued.Keys, 0);
  }

  // ---------- the seven calls ----------

  function P(i: nat): Event
    requires i < 8
  {
    Trace()[i]
  }

  /** The file is read up to `at`, queues 0 and 1 are `a` and `b`, `ret` was returned. */
  function M(at: nat, a: seq<Event>, b: seq<Event>, ret: seq<Event>, ticket: nat, cur: nat, min: nat, reset: bool)
    : Merge
  {
    Merge(State(at, map[0 := a, 1 := b], map[], ret, {}, ticket, 0, |a| + |b|), cur, min, reset)
  }

  /** No queue provides an event, and the one read from the file can be returned. */
  lemma GetReads(all: seq<Event>, m: Merge, next: Merge)
    requires Placed(m) && Scan(m, NoTicket) == Step(None, next) && next.s.at < |all|
    requires all[next.s.at].ctx !in next.s.queued && next.s.waiting == map[]
    requires all[next.s.at].kind == Sync(next.s.ticketNum)
    ensures Get(all, m) == Step(Some(all[next.s.at]), next.(s := ReadReturned(all, next.s, false)))
  {
    assert Skip(all, next) == next;
  }

  /** No queue provides an event, and the one read from the file has to wait. */
  lemma GetWaits(all: seq<Event>, m: Merge, next: Merge, read: Merge, placed: Merge)
    requires Placed(m) && Placed(placed) && Scan(m, NoTicket) == Step(None, next)
    requires Skip(all, next) == read && read.s.at < |all| && Place(all, read) == Step(None, placed)
    ensures Get(all, m) == Get(all, placed)
  {
    ScanReads(m, NoTicket);
  }

  lemma SkipOne(all: seq<Event>, m: Merge, e: Event, q: seq<Event>)
    requires m.s.at < |all| && all[m.s.at] == e && m.s.queued == map[e.ctx := q]
    ensures var s := m.s.(at := m.s.at + 1, queued := map[e.ctx := q + [e]], count := m.s.count + 1);
            Skip(all, m) == Skip(all, m.(s := s))
  {
    assert ReadQueued(all, m.s).queued == map[e.ctx := q + [e]];
  }

  function One(at: nat, q: seq<Event>, min: nat, reset: bool): Merge {
    Merge(State(at, map[1 := q], map[], [], {}, 0, 0, |q|), 1, min, reset)
  }

  lemma FirstQueued()
    ensures Get(Trace(), Start()) == Get(Trace(), One(1, [P(0)], 0, true))
  {
    var m := One(1, [P(0)], 0, true);
    LeastIs(m.s.queued.Keys, 1);
    assert QueueOf(map[], 1) + [P(0)] == [P(0)];
    assert ReadQueued(Trace(), Start().s).queued == m.s.queued;
    assert Place(Trace(), Start()) == Step(None, m);
    GetWaits(Trace(), Start(), Start(), Start(), m);
  }

  lemma Skipped()
    ensures Skip(Trace(), One(1, [P(0)], 1, false)) == One(4, [P(0), P(1), P(2), P(3)], 1, false)
  {
    SkipOne(Trace(), One(1, [P(0)], 1, false), P(1), [P(0)]);
    assert [P(0)] + [P(1)] == [P(0), P(1)];
    SkipOne(Trace(), One(2, [P(0), P(1)], 1, false), P(2), [P(0), P(1)]);
    assert [P(0), P(1)] + [P(2)] == [P(0), P(1), P(2)];
    SkipOne(Trace(), One(3, [P(0), P(1), P(2)], 1, false), P(3), [P(0), P(1), P(2)]);
    assert [P(0), P(1), P(2)] + [P(3)] == [P(0), P(1), P(2), P(3)];
  }

  lemma SecondQueued()
    ensures Get(Trace(), One(1, [P(0)], 0, true))
         == Get(Trace(), M(5, [P(4)], [P(0), P(1), P(2), P(3)], [], 0, 0, 0, true))
  {
    var m, found := One(1, [P(0)], 0, true), One(1, [P(0)], 1, false);
    assert Later(m.s.queued, 1) == {};
    LeastIs(m.s.queued.Keys, 1);
    assert Scan(m, NoTicket) == Step(None, found);
    Skipped();
    var read := One(4, [P(0), P(1), P(2), P(3)], 1, false);
    var placed := M(5, [P(4)], [P(0), P(1), P(2), P(3)], [], 0, 0, 0, true);
    assert QueueOf(read.s.queued, 0) + [P(4)] == [P(4)];
    assert ReadQueued(Trace(), read.s).queued == placed.s.queued;
    LeastIs(placed.s.queued.Keys, 0);
    assert Place(Trace(), read) == Step(None, placed);
    GetWaits(Trace(), m, found, read, placed);
  }

  /** The state after `n` calls of `getNextContechEvent`. */
  function After(n: nat): (m: Merge)
    ensures Placed(m)
  {
    var a := [P(4)];
    if n == 0 then Start()
    else if n == 1 then M(6, a, [P(0), P(1), P(2), P(3)], [P(5)], 1, 0, 1, false)
    else if n == 2 then M(6, a, [P(1), P(2), P(3)], [P(5), P(0)], 2, 0, 1, false)
    else if n == 3 then M(7, a, [P(1), P(2), P(3)], [P(5), P(0), P(6)], 3, 0, 0, true)
    else if n == 4 then M(7, a, [P(2), P(3)], [P(5), P(0), P(6), P(1)], 4, 0, 0, true)
    else if n == 5 then M(7, a, [P(3)], [P(5), P(0), P(6), P(1), P(2)], 4, 1, 0, true)
    else M(8, a, [P(3)], [P(5), P(0), P(6), P(1), P(2), P(7)], 5, 0, 6, false)
  }

  lemma Call1()
    ensures Get(Trace(), Start()).m == After(1)
  {
    FirstQueued();
    SecondQueued();
    var a, b := [P(4)], [P(0), P(1), P(2), P(3)];
    var m := M(5, a, b, [], 0, 0, 0, true);
    ScanTwo(m, a, b);
    ScanLast(m.(cur := 1), a, b, 5);
    GetReads(Trace(), m, M(5, a, b, [], 0, 0, 1, false));
  }

  /** Queue 1 provides the next event. */
  lemma Takes(all: seq<Event>, n: nat, a: seq<Event>, b: seq<Event>)
    requires n == 1 || n == 3 || n == 4
    requires After(n).s.queued == map[0 := a, 1 := b] && a == [P(4)] && b != []
    requires Due(b[0], After(n).s.ticketNum, 0)
    ensures Get(all, After(n)).m == After(n).(s := Popped(After(n).s, 1), cur := if Numbered(b[0]) then 0 else 1)
  {
    var m := After(n);
    ScanTwo(m, a, b);
    TakeLast(m.(cur := 1), a, b, 5);
  }

  lemma Call2(all: seq<Event>)
    ensures Get(all, After(1)).m == After(2)
  {
    Takes(all, 1, [P(4)], [P(0), P(1), P(2), P(3)]);
  }

  lemma Call4(all: seq<Event>)
    ensures Get(all, After(3)).m == After(4)
  {
    Takes(all, 3, [P(4)], [P(1), P(2), P(3)]);
  }

  lemma Call5(all: seq<Event>)
    ensures Get(all, After(4)).m == After(5)
  {
    Takes(all, 4, [P(4)], [P(2), P(3)]);
  }

  /** Both queues are blocked; ticket 2 is read. */
  lemma Call3()
    ensures Get(Trace(), After(2)).m == After(3)
  {
    var m, a, b := After(2), [P(4)], [P(1), P(2), P(3)];
    ScanTwo(m, a, b);
    ScanLast(m.(cur := 1), a, b, 5);
    GetReads(Trace(), m, m.(min := 0, reset := true));
  }

  /** The scan begins at queue 1 and takes its ticket 6 for the least. */
  lemma Call6()
    ensures Get(Trace(), After(5)).m == After(6)
  {
    var m := After(5);
    ScanLast(m, [P(4)], [P(3)], NoTicket);
    GetReads(Trace(), m, m.(cur := 0, min := 6, reset := false));
  }

  /** The states are those of repeated calls; from the seventh call on the file is read and the answer is
      none although ticket 5 is due: tickets 5 and 6 of this complete trace are never returned. */
  lemma TicketLost(all: seq<Event>, n: nat)
    requires all == Trace()
    ensures WellFormed(all) && Dense(all) && InTime(all, Times)
    ensures Get(all, After(n)).m == After(n + 1)
    ensures n >= 6 ==> After(n).s.at == |all| && DueAt(After(n), 0) && Get(all, After(n)).event == None
  {
    TraceComplete(all);
    TraceInTime(all);
    Call(all, n);
    StillDue(n);
  }

  lemma StillDue(n: nat)
    ensures n >= 6 ==> After(n).s.at == 8 && DueAt(After(n), 0)
  {
  }

  lemma Call(all: seq<Event>, n: nat)
    requires all == Trace()
    ensures Get(all, After(n)).m == After(n + 1)
    ensures n >= 6 ==> Get(all, After(n)).event == None
  {
    if n == 0 { Call1(); }
    else if n == 1 { Call2(all); }
    else if n == 2 { Call3(); }
    else if n == 3 { Call4(all); }
    else if n == 4 { Call5(all); }
    else if n == 5 { Call6(); }
    else { LastCall(all, n); }
  }

  lemma LastCall(all: seq<Event>, n: nat)
    requires |all| == 8 && n >= 6
    ensures Get(all, After(n)) == Step(None, After(n))
  {
    var m := After(n);
    assert Scan(m, NoTicket) == Step(None, m);
    assert Skip(all, m) == m;
  }

  /** Where the tickets are, and when the events happened. */
  const Where: seq<nat> := [5, 0, 6, 1, 7, 4, 3]
  const Times: seq<nat> := [1, 3, 4, 7, 6, 0, 2, 5]

  /** Event `i` seen by itself. */
  predicate EventAt(e: Event, i: nat)
    requires i < 8
  {
    && e.pos == i && e.ctx == (if i < 4 then 1 else if i == 4 then 0 else 2)
    && (e.kind == Plain || (e.kind.Sync? && e.kind.ticket < 7 && Where[e.kind.ticket] == i))
    && (e.kind.Sync? ==> Times[i] == if e.kind.ticket < 4 then e.kind.ticket else e.kind.ticket + 1)
  }

  lemma EventsAre(all: seq<Event>, i: nat)
    requires all == Trace() && i < 8
    ensures EventAt(all[i], i)
  {
  }

  lemma TraceComplete(all: seq<Event>)
    requires all == Trace()
    ensures WellFormed(all) && Dense(all)
  {
    forall i: nat | i < 8 ensures EventAt(all[i], i) { EventsAre(all, i); }
    assert forall t: nat :: t < 7 ==> Where[t] < 8 && all[Where[t]].kind == Sync(t);
    forall i, kind | 0 <= i < |all| && Before(kind, all[i].kind) ensures Has(all, kind) {
      assert all[Where[kind.ticket]].kind == kind;
    }
  }

  lemma TraceInTime(all: seq<Event>)
    requires all == Trace()
    ensures InTime(all, Times)
  {
    forall i: nat | i < 8 ensures EventAt(all[i], i) { EventsAre(all, i); }
    forall i: nat, j: nat | i < j < 8 && all[i].ctx == all[j].ctx ensures Times[i] < Times[j] {}
  }
}
