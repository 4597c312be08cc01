/** What the answer none means for a complete trace: everything was returned, or the hint lost events. */
module MergeEnd {
  import opened Common
  import opened EventMerge
  import opened MergeScan

  // ---------- complete traces ----------

  /** The same kind of number, and a lower one. */
  predicate Before(a: Kind, b: Kind) {
    || (a.Sync? && b.Sync? && a.ticket < b.ticket)
    || (a.BarrierEvent? && b.BarrierEvent? && a.num < b.num)
  }

  ghost predicate Has(all: seq<Event>, kind: Kind) { exists i :: 0 <= i < |all| && all[i].kind == kind }

  /** No number is missing. */
  ghost predicate Dense(all: seq<Event>) {
    forall i, kind :: 0 <= i < |all| && Before(kind, all[i].kind) ==> Has(all, kind)
  }

  /** Numbers were given out in time, and each context's events are in the file in time. */
  ghost predicate InTime(all: seq<Event>, time: seq<nat>) {
    && |time| == |all|
    && forall i, j :: 0 <= i < |all| && 0 <= j < |all| ==>
         (i < j && all[i].ctx == all[j].ctx) || Before(all[i].kind, all[j].kind) ==> time[i] < time[j]
  }

  predicate NoneHeld(s: State) { forall c :: c in s.waiting ==> s.waiting[c].Marker? }

  // ---------- each event in one place ----------

  ghost predicate Rising(s: seq<Event>) { forall i, j :: 0 <= i < j < |s| ==> s[i].pos < s[j].pos }

  lemma {:induction false} OfRising(s: seq<Event>, c: nat)
    requires Rising(s)
    ensures Rising(Of(s, c))
  {
    if s != [] {
      OfRising(s[1..], c);
      forall e | e in Of(s[1..], c) ensures s[0].pos < e.pos { OfIs(s[1..], c, e); }
    }
  }

  lemma {:induction false} OfIs(s: seq<Event>, c: nat, e: Event)
    ensures e in Of(s, c) <==> e in s && e.ctx == c
  {
    if s != [] {
      OfIs(s[1..], c, e);
      assert s == [s[0]] + s[1..];
    }
  }

  /** The events of a context up to the last one queued. */
  function Line(s: State, c: nat): seq<Event> { Of(s.returned, c) + QueueOf(s.queued, c) }

  lemma PrefixRising(a: seq<Event>, b: seq<Event>)
    requires Rising(a + b)
    ensures Rising(a)
  {
    forall i, j | 0 <= i < j < |a| ensures a[i].pos < a[j].pos {
      assert a[i] == (a + b)[i] && a[j] == (a + b)[j];
    }
  }

  lemma LineRising(all: seq<Event>, s: State, c: nat)
    requires Ok(all, s)
    ensures Rising(Line(s, c))
  {
    OkAt(all, s, c);
    OfRising(all, c);
    var h, x := HeldOf(s.waiting, c), Of(all[s.at..], c);
    Grouped(Line(s, c), h, x);
    PrefixRising(Line(s, c), h + x);
  }

  lemma Grouped(l: seq<Event>, h: seq<Event>, x: seq<Event>)
    ensures l + h + x == l + (h + x)
  {
  }

  lemma QueuedOnce(all: seq<Event>, s: State, c: nat, k: nat)
    requires Ok(all, s) && k < |QueueOf(s.queued, c)|
    ensures var e := QueueOf(s.queued, c)[k];
            e !in s.returned && Known(all, s.at, e) && QueueOf(s.queued, c)[0].pos <= e.pos && e.ctx == c
  {
    var q, r := QueueOf(s.queued, c), Of(s.returned, c);
    OkAt(all, s, c);
    assert q[k] in q;
    LineRising(all, s, c);
    assert Line(s, c)[|r|] == q[0] && Line(s, c)[|r| + k] == q[k];
    OfIs(s.returned, c, q[k]);
    forall i | 0 <= i < |r| ensures r[i] != q[k] { assert Line(s, c)[i] == r[i]; }
  }

  /** With the file read and nothing held back, an event was returned or is queued. */
  lemma Somewhere(all: seq<Event>, s: State, i: nat)
    requires Ok(all, s) && s.at == |all| && NoneHeld(s) && i < |all|
    ensures all[i] in s.returned || all[i] in QueueOf(s.queued, all[i].ctx)
  {
    var c := all[i].ctx;
    OkAt(all, s, c);
    OfIs(all, c, all[i]);
    OfIs(s.returned, c, all[i]);
    assert all[s.at..] == [] && HeldOf(s.waiting, c) == [];
    assert Line(s, c) + [] + [] == Line(s, c);
    assert Of(all, c) == Line(s, c);
  }

  // ---------- the number waited for ----------

  lemma {:induction false} NumberIn(s: seq<Event>, e: Event)
    requires e in s
    ensures (e.kind.Sync? ==> e.kind.ticket in Tickets(s)) && (e.kind.BarrierEvent? ==> e.kind.num in Barriers(s))
  {
    var n := |s| - 1;
    assert s == s[..n] + [s[n]];
    if e != s[n] { NumberIn(s[..n], e); }
  }

  function Next(s: State, kind: Kind): Kind
    requires kind.Sync? || kind.BarrierEvent?
  {
    if kind.Sync? then Sync(s.ticketNum) else BarrierEvent(s.barrierNum)
  }

  /** A queue that is blocked waits for a later number than the next one. */
  lemma WaitsForLater(all: seq<Event>, s: State, c: nat)
    requires Ok(all, s) && QueueOf(s.queued, c) != [] && !Due(QueueOf(s.queued, c)[0], s.ticketNum, s.barrierNum)
    ensures var e := QueueOf(s.queued, c)[0]; Before(Next(s, e.kind), e.kind)
  {
    var e := QueueOf(s.queued, c)[0];
    QueuedOnce(all, s, c, 0);
    if e.kind.Sync? && e.kind.ticket < s.ticketNum {
      assert Upto(s.ticketNum)[e.kind.ticket] == e.kind.ticket;
      var r := TicketReturned(s.returned, e.kind.ticket);
    }
    if e.kind.BarrierEvent? && e.kind.num < s.barrierNum {
      assert Upto(s.barrierNum)[e.kind.num] == e.kind.num;
      var r := BarrierReturned(s.returned, e.kind.num);
    }
  }

  /** The event with the next number is queued. */
  lemma NextQueued(all: seq<Event>, s: State, kind: Kind) returns (c: nat, k: nat)
    requires Ok(all, s) && s.at == |all| && NoneHeld(s) && (kind.Sync? || kind.BarrierEvent?)
    requires Has(all, Next(s, kind))
    ensures k < |QueueOf(s.queued, c)| && QueueOf(s.queued, c)[k].kind == Next(s, kind)
  {
    var i :| 0 <= i < |all| && all[i].kind == Next(s, kind);
    Somewhere(all, s, i);
    if all[i] in s.returned { NumberIn(s.returned, all[i]); }
    c := all[i].ctx;
    k :| 0 <= k < |QueueOf(s.queued, c)| && QueueOf(s.queued, c)[k] == all[i];
  }

  // ---------- nothing is left over ----------

  ghost predicate Ended(all: seq<Event>, m: Merge) {
    Good(all, m) && m.s.at == |all| && NoneHeld(m.s) && Settled(m)
  }

  lemma {:induction false} FrontsLate(all: seq<Event>, m: Merge, time: seq<nat>, n: nat, c: nat)
    requires Ended(all, m) && Dense(all) && InTime(all, time) && c in m.s.queued && m.s.queued[c] != []
    ensures m.s.queued[c][0].pos < |time| && time[m.s.queued[c][0].pos] >= n
    decreases n
  {
    var e := QueueOf(m.s.queued, c)[0];
    QueuedOnce(all, m.s, c, 0);
    if time[e.pos] < n {
      assert !DueAt(m, c);
      WaitsForLater(all, m.s, c);
      var d, k := NextQueued(all, m.s, e.kind);
      var f := QueueOf(m.s.queued, d)[k];
      QueuedOnce(all, m.s, d, k);
      QueuedOnce(all, m.s, d, 0);
      assert time[f.pos] < time[e.pos];
      FrontsLate(all, m, time, n - 1, d);
    }
  }

  /** A complete trace: when every queue is blocked at the end, all events were returned. */
  lemma NothingLeft(all: seq<Event>, m: Merge, time: seq<nat>)
    requires Ended(all, m) && Dense(all) && InTime(all, time)
    ensures m.s.queued == map[] && forall c: nat :: Of(m.s.returned, c) == Of(all, c)
  {
    if c: nat :| c in m.s.queued {
      assert m.s.queued[c] != [];
      QueuedOnce(all, m.s, c, 0);
      FrontsLate(all, m, time, time[m.s.queued[c][0].pos] + 1, c);
      assert false;
    }
    MergeSafe(all, m.s);
    assert all[..m.s.at] == all;
    forall c: nat ensures Of(m.s.returned, c) == Of(all, c) {
      assert HeldOf(m.s.waiting, c) == [] && QueueOf(m.s.queued, c) == [];
      assert Of(m.s.returned, c) + [] + [] == Of(m.s.returned, c);
    }
  }

  /** None, after a call that began with a full scan: all of a complete trace was returned. */
  lemma NoneComplete(all: seq<Event>, m: Merge, time: seq<nat>)
    requires Good(all, m) && Dense(all) && InTime(all, time) && (Fresh(m) || Settled(m))
    requires Get(all, m).event == None && NoneHeld(Get(all, m).m.s)
    ensures Get(all, m).m.s.queued == map[] && forall c: nat :: Of(Get(all, m).m.s.returned, c) == Of(all, c)
  {
    GetGood(all, m);
    NoneSettled(all, m);
    NothingLeft(all, Get(all, m).m, time);
  }
}
