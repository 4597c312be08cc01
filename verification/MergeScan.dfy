/** How the next event is found: the scan of the queues with its hint, and reading on in the file.
    The hint can be wrong, so events can be left over; this module says when. */
module MergeScan {
  import opened Common
  import opened EventMerge

  /** `cur` is the current queue; `min` and `reset` are `minQueuedTicket` and `resetMinTicket`. */
  datatype Merge = Merge(s: State, cur: nat, min: nat, reset: bool)

  datatype Step = Step(event: Option<Event>, m: Merge)

  /** Nothing is read. */
  function Start(): Merge { Merge(State(0, map[], map[], [], {}, 0, 0, 0), 0, 0, false) }

  const NoTicket: nat := 0xFFFF_FFFF_FFFF_FFFF

  ghost function Least(s: set<nat>): (k: nat)
    requires s != {}
    ensures k in s && forall l :: l in s ==> k <= l
    decreases |s|
  {
    var k :| k in s;
    if s == {k} then k
    else
      var l := Least(s - {k});
      assert s == s - {k} + {k};
      if l < k then l else k
  }

  function Later(q: Queues, k: nat): set<nat> { set l | l in q && l > k }

  predicate Placed(m: Merge) { m.s.queued != map[] ==> m.cur in m.s.queued }

  /** The hint that no queue can provide an event. */
  predicate Hinted(m: Merge) { m.s.ticketNum < m.min && !m.reset }

  /** The current queue is the first. */
  ghost function Begin(m: Merge): (r: Merge)
    ensures Placed(r)
  {
    if m.s.queued == map[] then m else m.(cur := Least(m.s.queued.Keys))
  }

  ghost predicate AtFirst(m: Merge) { m == Begin(m) }

  // ---------- one turn of the scan ----------

  /** An empty queue is removed. */
  ghost function Drop(m: Merge): (r: Merge)
    requires m.cur in m.s.queued
    ensures Placed(r)
  {
    var q, later := m.s.queued, Later(m.s.queued, m.cur);
    var m' := m.(s := m.s.(queued := q - {m.cur}));
    if later != {} then m'.(cur := Least(later)) else Begin(m')
  }

  predicate Numbered(e: Event) { e.kind.Sync? || e.kind.BarrierEvent? }

  /** The front of the current queue is returned; after a number the scan begins again. */
  ghost function Pop(m: Merge): (r: Merge)
    requires m.cur in m.s.queued && m.s.queued[m.cur] != []
    ensures Placed(r)
  {
    var m' := m.(s := Popped(m.s, m.cur));
    if Numbered(m.s.queued[m.cur][0]) then Begin(m') else m'
  }

  function CurrMin(e: Event, currMin: nat): nat {
    if e.kind.Sync? && e.kind.ticket < currMin then e.kind.ticket else currMin
  }

  /** A blocked queue is passed over; at the end the hint is set, or asked to be set next time. */
  ghost function Pass(m: Merge, currMin: nat): (r: Merge)
    requires m.cur in m.s.queued && m.s.queued[m.cur] != []
    ensures Placed(r)
  {
    var e, later := m.s.queued[m.cur][0], Later(m.s.queued, m.cur);
    if later != {} then m.(cur := Least(later))
    else
      var min := if !e.kind.Sync? then m.min else if m.reset then CurrMin(e, currMin) else 0;
      Begin(m.(reset := !m.reset, min := min))
  }

  lemma LaterFewer(q: Queues, k: nat)
    requires Later(q, k) != {}
    ensures |Later(q, Least(Later(q, k)))| < |Later(q, k)|
  {
    var l := Least(Later(q, k));
    assert Later(q, l) + {l} <= Later(q, k);
    SubsetSize(Later(q, l) + {l}, Later(q, k));
  }

  lemma SubsetSize(a: set<nat>, b: set<nat>)
    requires a <= b
    ensures |a| <= |b|
  {
    assert b == a + (b - a);
  }

  /** The first loop of `getNextContechEvent`. */
  ghost function Scan(m: Merge, currMin: nat): (r: Step)
    requires Placed(m)
    ensures Placed(r.m)
    decreases |m.s.queued|, |Later(m.s.queued, m.cur)|
  {
    var q := m.s.queued;
    if q == map[] || Hinted(m) then Step(None, m)
    else if q[m.cur] == [] then Scan(Drop(m), currMin)
    else
      var e := q[m.cur][0];
      if Due(e, m.s.ticketNum, m.s.barrierNum) then Step(Some(e), Pop(m))
      else if Later(q, m.cur) == {} then Step(None, Pass(m, currMin))
      else
        LaterFewer(q, m.cur);
        Scan(Pass(m, currMin), CurrMin(e, currMin))
  }

  // ---------- reading on ----------

  /** Events of contexts that have a queue or are held back join the others. */
  function Skip(all: seq<Event>, m: Merge): (r: Merge)
    ensures r.s.at >= m.s.at && (Placed(m) ==> Placed(r))
    decreases |all| - m.s.at
  {
    if m.s.at >= |all| then m
    else
      var c := all[m.s.at].ctx;
      if c in m.s.queued then Skip(all, m.(s := ReadQueued(all, m.s)))
      else if c in m.s.waiting && m.s.waiting[c].Held? then Skip(all, m.(s := ReadHeld(all, m.s)))
      else m
  }

  /** The event has a number whose turn has not come. */
  predicate TooEarly(s: State, e: Event) {
    (e.kind.Sync? && e.kind.ticket > s.ticketNum) || (e.kind.BarrierEvent? && e.kind.num > s.barrierNum)
  }

  /** The event read is returned, or gets a place to wait in. */
  ghost function Place(all: seq<Event>, m: Merge): (r: Step)
    requires m.s.at < |all|
    ensures r.m.s.at == m.s.at + 1 && (Placed(m) ==> Placed(r.m))
  {
    var e := all[m.s.at];
    if e.kind == Create(true) then
      if e.ctx in m.s.waiting then Step(Some(e), m.(s := ReadReturned(all, m.s, true)))
      else Step(None, m.(s := ReadHeld(all, m.s)))
    else if TooEarly(m.s, e) then
      Step(None, Begin(m.(s := ReadQueued(all, m.s), reset := true, min := if e.kind.Sync? then 0 else m.min)))
    else Step(Some(e), m.(s := ReadReturned(all, m.s, false)))
  }

  lemma {:induction false} ScanReads(m: Merge, currMin: nat)
    requires Placed(m)
    ensures Scan(m, currMin).m.s.at == m.s.at
    decreases |m.s.queued|, |Later(m.s.queued, m.cur)|
  {
    var q := m.s.queued;
    if q != map[] && !Hinted(m) {
      if q[m.cur] == [] {
        ScanReads(Drop(m), currMin);
      } else if !Due(q[m.cur][0], m.s.ticketNum, m.s.barrierNum) && Later(q, m.cur) != {} {
        LaterFewer(q, m.cur);
        ScanReads(Pass(m, currMin), CurrMin(q[m.cur][0], currMin));
      }
    }
  }

  /** `getNextContechEvent`. */
  ghost function Get(all: seq<Event>, m: Merge): (r: Step)
    requires Placed(m)
    ensures Placed(r.m)
    decreases |all| - m.s.at
  {
    var found := Scan(m, NoTicket);
    if found.event.Some? then found
    else
      ScanReads(m, NoTicket);
      var read := Skip(all, found.m);
      if read.s.at >= |all| then Step(None, read)
      else
        var placed := Place(all, read);
        if placed.event.Some? then placed else Get(all, placed.m)
  }

  // ---------- nothing is lost on the way ----------

  ghost predicate Good(all: seq<Event>, m: Merge) {
    Ok(all, m.s) && m.s.count == Sum(m.s.queued) && Placed(m)
  }

  /** The event was returned, if any. */
  predicate Returns(m: Merge, r: Step) {
    && r.m.s.readied == m.s.readied
    && r.m.s.returned == m.s.returned + if r.event.Some? then [r.event.value] else []
  }

  lemma PopGood(all: seq<Event>, m: Merge)
    requires Good(all, m) && m.cur in m.s.queued && m.s.queued[m.cur] != []
    requires Due(m.s.queued[m.cur][0], m.s.ticketNum, m.s.barrierNum)
    ensures Good(all, Pop(m)) && Returns(m, Step(Some(m.s.queued[m.cur][0]), Pop(m)))
  {
    var e := m.s.queued[m.cur][0];
    OkAt(all, m.s, m.cur);
    assert e in QueueOf(m.s.queued, m.cur);
    PopOk(all, m.s, m.cur);
    SumPut(m.s.queued, m.cur, m.s.queued[m.cur][1..]);
  }

  lemma {:induction false} ScanGood(all: seq<Event>, m: Merge, currMin: nat)
    requires Good(all, m)
    ensures Good(all, Scan(m, currMin).m) && Returns(m, Scan(m, currMin))
    decreases |m.s.queued|, |Later(m.s.queued, m.cur)|
  {
    var q := m.s.queued;
    if q != map[] && !Hinted(m) {
      if q[m.cur] == [] {
        DropOk(all, m.s, m.cur);
        ScanGood(all, Drop(m), currMin);
      } else if Due(q[m.cur][0], m.s.ticketNum, m.s.barrierNum) {
        PopGood(all, m);
      } else if Later(q, m.cur) != {} {
        LaterFewer(q, m.cur);
        ScanGood(all, Pass(m, currMin), CurrMin(q[m.cur][0], currMin));
      }
    }
  }

  /** A context with a queue has been read from before, so this is not its creation. */
  lemma QueueGood(all: seq<Event>, m: Merge)
    requires Good(all, m) && m.s.at < |all| && HeldOf(m.s.waiting, all[m.s.at].ctx) == []
    requires all[m.s.at].kind != Create(true)
    ensures Ok(all, ReadQueued(all, m.s)) && ReadQueued(all, m.s).count == Sum(ReadQueued(all, m.s).queued)
  {
    var e := all[m.s.at];
    QueueOk(all, m.s);
    SumPut(m.s.queued, e.ctx, QueueOf(m.s.queued, e.ctx) + [e]);
  }

  lemma {:induction false} SkipGood(all: seq<Event>, m: Merge)
    requires Good(all, m)
    ensures Good(all, Skip(all, m)) && Returns(m, Step(None, Skip(all, m)))
    ensures var r := Skip(all, m).s;
            r.at < |all| ==> all[r.at].ctx !in r.queued && HeldOf(r.waiting, all[r.at].ctx) == []
    decreases |all| - m.s.at
  {
    if m.s.at < |all| {
      var e := all[m.s.at];
      OkAt(all, m.s, e.ctx);
      if e.ctx in m.s.queued {
        QueueGood(all, m);
        SkipGood(all, m.(s := ReadQueued(all, m.s)));
      } else if e.ctx in m.s.waiting && m.s.waiting[e.ctx].Held? {
        HoldOk(all, m.s);
        SkipGood(all, m.(s := ReadHeld(all, m.s)));
      }
    }
  }

  lemma PlaceGood(all: seq<Event>, m: Merge)
    requires Good(all, m) && m.s.at < |all|
    requires all[m.s.at].ctx !in m.s.queued && HeldOf(m.s.waiting, all[m.s.at].ctx) == []
    ensures Good(all, Place(all, m).m) && Returns(m, Place(all, m))
  {
    var e := all[m.s.at];
    OkAt(all, m.s, e.ctx);
    if e.kind == Create(true) {
      if e.ctx in m.s.waiting { ReturnOk(all, m.s, true); } else { HoldOk(all, m.s); }
    } else if TooEarly(m.s, e) {
      QueueGood(all, m);
    } else {
      NotBefore(all, m.s);
      ReturnOk(all, m.s, false);
    }
  }

  ghost predicate Kept(all: seq<Event>, m: Merge, r: Step) {
    Good(all, r.m) && Returns(m, r) && r.m.s.at >= m.s.at
  }

  lemma Then(all: seq<Event>, m: Merge, m': Merge, r: Step)
    requires Kept(all, m, Step(None, m')) && Kept(all, m', r)
    ensures Kept(all, m, r)
  {
    assert Returns(m, Step(None, m')) && Returns(m', r);
    assert m.s.returned + [] == m.s.returned;
  }

  /** Without the recursion: an event is found, or the end of the file, or an event read has its place. */
  lemma RoundGood(all: seq<Event>, m: Merge)
    requires Good(all, m)
    ensures var found, read := Scan(m, NoTicket), Skip(all, Scan(m, NoTicket).m);
            && Kept(all, m, found) && found.m.s.at == m.s.at
            && (found.event == None ==> Kept(all, m, Step(None, read)) && read.s.at <= |all|)
            && (found.event == None && read.s.at < |all| ==> Kept(all, m, Place(all, read)))
  {
    ScanGood(all, m, NoTicket);
    ScanReads(m, NoTicket);
    var found := Scan(m, NoTicket);
    SkipGood(all, found.m);
    var read := Skip(all, found.m);
    if found.event == None {
      Then(all, m, found.m, Step(None, read));
      if read.s.at < |all| {
        PlaceGood(all, read);
        Then(all, m, read, Place(all, read));
      }
    }
  }

  /** `getNextContechEvent` keeps what `MergeSafe` is about, returns one event or, at the end of the
      file, none. */
  lemma {:induction false} GetGood(all: seq<Event>, m: Merge)
    requires Good(all, m)
    ensures Kept(all, m, Get(all, m)) && (Get(all, m).event == None ==> Get(all, m).m.s.at == |all|)
    decreases |all| - m.s.at
  {
    RoundGood(all, m);
    var found := Scan(m, NoTicket);
    if found.event == None {
      var read := Skip(all, found.m);
      if read.s.at < |all| && Place(all, read).event == None {
        GetGood(all, Place(all, read).m);
        Then(all, m, Place(all, read).m, Get(all, m));
      }
    }
  }

  /** `readyEvents`: what was held back becomes a queue. */
  ghost function Ready(m: Merge, c: nat): Merge {
    var m' := m.(s := MakeReady(m.s, c));
    if c in m.s.waiting && m.s.waiting[c].Held? then Begin(m') else m'
  }

  lemma ReadyGood(all: seq<Event>, m: Merge, c: nat)
    requires Good(all, m) && (c in m.s.waiting ==> m.s.waiting[c].Held?)
    ensures Good(all, Ready(m, c))
  {
    OkAt(all, m.s, c);
    ReadyOk(all, m.s, c);
    if c in m.s.waiting { SumPut(m.s.queued, c, m.s.waiting[c].events); }
  }

  // ---------- what a scan finds ----------

  predicate DueAt(m: Merge, k: nat) {
    k in m.s.queued && !BlockedIn(m.s.queued, k, m.s.ticketNum, m.s.barrierNum)
  }

  /** Some queue from context `from` on can provide an event. */
  ghost predicate AnyDue(m: Merge, from: nat) { exists k :: k >= from && DueAt(m, k) }

  /** The last queue is empty: the scan then starts over at the first. */
  ghost predicate LastEmpty(q: Queues) { exists k :: k in q && Later(q, k) == {} && q[k] == [] }

  ghost predicate Finds(m: Merge) {
    !Hinted(m) && (AnyDue(m, m.cur) || (LastEmpty(m.s.queued) && AnyDue(m, 0)))
  }

  lemma NextOne(q: Queues, k: nat)
    requires Later(q, k) != {}
    ensures var l := Least(Later(q, k)); l in q && l > k && forall j :: j in q && j > k ==> j >= l
  {
    assert forall j :: j in q && j > k ==> j in Later(q, k);
  }

  /** Leaving out a queue that cannot provide an event loses nothing. */
  lemma DueLater(m: Merge, m': Merge)
    requires m.cur in m.s.queued && !DueAt(m, m.cur) && Later(m.s.queued, m.cur) != {}
    requires m'.cur == Least(Later(m.s.queued, m.cur))
    requires forall k :: k > m.cur ==> (DueAt(m', k) <==> DueAt(m, k))
    ensures AnyDue(m', m'.cur) <==> AnyDue(m, m.cur)
  {
    NextOne(m.s.queued, m.cur);
    if AnyDue(m', m'.cur) {
      var k :| k >= m'.cur && DueAt(m', k);
      assert DueAt(m, k);
    }
    if AnyDue(m, m.cur) {
      var k :| k >= m.cur && DueAt(m, k);
      assert DueAt(m', k);
    }
  }

  lemma DueLast(m: Merge)
    requires m.cur in m.s.queued && !DueAt(m, m.cur) && Later(m.s.queued, m.cur) == {}
    ensures !AnyDue(m, m.cur)
  {
    forall k: nat | k >= m.cur ensures !DueAt(m, k) {
      assert k in m.s.queued && k != m.cur ==> k in Later(m.s.queued, m.cur);
    }
  }

  /** The same queues are due. */
  lemma SameDue(m: Merge, m': Merge)
    requires forall k :: DueAt(m', k) <==> DueAt(m, k)
    ensures AnyDue(m', 0) <==> AnyDue(m, 0)
  {
    if AnyDue(m', 0) {
      var k :| k >= 0 && DueAt(m', k);
      assert DueAt(m, k);
    }
    if AnyDue(m, 0) {
      var k :| k >= 0 && DueAt(m, k);
      assert DueAt(m', k);
    }
  }

  lemma LastLeft(q: Queues, k: nat)
    requires k in q && Later(q, k) != {}
    ensures LastEmpty(q - {k}) <==> LastEmpty(q)
  {
    NextOne(q, k);
    forall l | l in q && l != k ensures Later(q - {k}, l) == {} <==> Later(q, l) == {} {
      assert Later(q - {k}, l) == Later(q, l) - {k};
      assert k in Later(q, l) ==> Least(Later(q, k)) in Later(q, l);
    }
    if LastEmpty(q) {
      var l :| l in q && Later(q, l) == {} && q[l] == [];
      assert l in q - {k} && Later(q - {k}, l) == {};
    }
    if LastEmpty(q - {k}) {
      var l :| l in q - {k} && Later(q - {k}, l) == {} && (q - {k})[l] == [];
      assert l in q && Later(q, l) == {};
    }
  }

  lemma DropDue(m: Merge)
    requires m.cur in m.s.queued && m.s.queued[m.cur] == [] && !Hinted(m)
    ensures AnyDue(Drop(m), 0) <==> AnyDue(m, 0)
    ensures Finds(Drop(m)) <==> Finds(m)
  {
    var q, m' := m.s.queued, Drop(m);
    assert forall k :: DueAt(m', k) <==> DueAt(m, k);
    SameDue(m, m');
    if Later(q, m.cur) == {} {
      DueLast(m);
      assert LastEmpty(q);
      FirstDue(m');
    } else {
      DueLater(m, m');
      LastLeft(q, m.cur);
    }
  }

  lemma FirstDue(m: Merge)
    requires AtFirst(m)
    ensures AnyDue(m, m.cur) <==> AnyDue(m, 0)
  {
    if AnyDue(m, m.cur) {
      var k :| k >= m.cur && DueAt(m, k);
      assert k >= 0;
    }
    if AnyDue(m, 0) {
      var k :| k >= 0 && DueAt(m, k);
      assert k in m.s.queued.Keys;
    }
  }

  lemma PassDue(m: Merge, currMin: nat)
    requires m.cur in m.s.queued && m.s.queued[m.cur] != [] && !DueAt(m, m.cur) && !Hinted(m)
    ensures AnyDue(Pass(m, currMin), 0) <==> AnyDue(m, 0)
    ensures if Later(m.s.queued, m.cur) != {} then Finds(Pass(m, currMin)) <==> Finds(m) else !Finds(m)
  {
    var q, m' := m.s.queued, Pass(m, currMin);
    assert forall k :: DueAt(m', k) <==> DueAt(m, k);
    SameDue(m, m');
    if Later(q, m.cur) != {} {
      DueLater(m, m');
    } else {
      DueLast(m);
      if LastEmpty(q) {
        var k :| k in q && Later(q, k) == {} && q[k] == [];
        assert k != m.cur;
        assert m.cur in Later(q, k) || k in Later(q, m.cur);
      }
    }
  }

  /** The scan finds an event exactly if the hint allows it and a queue from the current one on can
      provide one, or any queue when the last is empty; what it leaves is as due as before. */
  lemma {:induction false} ScanFinds(m: Merge, currMin: nat)
    requires Placed(m)
    ensures Scan(m, currMin).event.Some? <==> Finds(m)
    ensures Scan(m, currMin).event == None ==> (AnyDue(Scan(m, currMin).m, 0) <==> AnyDue(m, 0))
    decreases |m.s.queued|, |Later(m.s.queued, m.cur)|
  {
    var q := m.s.queued;
    if q != map[] && !Hinted(m) {
      if q[m.cur] == [] {
        DropDue(m);
        ScanFinds(Drop(m), currMin);
      } else if Due(q[m.cur][0], m.s.ticketNum, m.s.barrierNum) {
        assert DueAt(m, m.cur) && AnyDue(m, m.cur);
      } else {
        PassDue(m, currMin);
        if Later(q, m.cur) != {} {
          LaterFewer(q, m.cur);
          ScanFinds(Pass(m, currMin), CurrMin(q[m.cur][0], currMin));
        }
      }
    }
  }

  /** At the end of the file, none is returned although an event is due exactly if the hint says so, or
      the due queues are before the current one and the last queue is not empty. */
  lemma LeftOverIff(all: seq<Event>, m: Merge)
    requires Placed(m) && m.s.at == |all|
    ensures Get(all, m).event == None <==> !Finds(m)
    ensures Get(all, m).event == None && AnyDue(Get(all, m).m, 0) <==> AnyDue(m, 0) && !Finds(m)
  {
    ScanFinds(m, NoTicket);
    ScanReads(m, NoTicket);
  }

  // ---------- what the hint is ----------

  /** The tickets that the queues from context `from` on wait for. */
  function Waited(q: Queues, from: nat): set<nat> {
    set k | k in q && k >= from && q[k] != [] && q[k][0].kind.Sync? :: q[k][0].kind.ticket
  }

  /** `t` is the least of the tickets and of `bound`. */
  predicate LeastTicket(t: nat, tickets: set<nat>, bound: nat) {
    (t == bound || t in tickets) && t <= bound && forall x :: x in tickets ==> t <= x
  }

  ghost predicate LastIsSync(q: Queues) {
    exists k :: k in q && Later(q, k) == {} && q[k] != [] && q[k][0].kind.Sync?
  }

  ghost function SearchedFrom(m: Merge): nat { if LastEmpty(m.s.queued) then 0 else m.cur }

  /** A search that went through all queues. */
  ghost predicate HintSet(m: Merge, r: Merge, currMin: nat) {
    && r.reset == !m.reset
    && if !LastIsSync(r.s.queued) then r.min == m.min
       else if m.reset then LeastTicket(r.min, Waited(m.s.queued, SearchedFrom(m)), currMin)
       else r.min == 0
  }

  lemma DropSearched(m: Merge)
    requires m.cur in m.s.queued && m.s.queued[m.cur] == []
    requires Drop(m).s.queued != map[]
    ensures Waited(Drop(m).s.queued, SearchedFrom(Drop(m))) == Waited(m.s.queued, SearchedFrom(m))
  {
    var q, m' := m.s.queued, Drop(m);
    assert m'.s.queued == q - {m.cur};
    if Later(q, m.cur) == {} {
      assert LastEmpty(q);
      assert forall k :: k in m'.s.queued.Keys ==> k >= SearchedFrom(m');
    } else {
      LastLeft(q, m.cur);
      NextOne(q, m.cur);
      assert forall k :: k in q && k != m.cur ==> (k >= SearchedFrom(m') <==> k >= SearchedFrom(m));
    }
    SameWaited(q, SearchedFrom(m), m'.s.queued, SearchedFrom(m'));
  }

  lemma SameWaited(q: Queues, from: nat, q': Queues, from': nat)
    requires forall k :: k in q' ==> k in q && q'[k] == q[k]
    requires forall k :: k in q && q[k] != [] ==> k in q'
    requires forall k :: k in q' ==> (k >= from <==> k >= from')
    ensures Waited(q, from) == Waited(q', from')
  {
  }

  lemma OneLast(q: Queues, k: nat)
    requires k in q && Later(q, k) == {} && q[k] != []
    ensures !LastEmpty(q) && (LastIsSync(q) <==> q[k][0].kind.Sync?)
    ensures Waited(q, k) == if q[k][0].kind.Sync? then {q[k][0].kind.ticket} else {}
  {
    forall l | l in q && (Later(q, l) == {} || l >= k) ensures l == k {
      assert k in Later(q, l) || l in Later(q, k) || l == k;
    }
  }

  lemma PassSearched(q: Queues, k: nat)
    requires k in q && q[k] != [] && Later(q, k) != {}
    ensures Waited(q, k) == (if q[k][0].kind.Sync? then {q[k][0].kind.ticket} else {}) + Waited(q, Least(Later(q, k)))
  {
    NextOne(q, k);
    assert forall l :: l in q && l >= k ==> l == k || l >= Least(Later(q, k));
  }

  lemma HintPassed(m: Merge, r: Merge, currMin: nat)
    requires m.cur in m.s.queued && m.s.queued[m.cur] != [] && Later(m.s.queued, m.cur) != {}
    requires HintSet(Pass(m, currMin), r, CurrMin(m.s.queued[m.cur][0], currMin))
    ensures HintSet(m, r, currMin)
  {
    PassSearched(m.s.queued, m.cur);
    var e := m.s.queued[m.cur][0];
    assert e.kind.Sync? ==> e.kind.ticket in Waited(m.s.queued, SearchedFrom(m));
  }

  /** The hint is changed by a search through all queues only.  Every second such search, if the last queue
      waits for a ticket, sets it to the least ticket waited for among the queues searched, and the other
      searches switch it off. */
  lemma {:induction false} HintIs(m: Merge, currMin: nat)
    requires Placed(m)
    ensures var r := Scan(m, currMin);
            if r.event == None && !Hinted(m) && r.m.s.queued != map[] then HintSet(m, r.m, currMin)
            else r.m.min == m.min && r.m.reset == m.reset
    decreases |m.s.queued|, |Later(m.s.queued, m.cur)|
  {
    var q := m.s.queued;
    if q != map[] && !Hinted(m) {
      if q[m.cur] == [] {
        HintIs(Drop(m), currMin);
        if Drop(m).s.queued != map[] { DropSearched(m); }
      } else if !Due(q[m.cur][0], m.s.ticketNum, m.s.barrierNum) {
        if Later(q, m.cur) == {} {
          OneLast(q, m.cur);
        } else {
          LaterFewer(q, m.cur);
          var e := q[m.cur][0];
          HintIs(Pass(m, currMin), CurrMin(e, currMin));
          var r := Scan(m, currMin);
          if r.event == None && r.m.s.queued != map[] { HintPassed(m, r.m, currMin); }
        }
      }
    }
  }

  // ---------- when the answer none can be relied on ----------

  /** Every queue waits for a number whose turn has not come. */
  predicate Settled(m: Merge) {
    Placed(m) && forall k :: k in m.s.queued ==> m.s.queued[k] != [] && !DueAt(m, k)
  }

  /** The scan begins at the first queue and the hint does not stop it. */
  ghost predicate Fresh(m: Merge) { !Hinted(m) && AtFirst(m) }

  /** The queues before the current one are blocked. */
  predicate Behind(m: Merge) {
    forall k :: k in m.s.queued && k < m.cur ==> m.s.queued[k] != [] && !DueAt(m, k)
  }

  lemma DropBehind(m: Merge)
    requires m.cur in m.s.queued && m.s.queued[m.cur] == [] && Behind(m)
    ensures Behind(Drop(m)) && (Hinted(Drop(m)) <==> Hinted(m))
  {
    var q, m' := m.s.queued, Drop(m);
    if Later(q, m.cur) == {} {
      FirstBehind(m');
    } else {
      NextOne(q, m.cur);
      forall k | k in q && k < m.cur ensures q[k] != [] && !DueAt(m', k) { assert !DueAt(m, k); }
    }
  }

  lemma PassBehind(m: Merge, currMin: nat)
    requires m.cur in m.s.queued && m.s.queued[m.cur] != [] && !DueAt(m, m.cur) && Behind(m)
    ensures if Later(m.s.queued, m.cur) != {} then
              Behind(Pass(m, currMin)) && (Hinted(Pass(m, currMin)) <==> Hinted(m))
            else Settled(Pass(m, currMin))
  {
    var q, m' := m.s.queued, Pass(m, currMin);
    forall k | k in q && k <= m.cur ensures q[k] != [] && !DueAt(m', k) {
      assert !DueAt(m, k);
    }
    if Later(q, m.cur) != {} {
      NextOne(q, m.cur);
    } else {
      assert forall k :: k in Later(q, m.cur) <==> k in q && k > m.cur;
    }
  }

  lemma {:induction false} ScanSettles(m: Merge, currMin: nat)
    requires Placed(m) && !Hinted(m) && Behind(m) && Scan(m, currMin).event == None
    ensures Settled(Scan(m, currMin).m)
    decreases |m.s.queued|, |Later(m.s.queued, m.cur)|
  {
    var q := m.s.queued;
    if q != map[] {
      if q[m.cur] == [] {
        DropBehind(m);
        ScanSettles(Drop(m), currMin);
      } else {
        PassBehind(m, currMin);
        if Later(q, m.cur) != {} {
          LaterFewer(q, m.cur);
          ScanSettles(Pass(m, currMin), CurrMin(q[m.cur][0], currMin));
        }
      }
    }
  }

  lemma {:induction false} ScanSettled(m: Merge, currMin: nat)
    requires Settled(m)
    ensures Scan(m, currMin).event == None && Settled(Scan(m, currMin).m)
    decreases |Later(m.s.queued, m.cur)|
  {
    var q := m.s.queued;
    if q != map[] && !Hinted(m) {
      assert q[m.cur] != [] && !DueAt(m, m.cur);
      var m' := Pass(m, currMin);
      forall k | k in q ensures q[k] != [] && !DueAt(m', k) { assert !DueAt(m, k); }
      if Later(q, m.cur) != {} {
        LaterFewer(q, m.cur);
        ScanSettled(m', CurrMin(q[m.cur][0], currMin));
      }
    }
  }

  lemma {:induction false} SkipSettled(all: seq<Event>, m: Merge)
    requires Settled(m)
    ensures Settled(Skip(all, m))
    decreases |all| - m.s.at
  {
    if m.s.at < |all| {
      var c := all[m.s.at].ctx;
      if c in m.s.queued {
        var m' := m.(s := ReadQueued(all, m.s));
        forall k | k in m'.s.queued ensures m'.s.queued[k] != [] && !DueAt(m', k) {
          assert m.s.queued[k] != [] && !DueAt(m, k);
          assert m'.s.queued[k][0] == m.s.queued[k][0];
        }
        SkipSettled(all, m');
      } else if c in m.s.waiting && m.s.waiting[c].Held? {
        var m' := m.(s := ReadHeld(all, m.s));
        assert forall k :: DueAt(m', k) <==> DueAt(m, k);
        SkipSettled(all, m');
      }
    }
  }

  /** An event put back makes the next scan a full one; one held back changes no queue. */
  lemma PlaceSettled(all: seq<Event>, m: Merge)
    requires Settled(m) && m.s.at < |all| && Place(all, m).event == None
    ensures Fresh(Place(all, m).m) || Settled(Place(all, m).m)
  {
    var m' := Place(all, m).m;
    if all[m.s.at].kind == Create(true) {
      assert forall k :: DueAt(m', k) <==> DueAt(m, k);
    }
  }

  /** A call that starts with a full scan, or with every queue blocked, returns none only when every
      queue is blocked. */
  lemma {:induction false} NoneSettled(all: seq<Event>, m: Merge)
    requires Placed(m) && (Fresh(m) || Settled(m)) && Get(all, m).event == None
    ensures Settled(Get(all, m).m)
    decreases |all| - m.s.at
  {
    ScanReads(m, NoTicket);
    if Settled(m) { ScanSettled(m, NoTicket); } else { FirstBehind(m); ScanSettles(m, NoTicket); }
    var found := Scan(m, NoTicket);
    SkipSettled(all, found.m);
    var read := Skip(all, found.m);
    if read.s.at < |all| {
      PlaceSettled(all, read);
      NoneSettled(all, Place(all, read).m);
    }
  }

  lemma FirstBehind(m: Merge)
    requires AtFirst(m)
    ensures Behind(m)
  {
    forall k | k in m.s.queued ensures k >= m.cur { assert k in m.s.queued.Keys; }
  }
}
