/** The events of all contexts, taken from the trace file in an order that respects tickets, barrier
    numbers and the creation of contexts. */
module EventMerge {

  /** `Create(true)` is the event a created context starts with. */
  datatype Kind = Sync(ticket: nat) | BarrierEvent(num: nat) | Create(child: bool) | Plain

  /** `pos` is the event's place in the file. */
  datatype Event = Event(pos: nat, ctx: nat, kind: Kind)

  type Queues = map<nat, seq<Event>>

  /** Events of a context that is not ready yet, or a note that it is ready before its first event. */
  datatype Pending = Marker | Held(events: seq<Event>)

  datatype State = State(at: nat, queued: Queues, waiting: map<nat, Pending>, returned: seq<Event>, readied: set<nat>,
                         ticketNum: nat, barrierNum: nat, count: int)

  // ---------- well-formed traces ----------

  /** Tickets and barrier numbers are unique; a context's creation is its first event. */
  ghost predicate WellFormed(all: seq<Event>) {
    && (forall i :: 0 <= i < |all| ==> all[i].pos == i)
    && (forall i, j :: 0 <= i < j < |all| && all[i].kind.Sync? ==> all[i].kind != all[j].kind)
    && (forall i, j :: 0 <= i < j < |all| && all[i].kind.BarrierEvent? ==> all[i].kind != all[j].kind)
    && (forall i, j :: 0 <= i < j < |all| && all[i].ctx == all[j].ctx ==> all[j].kind != Create(true))
  }

  function Of(s: seq<Event>, c: nat): seq<Event> {
    if s == [] then [] else (if s[0].ctx == c then [s[0]] else []) + Of(s[1..], c)
  }

  lemma {:induction false} OfConcat(p: seq<Event>, q: seq<Event>, c: nat)
    ensures Of(p + q, c) == Of(p, c) + Of(q, c)
  {
    if p == [] {
      assert p + q == q;
    } else {
      assert (p + q)[1..] == p[1..] + q;
      OfConcat(p[1..], q, c);
    }
  }

  lemma OfOne(e: Event, c: nat)
    ensures Of([e], c) == if e.ctx == c then [e] else []
  {
    assert [e][1..] == [];
  }

  function Tickets(s: seq<Event>): seq<nat> {
    if s == [] then []
    else Tickets(s[..|s| - 1]) + if s[|s| - 1].kind.Sync? then [s[|s| - 1].kind.ticket] else []
  }

  function Barriers(s: seq<Event>): seq<nat> {
    if s == [] then []
    else Barriers(s[..|s| - 1]) + if s[|s| - 1].kind.BarrierEvent? then [s[|s| - 1].kind.num] else []
  }

  function Upto(n: nat): (r: seq<nat>)
    ensures |r| == n && forall i :: 0 <= i < n ==> r[i] == i
  {
    if n == 0 then [] else Upto(n - 1) + [n - 1]
  }

  // ---------- the invariant ----------

  function QueueOf(q: Queues, c: nat): seq<Event> { if c in q then q[c] else [] }

  function HeldOf(w: map<nat, Pending>, c: nat): seq<Event> { if c in w && w[c].Held? then w[c].events else [] }

  /** The events of context `c`: returned, then queued or held back, then still in the file. */
  ghost predicate InOrder(all: seq<Event>, s: State, c: nat)
    requires s.at <= |all|
  {
    Of(s.returned, c) + QueueOf(s.queued, c) + HeldOf(s.waiting, c) + Of(all[s.at..], c) == Of(all, c)
  }

  predicate Known(all: seq<Event>, at: nat, e: Event) { e.pos < at <= |all| && all[e.pos] == e }

  /** What is kept for context `c`: its own events, already read; held back only while it is not ready. */
  ghost predicate KeptOk(all: seq<Event>, s: State, c: nat) {
    && (c in s.queued ==> !(c in s.waiting && s.waiting[c].Held?))
    && (forall e :: e in QueueOf(s.queued, c) || e in HeldOf(s.waiting, c) ==> Known(all, s.at, e) && e.ctx == c)
    && (forall e :: e in QueueOf(s.queued, c) && e.kind == Create(true) ==> c in s.readied)
    && (c in s.waiting ==> (s.waiting[c].Marker? <==> c in s.readied))
    && (c in s.queued || HeldOf(s.waiting, c) != [] ==> exists i :: 0 <= i < s.at <= |all| && all[i].ctx == c)
    && (c in s.waiting && s.waiting[c].Held? ==> s.waiting[c].events != [])
    && (c in s.readied && c !in s.waiting ==> exists i :: 0 <= i < s.at <= |all| && all[i].ctx == c)
  }

  ghost predicate ReturnedOk(all: seq<Event>, s: State) {
    && (forall e :: e in s.returned ==> Known(all, s.at, e))
    && (forall e :: e in s.returned && e.kind == Create(true) ==> e.ctx in s.readied)
    && Tickets(s.returned) == Upto(s.ticketNum) && Barriers(s.returned) == Upto(s.barrierNum)
  }

  ghost predicate Ok(all: seq<Event>, s: State) {
    && WellFormed(all) && s.at <= |all| && ReturnedOk(all, s)
    && (forall c: nat {:trigger InOrder(all, s, c)} :: InOrder(all, s, c))
    && (forall c: nat {:trigger KeptOk(all, s, c)} :: KeptOk(all, s, c))
  }

  // ---------- returning an event ----------

  /** Event `e` may be returned: its number is the next, and its context is ready if it is a creation. */
  predicate MayReturn(s: State, e: Event) {
    match e.kind
    case Sync(ticket) => ticket == s.ticketNum
    case BarrierEvent(num) => num == s.barrierNum
    case Create(child) => child ==> e.ctx in s.readied
    case Plain => true
  }

  function Return(s: State, e: Event): State {
    s.(returned := s.returned + [e], ticketNum := s.ticketNum + (if e.kind.Sync? then 1 else 0),
       barrierNum := s.barrierNum + if e.kind.BarrierEvent? then 1 else 0)
  }

  lemma ReturnedMore(all: seq<Event>, s: State, e: Event, at: nat)
    requires ReturnedOk(all, s) && s.at <= at && Known(all, at, e) && MayReturn(s, e)
    ensures ReturnedOk(all, Return(s, e).(at := at))
  {
    var r := s.returned + [e];
    assert r[..|r| - 1] == s.returned;
  }

  /** The number of an event just read cannot be below the next one. */
  lemma NotBefore(all: seq<Event>, s: State)
    requires Ok(all, s) && s.at < |all|
    ensures var e := all[s.at];
            && (e.kind.Sync? ==> e.kind.ticket >= s.ticketNum) && (e.kind.BarrierEvent? ==> e.kind.num >= s.barrierNum)
  {
    var e := all[s.at];
    if e.kind.Sync? && e.kind.ticket < s.ticketNum {
      assert Upto(s.ticketNum)[e.kind.ticket] == e.kind.ticket;
      var r := TicketReturned(s.returned, e.kind.ticket);
    }
    if e.kind.BarrierEvent? && e.kind.num < s.barrierNum {
      assert Upto(s.barrierNum)[e.kind.num] == e.kind.num;
      var r := BarrierReturned(s.returned, e.kind.num);
    }
  }

  lemma {:induction false} TicketReturned(s: seq<Event>, t: nat) returns (r: Event)
    requires t in Tickets(s)
    ensures r in s && r.kind == Sync(t)
  {
    var e := s[|s| - 1];
    if e.kind == Sync(t) { r := e; } else { r := TicketReturned(s[..|s| - 1], t); }
  }

  lemma {:induction false} BarrierReturned(s: seq<Event>, t: nat) returns (r: Event)
    requires t in Barriers(s)
    ensures r in s && r.kind == BarrierEvent(t)
  {
    var e := s[|s| - 1];
    if e.kind == BarrierEvent(t) { r := e; } else { r := BarrierReturned(s[..|s| - 1], t); }
  }

  /** A state seen at one context. */
  ghost predicate At(all: seq<Event>, s: State, c: nat) {
    s.at <= |all| && InOrder(all, s, c) && KeptOk(all, s, c)
  }

  lemma OkAt(all: seq<Event>, s: State, c: nat)
    requires Ok(all, s)
    ensures At(all, s, c)
  {
    assert InOrder(all, s, c) && KeptOk(all, s, c);
  }

  function Popped(s: State, c: nat): State
    requires c in s.queued && s.queued[c] != []
  {
    Return(s, s.queued[c][0]).(queued := s.queued[c := s.queued[c][1..]], count := s.count - 1)
  }

  lemma PopInOrder(all: seq<Event>, s: State, c: nat, d: nat)
    requires c in s.queued && s.queued[c] != [] && s.queued[c][0].ctx == c && s.at <= |all| && InOrder(all, s, d)
    ensures InOrder(all, Popped(s, c), d)
  {
    var q := s.queued[c];
    OfConcat(s.returned, [q[0]], d);
    OfOne(q[0], d);
    if d == c {
      FrontMoved(Of(s.returned, d), q, HeldOf(s.waiting, d), Of(all[s.at..], d));
    } else {
      assert Of(s.returned, d) + [] == Of(s.returned, d);
    }
  }

  lemma FrontMoved(r: seq<Event>, q: seq<Event>, h: seq<Event>, x: seq<Event>)
    requires q != []
    ensures r + [q[0]] + q[1..] + h + x == r + q + h + x
  {
    assert [q[0]] + q[1..] == q;
    assert r + [q[0]] + q[1..] == r + ([q[0]] + q[1..]);
  }

  lemma PopKept(all: seq<Event>, s: State, c: nat, d: nat)
    requires c in s.queued && s.queued[c] != [] && KeptOk(all, s, d)
    ensures KeptOk(all, Popped(s, c), d)
  {
    assert forall e :: e in s.queued[c][1..] ==> e in s.queued[c];
  }

  /** The front of a queue is returned. */
  lemma PopOk(all: seq<Event>, s: State, c: nat)
    requires Ok(all, s) && c in s.queued && s.queued[c] != [] && MayReturn(s, s.queued[c][0])
    ensures Ok(all, Popped(s, c))
  {
    OkAt(all, s, c);
    assert s.queued[c][0] in QueueOf(s.queued, c);
    ReturnedMore(all, s, s.queued[c][0], s.at);
    forall d: nat ensures InOrder(all, Popped(s, c), d) && KeptOk(all, Popped(s, c), d) {
      OkAt(all, s, d);
      PopInOrder(all, s, c, d);
      PopKept(all, s, c, d);
    }
    assert ReturnedOk(all, Return(s, s.queued[c][0]).(at := s.at));
  }

  // ---------- reading an event ----------

  lemma ReadOf(all: seq<Event>, at: nat, c: nat)
    requires at < |all|
    ensures Of(all[at..], c) == (if all[at].ctx == c then [all[at]] else []) + Of(all[at + 1..], c)
  {
    assert all[at..][1..] == all[at + 1..];
  }

  /** What the event read leaves behind in a state where it has not yet got its place. */
  lemma KeptLater(all: seq<Event>, s: State, d: nat)
    requires At(all, s, d) && s.at < |all|
    ensures KeptOk(all, s.(at := s.at + 1), d)
  {
    if d in s.queued || HeldOf(s.waiting, d) != [] {
      var i :| 0 <= i < s.at <= |all| && all[i].ctx == d;
      assert 0 <= i < s.at + 1;
    }
    if d in s.readied && d !in s.waiting {
      var i :| 0 <= i < s.at <= |all| && all[i].ctx == d;
      assert 0 <= i < s.at + 1;
    }
  }

  function ReadReturned(all: seq<Event>, s: State, clear: bool): State
    requires s.at < |all|
  {
    Return(s, all[s.at]).(at := s.at + 1, waiting := if clear then s.waiting - {all[s.at].ctx} else s.waiting)
  }

  lemma ReturnInOrder(all: seq<Event>, s: State, clear: bool, d: nat)
    requires s.at < |all| && InOrder(all, s, d)
    requires all[s.at].ctx == d ==> d !in s.queued && HeldOf(s.waiting, d) == []
    ensures InOrder(all, ReadReturned(all, s, clear), d)
  {
    var e, s' := all[s.at], ReadReturned(all, s, clear);
    OfConcat(s.returned, [e], d);
    OfOne(e, d);
    ReadOf(all, s.at, d);
    assert QueueOf(s'.queued, d) == QueueOf(s.queued, d) && HeldOf(s'.waiting, d) == HeldOf(s.waiting, d);
    var r, x := Of(s.returned, d), Of(all[s.at + 1..], d);
    if d == e.ctx { Moved(r, e, x); } else { Skipped(r, QueueOf(s.queued, d), HeldOf(s.waiting, d), x); }
  }

  lemma Moved(r: seq<Event>, e: Event, x: seq<Event>)
    ensures r + [e] + [] + [] + x == r + [] + [] + ([e] + x)
  {
  }

  lemma Skipped(r: seq<Event>, q: seq<Event>, h: seq<Event>, x: seq<Event>)
    ensures r + [] + q + h + x == r + q + h + ([] + x)
  {
    assert r + [] == r && [] + x == x;
  }

  lemma ReturnKept(all: seq<Event>, s: State, clear: bool, d: nat)
    requires s.at < |all| && At(all, s, d)
    requires all[s.at].ctx == d ==> d !in s.queued && HeldOf(s.waiting, d) == []
    ensures KeptOk(all, ReadReturned(all, s, clear), d)
  {
    KeptLater(all, s, d);
  }

  /** The event read is returned; nothing of its context is kept. */
  lemma ReturnOk(all: seq<Event>, s: State, clear: bool)
    requires Ok(all, s) && s.at < |all| && MayReturn(s, all[s.at])
    requires all[s.at].ctx !in s.queued && HeldOf(s.waiting, all[s.at].ctx) == []
    ensures Ok(all, ReadReturned(all, s, clear))
  {
    ReturnedMore(all, s, all[s.at], s.at + 1);
    assert ReturnedOk(all, Return(s, all[s.at]).(at := s.at + 1));
    forall d: nat ensures InOrder(all, ReadReturned(all, s, clear), d) && KeptOk(all, ReadReturned(all, s, clear), d) {
      OkAt(all, s, d);
      ReturnInOrder(all, s, clear, d);
      ReturnKept(all, s, clear, d);
    }
  }

  function ReadQueued(all: seq<Event>, s: State): State
    requires s.at < |all|
  {
    var e := all[s.at];
    s.(at := s.at + 1, queued := s.queued[e.ctx := QueueOf(s.queued, e.ctx) + [e]], count := s.count + 1)
  }

  lemma Joined(r: seq<Event>, q: seq<Event>, e: Event, x: seq<Event>)
    ensures r + (q + [e]) + [] + x == r + q + [] + ([e] + x)
  {
  }

  lemma NotRead(r: seq<Event>, q: seq<Event>, h: seq<Event>, x: seq<Event>)
    ensures r + q + h + ([] + x) == r + q + h + x
  {
    assert [] + x == x;
  }

  lemma QueueInOrder(all: seq<Event>, s: State, d: nat)
    requires s.at < |all| && InOrder(all, s, d)
    requires all[s.at].ctx == d ==> HeldOf(s.waiting, d) == []
    ensures InOrder(all, ReadQueued(all, s), d)
  {
    var e, s' := all[s.at], ReadQueued(all, s);
    var r, q, x := Of(s.returned, d), QueueOf(s.queued, d), Of(all[s.at + 1..], d);
    ReadOf(all, s.at, d);
    assert HeldOf(s'.waiting, d) == HeldOf(s.waiting, d);
    if d == e.ctx {
      Joined(r, q, e, x);
      assert QueueOf(s'.queued, d) == q + [e];
    } else {
      NotRead(r, q, HeldOf(s.waiting, d), x);
      assert QueueOf(s'.queued, d) == q;
    }
  }

  lemma QueueKept(all: seq<Event>, s: State, d: nat)
    requires s.at < |all| && all[s.at].pos == s.at && At(all, s, d)
    requires all[s.at].ctx == d ==> HeldOf(s.waiting, d) == [] && all[s.at].kind != Create(true)
    ensures KeptOk(all, ReadQueued(all, s), d)
  {
    KeptLater(all, s, d);
  }

  /** The event read joins, or starts, the queue of its context. */
  lemma QueueOk(all: seq<Event>, s: State)
    requires Ok(all, s) && s.at < |all| && HeldOf(s.waiting, all[s.at].ctx) == [] && all[s.at].kind != Create(true)
    ensures Ok(all, ReadQueued(all, s))
  {
    forall d: nat ensures InOrder(all, ReadQueued(all, s), d) && KeptOk(all, ReadQueued(all, s), d) {
      OkAt(all, s, d);
      QueueInOrder(all, s, d);
      QueueKept(all, s, d);
    }
  }

  function ReadHeld(all: seq<Event>, s: State): State
    requires s.at < |all|
  {
    var e := all[s.at];
    s.(at := s.at + 1, waiting := s.waiting[e.ctx := Held(HeldOf(s.waiting, e.ctx) + [e])])
  }

  lemma Kept(r: seq<Event>, h: seq<Event>, e: Event, x: seq<Event>)
    ensures r + (h + [e]) + x == r + h + ([e] + x)
  {
  }

  lemma HoldInOrder(all: seq<Event>, s: State, d: nat)
    requires s.at < |all| && InOrder(all, s, d)
    ensures InOrder(all, ReadHeld(all, s), d)
  {
    var e, s' := all[s.at], ReadHeld(all, s);
    var r, h, x := Of(s.returned, d) + QueueOf(s.queued, d), HeldOf(s.waiting, d), Of(all[s.at + 1..], d);
    ReadOf(all, s.at, d);
    if d == e.ctx {
      Kept(r, h, e, x);
      assert HeldOf(s'.waiting, d) == h + [e];
    } else {
      NotRead(Of(s.returned, d), QueueOf(s.queued, d), h, x);
      assert HeldOf(s'.waiting, d) == h;
    }
  }

  lemma HoldKept(all: seq<Event>, s: State, d: nat)
    requires s.at < |all| && all[s.at].pos == s.at && At(all, s, d)
    requires all[s.at].ctx == d ==> d !in s.queued && d !in s.readied
    ensures KeptOk(all, ReadHeld(all, s), d)
  {
    KeptLater(all, s, d);
  }

  /** The event read is held back, its context not being ready. */
  lemma HoldOk(all: seq<Event>, s: State)
    requires Ok(all, s) && s.at < |all| && all[s.at].ctx !in s.queued && all[s.at].ctx !in s.readied
    ensures Ok(all, ReadHeld(all, s))
  {
    forall d: nat ensures InOrder(all, ReadHeld(all, s), d) && KeptOk(all, ReadHeld(all, s), d) {
      OkAt(all, s, d);
      HoldInOrder(all, s, d);
      HoldKept(all, s, d);
    }
  }

  // ---------- a context becomes ready ----------

  function MakeReady(s: State, c: nat): State {
    if c in s.waiting && s.waiting[c].Held? then
      s.(queued := s.queued[c := s.waiting[c].events], waiting := s.waiting - {c}, readied := s.readied + {c},
         count := s.count + |s.waiting[c].events|)
    else s.(waiting := s.waiting[c := Marker], readied := s.readied + {c})
  }

  lemma ReadyInOrder(all: seq<Event>, s: State, c: nat, d: nat)
    requires At(all, s, d)
    ensures InOrder(all, MakeReady(s, c), d)
  {
    var s' := MakeReady(s, c);
    var r, x := Of(s.returned, d), Of(all[s.at..], d);
    if d == c && d in s.waiting && s.waiting[d].Held? {
      NowQueued(r, HeldOf(s.waiting, d), x);
    } else {
      assert QueueOf(s'.queued, d) == QueueOf(s.queued, d) && HeldOf(s'.waiting, d) == HeldOf(s.waiting, d);
    }
  }

  lemma NowQueued(r: seq<Event>, h: seq<Event>, x: seq<Event>)
    ensures r + h + [] + x == r + [] + h + x
  {
    assert r + [] == r && r + h + [] == r + h;
  }

  lemma ReadyKept(all: seq<Event>, s: State, c: nat, d: nat)
    requires KeptOk(all, s, c) && KeptOk(all, s, d) && (c in s.waiting ==> s.waiting[c].Held?)
    ensures KeptOk(all, MakeReady(s, c), d)
  {
  }

  lemma ReadyOk(all: seq<Event>, s: State, c: nat)
    requires Ok(all, s) && (c in s.waiting ==> s.waiting[c].Held?)
    ensures Ok(all, MakeReady(s, c))
  {
    OkAt(all, s, c);
    forall d: nat ensures InOrder(all, MakeReady(s, c), d) && KeptOk(all, MakeReady(s, c), d) {
      OkAt(all, s, d);
      ReadyInOrder(all, s, c, d);
      ReadyKept(all, s, c, d);
    }
  }

  // ---------- what it guarantees ----------

  /** Each context's events read so far are returned, queued or held back, in file order, each once; the
      k-th sync returned has ticket k, the k-th barrier number k; no creation is returned before its
      context is ready. */
  lemma MergeSafe(all: seq<Event>, s: State)
    requires Ok(all, s)
    ensures forall c: nat :: Of(s.returned, c) + QueueOf(s.queued, c) + HeldOf(s.waiting, c) == Of(all[..s.at], c)
    ensures Tickets(s.returned) == Upto(s.ticketNum) && Barriers(s.returned) == Upto(s.barrierNum)
    ensures forall e :: e in s.returned && e.kind == Create(true) ==> e.ctx in s.readied
  {
    forall c: nat ensures Of(s.returned, c) + QueueOf(s.queued, c) + HeldOf(s.waiting, c) == Of(all[..s.at], c) {
      assert InOrder(all, s, c);
      assert all == all[..s.at] + all[s.at..];
      OfConcat(all[..s.at], all[s.at..], c);
      var kept := Of(s.returned, c) + QueueOf(s.queued, c) + HeldOf(s.waiting, c);
      SameStart(kept, Of(all[..s.at], c), Of(all[s.at..], c));
    }
  }

  lemma SameStart(a: seq<Event>, b: seq<Event>, x: seq<Event>)
    requires a + x == b + x
    ensures a == b
  {
    assert |a| == |b|;
    assert (a + x)[..|a|] == a && (b + x)[..|b|] == b;
  }

  // ---------- the count of queued events ----------

  ghost function Sum(m: Queues): nat {
    if m == map[] then 0
    else
      var k :| k in m;
      |m[k]| + Sum(m - {k})
  }

  lemma {:induction false} SumWithout(m: Queues, k: nat)
    requires k in m
    ensures Sum(m) == |m[k]| + Sum(m - {k})
    decreases |m|
  {
    var l :| l in m && Sum(m) == |m[l]| + Sum(m - {l});
    if l != k {
      SumWithout(m - {l}, k);
      SumWithout(m - {k}, l);
      assert m - {l} - {k} == m - {k} - {l};
    }
  }

  lemma SumPut(m: Queues, k: nat, q: seq<Event>)
    ensures Sum(m[k := q]) == Sum(m) - |QueueOf(m, k)| + |q|
  {
    SumWithout(m[k := q], k);
    assert m[k := q] - {k} == m - {k};
    if k in m { SumWithout(m, k); } else { assert m - {k} == m; }
  }

  // ---------- the merge ----------

  lemma DropOk(all: seq<Event>, s: State, c: nat)
    requires Ok(all, s) && c in s.queued && s.queued[c] == []
    ensures Ok(all, s.(queued := s.queued - {c})) && Sum(s.queued - {c}) == Sum(s.queued)
  {
    var s' := s.(queued := s.queued - {c});
    forall d: nat ensures InOrder(all, s', d) && KeptOk(all, s', d) { OkAt(all, s, d); }
    SumWithout(s.queued, c);
  }

  /** Syncs and barriers wait for their number; nothing else blocks a queue. */
  predicate Due(e: Event, ticket: nat, barrier: nat) {
    (e.kind.Sync? ==> e.kind.ticket == ticket) && (e.kind.BarrierEvent? ==> e.kind.num == barrier)
  }

  /** The queue of context `k` is empty or waits for a number. */
  predicate BlockedIn(q: Queues, k: nat, ticket: nat, barrier: nat)
    requires k in q
  {
    q[k] == [] || !Due(q[k][0], ticket, barrier)
  }
}
