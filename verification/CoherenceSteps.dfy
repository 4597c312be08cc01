/** Every step of the system keeps the invariant. */
module CoherenceSteps {
  import opened Common
  import opened Coherence
  import opened CoherenceView
  import opened CoherenceHome
  import opened CoherenceSystem

  // ---------- a message about the node's own line ----------

  predicate ToHome(c: Config, i: nat, sends: seq<Send>) {
    || sends == []
    || sends == [Send(c.home, Msg(i, InvalidateAck))]
    || sends == [Send(c.home, Msg(i, DataWriteBack))]
  }

  function After(hb: multiset<Msg>, sends: seq<Send>): multiset<Msg> {
    if sends == [] then hb else hb + multiset{sends[0].msg}
  }

  /** What handling `m` asks of the local cache. */
  function Orders(v: View, m: Msg): seq<CacheReq> {
    if m.typ.DataValueReply? || m.typ.DataValueReplyE? || m.typ.InvalidateOtherAck? then [CacheUpdate]
    else if v.line.Gone? then []
    else if m.typ.Invalidate? || m.typ.FetchInvalidate? then [CacheInvalidate]
    else if m.typ.Fetch? then [CacheFetch]
    else []
  }

  /** The node moved one step along its own view, and any reply it sent home is the token
      the view already counted. */
  ghost predicate Follows(c: Config, i: nat, st: Slice, m: Msg, hb: multiset<Msg>, o: Out) {
    && o.ok && ToHome(c, i, o.sends)
    && NowOf(o.st, i, After(hb, o.sends)) == Look1(c, i, NowOf(st, i, hb), m)
    && Requests(o.st.blocked) == Requests(st.blocked)
    && o.st.dir == st.dir && o.st.pending == st.pending
    && SlotOk(c, i, o.st)
    && o.cache == Orders(NowOf(st, i, hb), m)
  }

  ghost predicate Facing(c: Config, i: nat, st: Slice, m: Msg, hb: multiset<Msg>) {
    && SlotOk(c, i, st) && Queue(c, Requests(st.blocked))
    && !ForHome(m.typ) && Look1(c, i, NowOf(st, i, hb), m).ok
  }

  lemma OwnDemand(c: Config, i: nat, st: Slice, m: Msg, hb: multiset<Msg>)
    requires Facing(c, i, st, m, hb)
    requires m.typ.Invalidate? || m.typ.Fetch? || m.typ.FetchInvalidate?
    ensures Follows(c, i, st, m, hb, Receive(c, i, st, m))
  {
    if st.line != I {
      assert ([Blocked(m, true)] + st.blocked)[1..] == st.blocked;
    }
  }

  lemma OwnReply(c: Config, i: nat, st: Slice, m: Msg, hb: multiset<Msg>)
    requires Facing(c, i, st, m, hb)
    requires m.typ.DataValueReply? || m.typ.DataValueReplyE? || m.typ.InvalidateOtherAck? || m.typ.Rollback?
          || m.typ.CacheReadReply? || m.typ.CacheUpdateAck?
    ensures Follows(c, i, st, m, hb, Receive(c, i, st, m))
  {
  }

  lemma OwnCacheAck(c: Config, i: nat, st: Slice, m: Msg, hb: multiset<Msg>)
    requires Facing(c, i, st, m, hb)
    requires m.typ.CacheInvalidateAck? || m.typ.CacheFetchAck?
    ensures Follows(c, i, st, m, hb, Receive(c, i, st, m))
  {
    var q := st.blocked;
    assert Drain(c, i, st.(blocked := q[1..])).st == st.(blocked := q[1..]);
  }

  lemma OwnMessage(c: Config, i: nat, st: Slice, m: Msg, hb: multiset<Msg>)
    requires Facing(c, i, st, m, hb)
    ensures Follows(c, i, st, m, hb, Receive(c, i, st, m))
  {
    if m.typ.Invalidate? || m.typ.Fetch? || m.typ.FetchInvalidate? {
      OwnDemand(c, i, st, m, hb);
    } else if m.typ.CacheInvalidateAck? || m.typ.CacheFetchAck? {
      OwnCacheAck(c, i, st, m, hb);
    } else {
      OwnReply(c, i, st, m, hb);
    }
  }

  lemma Rebalance(i: nat, inbox: seq<Msg>, cacheQ: seq<CacheReq>, more: seq<CacheReq>, d: Demand, p: Phase,
                  d': Demand, p': Phase)
    requires inbox != [] && Balanced(i, inbox, cacheQ, d, p)
    requires forall r :: Owed(d', p', r) + (if inbox[0] == Msg(i, CacheAnswer(r)) then 1 else 0)
                         == Owed(d, p, r) + multiset(more)[r]
    ensures Balanced(i, inbox[1..], cacheQ + more, d', p')
  {
    assert inbox == [inbox[0]] + inbox[1..];
  }

  lemma OwedStep(c: Config, i: nat, v: View, m: Msg, r: CacheReq)
    requires v.ok && Look1(c, i, v, m).ok && !ForHome(m.typ)
    ensures var w := Look1(c, i, v, m);
            Owed(w.demand, w.phase, r) + (if m == Msg(i, CacheAnswer(r)) then 1 else 0)
            == Owed(v.demand, v.phase, r) + multiset(Orders(v, m))[r]
  {
  }

  lemma PhaseOkStep(c: Config, i: nat, v: View, m: Msg)
    requires PhaseOk(v) && Look1(c, i, v, m).ok
    ensures PhaseOk(Look1(c, i, v, m))
  {
  }

  /** The cache is asked, and its answers are used up, in step with what the node waits for. */
  lemma OwnBalance(c: Config, i: nat, x: Node, m: Msg, hb: multiset<Msg>, o: Out)
    requires NodeOk(c, i, x) && x.inbox != [] && m == x.inbox[0] && !ForHome(m.typ)
    requires Look1(c, i, NowOf(x.st, i, hb), m).ok && Follows(c, i, x.st, m, hb, o)
    ensures NodeOk(c, i, Node(o.st, x.inbox[1..], x.cacheQ + o.cache))
  {
    var v := NowOf(x.st, i, hb);
    var w := Look1(c, i, v, m);
    assert w.demand == DemandOf(o.st.blocked) && w.phase == o.st.phase && w.line == LineOf(o.st.line);
    forall r
      ensures Owed(w.demand, w.phase, r) + (if m == Msg(i, CacheAnswer(r)) then 1 else 0)
              == Owed(v.demand, v.phase, r) + multiset(o.cache)[r]
    {
      OwedStep(c, i, v, m, r);
    }
    Rebalance(i, x.inbox, x.cacheQ, o.cache, v.demand, v.phase, w.demand, w.phase);
    assert PhaseOk(v);
    PhaseOkStep(c, i, v, m);
  }

  /** Home's bag may change in ways its invariant does not look at. */
  lemma HomeInvBag(c: Config, dir: Option<Entry>, pending: Option<int>, q: seq<Blocked>, vs: Views,
                   hb: multiset<Msg>, hb': multiset<Msg>)
    requires HomeInv(c, dir, pending, q, vs, hb)
    requires forall j, t :: IsRequest(t) ==> hb'[Msg(j, t)] == hb[Msg(j, t)]
    requires forall p: nat :: p < c.n ==> hb[Msg(p, DataWriteBack)] <= hb'[Msg(p, DataWriteBack)] <= vs[p].wb
    ensures HomeInv(c, dir, pending, q, vs, hb')
  {
    OneEachSame(vs, vs, hb + Msgs(q), hb' + Msgs(q));
    if q == [] && OwnedStatus(DirLookup(dir)) {
      var p: nat :| p < |vs| && DirLookup(dir).mask == {p} && IdleOwner(vs, p, hb);
      assert IdleOwner(vs, p, hb');
    }
  }

  lemma WriteBacksCounted(c: Config, s: System, p: nat)
    requires c.home < |s| && p < |s| && ViewAt(c, s, p).ok
    ensures HomeBag(c, s)[Msg(p, DataWriteBack)] <= Now(c, s, p).wb <= ViewAt(c, s, p).wb
    ensures HomeBag(c, s)[Msg(p, InvalidateAck)] <= Now(c, s, p).ack <= ViewAt(c, s, p).ack
  {
    LookPresent(c, p, Now(c, s, p), s[p].inbox);
  }

  lemma WriteBacksBounded(c: Config, s: System)
    requires c.home < |s| && AllOk(ViewsOf(c, s))
    ensures forall p: nat :: p < |s| ==> HomeBag(c, s)[Msg(p, DataWriteBack)] <= ViewsOf(c, s)[p].wb
  {
    forall p: nat | p < |s| ensures HomeBag(c, s)[Msg(p, DataWriteBack)] <= ViewsOf(c, s)[p].wb {
      assert ViewOk(ViewsOf(c, s)[p]);
      WriteBacksCounted(c, s, p);
    }
  }

  /** System `t`: node `i` handled the head of its queue with outcome `o`. */
  ghost predicate Handled(c: Config, s: System, i: nat, o: Out, t: System) {
    && c.Valid() && |s| == c.n && i < c.n && s[i].inbox != [] && ToHome(c, i, o.sends)
    && t == Push(s[i := Node(o.st, s[i].inbox[1..], s[i].cacheQ + o.cache)], o.sends)
  }

  function Texts(sends: seq<Send>): seq<Msg> {
    if sends == [] then [] else [sends[0].msg]
  }

  lemma PushHome(c: Config, u: System, sends: seq<Send>)
    requires c.home < |u| && |sends| <= 1 && (sends != [] ==> sends[0].dst == c.home)
    ensures Push(u, sends) == u[c.home := u[c.home].(inbox := u[c.home].inbox + Texts(sends))]
  {
    if sends == [] {
      assert u[c.home].inbox + [] == u[c.home].inbox;
    } else {
      assert sends[1..] == [];
    }
  }

  lemma PushOne(u: System, x: Send)
    requires x.dst < |u|
    ensures Push(u, [x]) == u[x.dst := u[x.dst].(inbox := u[x.dst].inbox + [x.msg])]
  {
    assert [x][0] == x && [x][1..] == [];
  }

  lemma HandledInboxes(c: Config, s: System, i: nat, o: Out, t: System)
    requires Handled(c, s, i, o, t)
    ensures |t| == c.n
    ensures forall j :: 0 <= j < c.n ==>
              t[j].inbox == (if j == i then s[j].inbox[1..] else s[j].inbox)
                            + (if j == c.home then Texts(o.sends) else [])
    ensures forall j :: 0 <= j < c.n ==> t[j].st == if j == i then o.st else s[j].st
    ensures forall j :: 0 <= j < c.n ==> t[j].cacheQ == if j == i then s[j].cacheQ + o.cache else s[j].cacheQ
  {
    PushHome(c, s[i := Node(o.st, s[i].inbox[1..], s[i].cacheQ + o.cache)], o.sends);
  }

  lemma HandledBag(c: Config, s: System, i: nat, o: Out, t: System)
    requires Handled(c, s, i, o, t)
    ensures HomeBag(c, t) == (if i == c.home then HomeBag(c, s) - multiset{s[i].inbox[0]} else HomeBag(c, s))
                             + multiset(Texts(o.sends))
  {
    HandledInboxes(c, s, i, o, t);
    assert s[i].inbox == [s[i].inbox[0]] + s[i].inbox[1..];
  }

  predicate OwnStep(c: Config, s: System, i: nat, o: Out)
    requires c.home < |s| && i < |s|
  {
    && s[i].inbox != [] && !ForHome(s[i].inbox[0].typ)
    && Look(c, i, NowOf(o.st, i, After(HomeBag(c, s), o.sends)), s[i].inbox[1..]) == ViewAt(c, s, i)
  }

  lemma DeliverOwnNow(c: Config, s: System, t: System, i: nat, o: Out, j: nat)
    requires Handled(c, s, i, o, t) && j < c.n && !ForHome(s[i].inbox[0].typ)
    ensures |t| == c.n
    ensures Now(c, t, j) == if j == i then NowOf(o.st, i, After(HomeBag(c, s), o.sends)) else Now(c, s, j)
  {
    HandledInboxes(c, s, i, o, t);
    HandledBag(c, s, i, o, t);
    SameCounts(c, s, i, o, HomeBag(c, t), j, InvalidateAck);
    SameCounts(c, s, i, o, HomeBag(c, t), j, DataWriteBack);
  }

  lemma SameCounts(c: Config, s: System, i: nat, o: Out, hb': multiset<Msg>, j: nat, a: MsgType)
    requires c.home < |s| && i < |s| && s[i].inbox != [] && !ForHome(s[i].inbox[0].typ) && ForHome(a)
    requires ToHome(c, i, o.sends)
    requires hb' == (if i == c.home then HomeBag(c, s) - multiset{s[i].inbox[0]} else HomeBag(c, s))
                    + multiset(Texts(o.sends))
    ensures hb'[Msg(j, a)] == After(HomeBag(c, s), o.sends)[Msg(j, a)]
    ensures j != i ==> hb'[Msg(j, a)] == HomeBag(c, s)[Msg(j, a)]
  {
    assert s[i].inbox[0] != Msg(j, a);
  }

  lemma DeliverOwnView(c: Config, s: System, t: System, i: nat, o: Out, j: nat)
    requires Handled(c, s, i, o, t) && j < c.n && OwnStep(c, s, i, o)
    ensures |t| == c.n && ViewAt(c, t, j) == ViewAt(c, s, j)
  {
    DeliverOwnNow(c, s, t, i, o, j);
    var q := if j == i then s[j].inbox[1..] else s[j].inbox;
    assert t[j].inbox == q + (if j == c.home then Texts(o.sends) else []) by { HandledInboxes(c, s, i, o, t); }
    assert Look(c, j, Now(c, t, j), q) == ViewAt(c, s, j);
    if j == c.home {
      LookForHome(c, Now(c, t, j), q, Texts(o.sends));
    } else {
      assert q + [] == q;
    }
  }

  lemma SentHomeKeepsNode(c: Config, j: nat, x: Node, add: seq<Msg>)
    requires NodeOk(c, j, x) && (forall k :: 0 <= k < |add| ==> ForHome(add[k].typ))
    ensures NodeOk(c, j, x.(inbox := x.inbox + add))
  {
    forall r ensures multiset(x.inbox + add)[Msg(j, CacheAnswer(r))] == multiset(x.inbox)[Msg(j, CacheAnswer(r))] {
      assert Msg(j, CacheAnswer(r)) !in add;
    }
  }

  lemma DeliverOwnNodes(c: Config, s: System, i: nat, o: Out, t: System, j: nat)
    requires Handled(c, s, i, o, t) && j < c.n && !ForHome(s[i].inbox[0].typ)
    requires NodeOk(c, j, s[j]) && (j == i ==> NodeOk(c, i, Node(o.st, s[i].inbox[1..], s[i].cacheQ + o.cache)))
    ensures |t| == c.n && NodeOk(c, j, t[j])
  {
    HandledInboxes(c, s, i, o, t);
    var x := if j == i then Node(o.st, s[i].inbox[1..], s[i].cacheQ + o.cache) else s[j];
    var add := if j == c.home then Texts(o.sends) else [];
    SentHomeKeepsNode(c, j, x, add);
    assert t[j] == x.(inbox := x.inbox + add);
  }

  lemma OwnBags(c: Config, s: System, i: nat, o: Out, t: System)
    requires Inv(c, s) && Handled(c, s, i, o, t) && !ForHome(s[i].inbox[0].typ) && |t| == c.n
    ensures forall j, a :: IsRequest(a) ==> HomeBag(c, t)[Msg(j, a)] == HomeBag(c, s)[Msg(j, a)]
    ensures forall p: nat :: p < c.n ==> HomeBag(c, s)[Msg(p, DataWriteBack)] <= HomeBag(c, t)[Msg(p, DataWriteBack)]
  {
    HandledBag(c, s, i, o, t);
    var hb, hb', m := HomeBag(c, s), HomeBag(c, t), s[i].inbox[0];
    forall j, a | IsRequest(a) ensures hb'[Msg(j, a)] == hb[Msg(j, a)] {
      assert m != Msg(j, a);
    }
    forall p: nat | p < c.n ensures hb[Msg(p, DataWriteBack)] <= hb'[Msg(p, DataWriteBack)] {
      assert m != Msg(p, DataWriteBack);
    }
  }

  /** If the views stay, home's invariant stays: the tokens moved but their number did not. */
  lemma DeliverOwnHome(c: Config, s: System, i: nat, o: Out, t: System)
    requires Inv(c, s) && Handled(c, s, i, o, t) && !ForHome(s[i].inbox[0].typ)
    requires |t| == c.n && ViewsOf(c, t) == ViewsOf(c, s)
    requires Requests(o.st.blocked) == Requests(s[i].st.blocked) && o.st.dir == s[i].st.dir
    requires o.st.pending == s[i].st.pending
    ensures var h := t[c.home].st;
            HomeInv(c, h.dir, h.pending, Requests(h.blocked), ViewsOf(c, t), HomeBag(c, t))
  {
    OwnBags(c, s, i, o, t);
    HandledInboxes(c, s, i, o, t);
    var hb, hb', h := HomeBag(c, s), HomeBag(c, t), t[c.home].st;
    WriteBacksBounded(c, t);
    HomeInvBag(c, h.dir, h.pending, Requests(h.blocked), ViewsOf(c, s), hb, hb');
  }

  lemma DeliverOwnFollows(c: Config, s: System, i: nat)
    requires Inv(c, s) && i < c.n && s[i].inbox != [] && !ForHome(s[i].inbox[0].typ)
    ensures var m := s[i].inbox[0];
            Look1(c, i, Now(c, s, i), m).ok && Follows(c, i, s[i].st, m, HomeBag(c, s), Receive(c, i, s[i].st, m))
  {
    var m := s[i].inbox[0];
    assert ViewOk(ViewsOf(c, s)[i]);
    LookOk(c, i, Look1(c, i, Now(c, s, i), m), s[i].inbox[1..]);
    assert NodeOk(c, i, s[i]);
    OwnMessage(c, i, s[i].st, m, HomeBag(c, s));
  }

  lemma DeliverOwnViews(c: Config, s: System, i: nat, o: Out, t: System)
    requires Handled(c, s, i, o, t) && OwnStep(c, s, i, o)
    ensures |t| == c.n && ViewsOf(c, t) == ViewsOf(c, s)
  {
    HandledInboxes(c, s, i, o, t);
    forall j | 0 <= j < c.n ensures ViewAt(c, t, j) == ViewAt(c, s, j) {
      DeliverOwnView(c, s, t, i, o, j);
    }
  }

  lemma DeliverOwnSources(c: Config, s: System, i: nat, o: Out, t: System)
    requires Handled(c, s, i, o, t) && KnownSources(c, s[c.home].inbox)
    ensures |t| == c.n && KnownSources(c, t[c.home].inbox)
  {
    HandledInboxes(c, s, i, o, t);
  }

  lemma DeliverOwn(c: Config, s: System, i: nat, o: Out, t: System)
    requires Inv(c, s) && Handled(c, s, i, o, t) && !ForHome(s[i].inbox[0].typ)
    requires o == Receive(c, i, s[i].st, s[i].inbox[0])
    ensures Inv(c, t)
  {
    DeliverOwnFollows(c, s, i);
    assert NodeOk(c, i, s[i]);
    OwnBalance(c, i, s[i], s[i].inbox[0], HomeBag(c, s), o);
    DeliverOwnViews(c, s, i, o, t);
    DeliverOwnSources(c, s, i, o, t);
    DeliverOwnHome(c, s, i, o, t);
    forall j | 0 <= j < c.n ensures NodeOk(c, j, t[j]) {
      assert NodeOk(c, j, s[j]);
      DeliverOwnNodes(c, s, i, o, t, j);
    }
  }
}
