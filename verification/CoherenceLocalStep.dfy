/** Steps of a node's cache and processor: an answer of the cache, a new operation, an eviction. */
module CoherenceLocalStep {
  import opened Common
  import opened Coherence
  import opened CoherenceView
  import opened CoherenceHome
  import opened CoherenceSystem
  import opened CoherenceSteps

  /** One view changed in a way home's invariant does not depend on. */
  predicate Neutral(v: View, w: View) {
    && w.line == v.line && w.wb == v.wb && w.ack == v.ack && ViewOk(w)
    && (w.phase == v.phase || (!w.phase.Asks() && !v.phase.Asks()))
  }

  predicate OnlyAt(vs: Views, ws: Views, i: nat) {
    |vs| == |ws| && i < |vs| && ws == vs[i := ws[i]]
  }

  lemma CoreNeutral(c: Config, dir: Option<Entry>, pending: Option<int>, q: seq<Blocked>, vs: Views, ws: Views,
                    i: nat, hb: multiset<Msg>, hb': multiset<Msg>)
    requires Core(c, dir, pending, q, vs, hb) && OnlyAt(vs, ws, i)
    requires vs[i].line == ws[i].line && vs[i].wb == ws[i].wb && vs[i].ack == ws[i].ack
    requires forall p :: hb'[Msg(p, DataWriteBack)] == hb[Msg(p, DataWriteBack)]
    ensures Core(c, dir, pending, q, ws, hb')
  {
    assert Acking(ws) == Acking(vs);
    if OwnedStatus(DirLookup(dir)) {
      if q == [] {
        var p: nat :| p < |vs| && DirLookup(dir).mask == {p} && IdleOwner(vs, p, hb);
        assert IdleOwner(ws, p, hb');
      } else {
        var p: nat :| p < |vs| && DirLookup(dir).mask == {p} && BusyOwner(vs, p, q[0].msg);
        assert BusyOwner(ws, p, q[0].msg);
      }
    }
  }

  lemma HomeInvNeutral(c: Config, dir: Option<Entry>, pending: Option<int>, q: seq<Blocked>, vs: Views, ws: Views,
                       i: nat, hb: multiset<Msg>)
    requires HomeInv(c, dir, pending, q, vs, hb) && OnlyAt(vs, ws, i) && Neutral(vs[i], ws[i])
    ensures HomeInv(c, dir, pending, q, ws, hb)
  {
    CoreNeutral(c, dir, pending, q, vs, ws, i, hb, hb);
    forall j: nat, t | j < |ws| && IsRequest(t)
      ensures (hb + Msgs(q))[Msg(j, t)] == if ws[j].phase == AskOf(t) then 1 else 0 {
    }
  }

  /** The node lost its line before the messages on their way reach it. */
  lemma HomeInvEvicted(c: Config, dir: Option<Entry>, pending: Option<int>, q: seq<Blocked>, vs: Views, ws: Views,
                       i: nat, hb: multiset<Msg>, hb': multiset<Msg>)
    requires HomeInv(c, dir, pending, q, vs, hb) && OnlyAt(vs, ws, i) && ViewOk(ws[i])
    requires ws[i].phase == vs[i].phase && ws[i].ack == vs[i].ack && ws[i].line.Gone? && !vs[i].line.Gone?
    requires ws[i].wb == vs[i].wb + if vs[i].line.Owned? then 1 else 0
    requires forall j, t :: IsRequest(t) ==> hb'[Msg(j, t)] == hb[Msg(j, t)]
    requires vs[i].line.Owned? ==> 1 <= hb'[Msg(i, DataWriteBack)] <= ws[i].wb
    ensures HomeInv(c, dir, pending, q, ws, hb')
  {
    assert SamePhase(vs, ws);
    OneEachSame(vs, ws, hb + Msgs(q), hb' + Msgs(q));
    assert Acking(ws) == Acking(vs);
    if OwnedStatus(DirLookup(dir)) {
      if q == [] {
        var p: nat :| p < |vs| && DirLookup(dir).mask == {p} && IdleOwner(vs, p, hb);
        assert p == i && IdleOwner(ws, p, hb');
      } else {
        var p: nat :| p < |vs| && DirLookup(dir).mask == {p} && BusyOwner(vs, p, q[0].msg);
        assert p == i && BusyOwner(ws, p, q[0].msg);
      }
    }
  }

  /** A node asks home: its request joins the bag as its phase says. */
  lemma HomeInvAsked(c: Config, dir: Option<Entry>, pending: Option<int>, q: seq<Blocked>, vs: Views, ws: Views,
                     i: nat, t: MsgType, hb: multiset<Msg>)
    requires HomeInv(c, dir, pending, q, vs, hb) && OnlyAt(vs, ws, i) && IsRequest(t)
    requires vs[i].phase.Done() && ws[i] == vs[i].(phase := AskOf(t)) && ViewOk(ws[i])
    ensures HomeInv(c, dir, pending, q, ws, hb + multiset{Msg(i, t)})
  {
    var hb' := hb + multiset{Msg(i, t)};
    CoreNeutral(c, dir, pending, q, vs, ws, i, hb, hb');
    forall j: nat, a | j < |ws| && IsRequest(a)
      ensures (hb' + Msgs(q))[Msg(j, a)] == if ws[j].phase == AskOf(a) then 1 else 0 {
      assert (hb + Msgs(q))[Msg(j, a)] == if vs[j].phase == AskOf(a) then 1 else 0;
    }
  }

  // ---------- the steps ----------

  lemma AnswerBalance(i: nat, inbox: seq<Msg>, cacheQ: seq<CacheReq>, d: Demand, p: Phase)
    requires cacheQ != [] && Balanced(i, inbox, cacheQ, d, p)
    ensures Balanced(i, inbox + [Msg(i, CacheAnswer(cacheQ[0]))], cacheQ[1..], d, p)
  {
    assert cacheQ == [cacheQ[0]] + cacheQ[1..];
  }

  /** The answer finds the demand or operation it belongs to still waiting. */
  lemma AnswerExpected(c: Config, i: nat, x: Node, v: View)
    requires NodeOk(c, i, x) && x.cacheQ != [] && v.demand == DemandOf(x.st.blocked) && v.phase == x.st.phase
    requires Look(c, i, v, x.inbox).ok
    ensures var w, a := Look(c, i, v, x.inbox), Msg(i, CacheAnswer(x.cacheQ[0]));
            var u := Look1(c, i, w, a);
            u.ok && u.line == w.line && u.wb == w.wb && u.ack == w.ack &&
            (u.phase == w.phase || (!u.phase.Asks() && !w.phase.Asks())) &&
            (u.demand == w.demand || u.demand.NoDemand?)
  {
    var r := x.cacheQ[0];
    assert multiset(x.cacheQ)[r] >= 1;
    if r.CacheInvalidate? || r.CacheFetch? {
      OwedDemand(i, x);
      LookDemand(c, i, v, x.inbox);
    } else {
      OwedPhase(i, x);
      LookFilling(c, i, v, x.inbox);
    }
  }

  lemma OwedDemand(i: nat, x: Node)
    requires Balanced(i, x.inbox, x.cacheQ, DemandOf(x.st.blocked), x.st.phase) && x.cacheQ != []
    requires x.cacheQ[0].CacheInvalidate? || x.cacheQ[0].CacheFetch?
    ensures DemandAcks(i, x.inbox) == 0
    ensures if x.cacheQ[0].CacheFetch? then DemandOf(x.st.blocked).ByFetch?
            else DemandOf(x.st.blocked).ByInvalidate? || DemandOf(x.st.blocked).ByFetchInvalidate?
  {
    var r, o := x.cacheQ[0], if x.cacheQ[0].CacheFetch? then CacheInvalidate else CacheFetch;
    assert multiset(x.cacheQ)[r] >= 1;
    assert multiset(x.inbox)[Msg(i, CacheAnswer(o))] + multiset(x.cacheQ)[o]
        == Owed(DemandOf(x.st.blocked), x.st.phase, o);
  }

  lemma OwedPhase(i: nat, x: Node)
    requires Balanced(i, x.inbox, x.cacheQ, DemandOf(x.st.blocked), x.st.phase) && x.cacheQ != []
    requires x.cacheQ[0].CacheRead? || x.cacheQ[0].CacheUpdate?
    ensures multiset(x.inbox)[Msg(i, CacheUpdateAck)] + multiset(x.inbox)[Msg(i, CacheReadReply)] == 0
    ensures if x.cacheQ[0].CacheRead? then x.st.phase.Reading? else x.st.phase.Filling?
  {
    var r, o := x.cacheQ[0], if x.cacheQ[0].CacheRead? then CacheUpdate else CacheRead;
    assert multiset(x.cacheQ)[r] >= 1;
    assert multiset(x.inbox)[Msg(i, CacheAnswer(o))] + multiset(x.cacheQ)[o]
        == Owed(DemandOf(x.st.blocked), x.st.phase, o);
  }

  /** Node `i` got a message from its own cache; nothing else changed but its cache queue. */
  ghost predicate Answered(c: Config, s: System, i: nat, t: System) {
    && c.Valid() && |s| == c.n && i < c.n && s[i].cacheQ != []
    && t == s[i := Node(s[i].st, s[i].inbox + [Msg(i, CacheAnswer(s[i].cacheQ[0]))], s[i].cacheQ[1..])]
  }

  lemma AnsweredBag(c: Config, s: System, i: nat, t: System)
    requires Answered(c, s, i, t)
    ensures forall a, j :: ForHome(a) ==> HomeBag(c, t)[Msg(j, a)] == HomeBag(c, s)[Msg(j, a)]
  {
  }

  lemma AnsweredNow(c: Config, s: System, i: nat, t: System, j: nat)
    requires Answered(c, s, i, t) && j < c.n
    ensures Now(c, t, j) == Now(c, s, j)
  {
    AnsweredBag(c, s, i, t);
    assert ForHome(DataWriteBack) && ForHome(InvalidateAck);
  }

  lemma AnsweredViews(c: Config, s: System, i: nat, t: System)
    requires Answered(c, s, i, t)
    ensures forall a, j :: ForHome(a) ==> HomeBag(c, t)[Msg(j, a)] == HomeBag(c, s)[Msg(j, a)]
    ensures ViewsOf(c, t) == ViewsOf(c, s)[i := Look1(c, i, ViewAt(c, s, i), Msg(i, CacheAnswer(s[i].cacheQ[0])))]
  {
    var a := Msg(i, CacheAnswer(s[i].cacheQ[0]));
    forall j: nat | j < c.n ensures Now(c, t, j) == Now(c, s, j) { AnsweredNow(c, s, i, t, j); }
    AnsweredBag(c, s, i, t);
    LookAppend(c, i, Now(c, s, i), s[i].inbox, a);
  }

  lemma AnsweredNodes(c: Config, s: System, i: nat, t: System)
    requires Answered(c, s, i, t) && KnownSources(c, s[c.home].inbox)
    requires forall j :: 0 <= j < c.n ==> NodeOk(c, j, s[j])
    ensures forall j :: 0 <= j < c.n ==> NodeOk(c, j, t[j])
    ensures KnownSources(c, t[c.home].inbox)
  {
    assert NodeOk(c, i, s[i]);
    AnswerBalance(i, s[i].inbox, s[i].cacheQ, DemandOf(s[i].st.blocked), s[i].st.phase);
    assert NodeOk(c, i, t[i]);
  }

  lemma AnsweredNeutral(c: Config, s: System, i: nat)
    requires c.home < |s| && i < |s| && NodeOk(c, i, s[i]) && s[i].cacheQ != [] && ViewOk(ViewAt(c, s, i))
    ensures Neutral(ViewAt(c, s, i), Look1(c, i, ViewAt(c, s, i), Msg(i, CacheAnswer(s[i].cacheQ[0]))))
  {
    AnswerExpected(c, i, s[i], Now(c, s, i));
  }

  lemma CacheAnswersOk(c: Config, s: System, i: nat, t: System)
    requires Inv(c, s) && Answered(c, s, i, t)
    ensures Inv(c, t)
  {
    AnsweredNodes(c, s, i, t);
    AnsweredViews(c, s, i, t);
    AnsweredHome(c, s, i, t);
  }

  lemma AnsweredHome(c: Config, s: System, i: nat, t: System)
    requires Inv(c, s) && Answered(c, s, i, t)
    ensures var h := s[c.home].st; HomeInv(c, h.dir, h.pending, Requests(h.blocked), ViewsOf(c, t), HomeBag(c, t))
  {
    var vs, ws, h := ViewsOf(c, s), ViewsOf(c, t), s[c.home].st;
    AnsweredViews(c, s, i, t);
    assert ViewOk(vs[i]);
    AnsweredNeutral(c, s, i);
    HomeInvNeutral(c, h.dir, h.pending, Requests(h.blocked), vs, ws, i, HomeBag(c, s));
    WriteBacksBounded(c, s);
    HomeInvBag(c, h.dir, h.pending, Requests(h.blocked), ws, HomeBag(c, s), HomeBag(c, t));
  }

  /** Node `i` changed its own state and sent at most one message, to home. */
  ghost predicate Moves(c: Config, s: System, i: nat, o: Out) {
    && c.Valid() && |s| == c.n && i < c.n
    && |o.sends| <= 1
    && (o.sends != [] ==> o.sends[0].dst == c.home && o.sends[0].msg.src == i && ForHome(o.sends[0].msg.typ))
    && DemandOf(o.st.blocked) == DemandOf(s[i].st.blocked)
  }

  ghost predicate Moved(c: Config, s: System, i: nat, o: Out, t: System) {
    && Moves(c, s, i, o)
    && t == Push(s[i := Node(o.st, s[i].inbox, s[i].cacheQ + o.cache)], o.sends)
  }

  lemma MovedNodes(c: Config, s: System, i: nat, o: Out, t: System)
    requires Moved(c, s, i, o, t)
    ensures |t| == c.n
    ensures forall j :: 0 <= j < c.n ==>
              t[j] == Node(if j == i then o.st else s[j].st,
                           s[j].inbox + (if j == c.home then Texts(o.sends) else []),
                           s[j].cacheQ + (if j == i then o.cache else []))
    ensures HomeBag(c, t) == HomeBag(c, s) + multiset(Texts(o.sends))
  {
    PushHome(c, s[i := Node(o.st, s[i].inbox, s[i].cacheQ + o.cache)], o.sends);
  }

  lemma MovedViews(c: Config, s: System, i: nat, o: Out, t: System)
    requires Moved(c, s, i, o, t)
    ensures |t| == c.n && OnlyAt(ViewsOf(c, s), ViewsOf(c, t), i)
    ensures ViewAt(c, t, i) == Look(c, i, NowOf(o.st, i, HomeBag(c, t)), s[i].inbox)
  {
    MovedNodes(c, s, i, o, t);
    forall j: nat | j < c.n
      ensures ViewAt(c, t, j) == Look(c, j, Now(c, t, j), s[j].inbox)
      ensures j != i ==> ViewAt(c, t, j) == ViewAt(c, s, j)
    {
      if j == c.home {
        LookForHome(c, Now(c, t, j), s[j].inbox, Texts(o.sends));
      } else {
        assert s[j].inbox + [] == s[j].inbox;
      }
      MovedNow(c, s, i, o, t, j);
    }
  }

  lemma MovedNow(c: Config, s: System, i: nat, o: Out, t: System, j: nat)
    requires Moved(c, s, i, o, t) && j < c.n
    ensures |t| == c.n && (j != i ==> Now(c, t, j) == Now(c, s, j))
  {
    MovedNodes(c, s, i, o, t);
    if j != i {
      assert Msg(j, DataWriteBack) !in Texts(o.sends) && Msg(j, InvalidateAck) !in Texts(o.sends);
    }
  }

  lemma MovedNodeOk(c: Config, s: System, i: nat, o: Out, t: System, j: nat)
    requires Moved(c, s, i, o, t) && j < c.n && NodeOk(c, j, s[j])
    requires NodeOk(c, i, Node(o.st, s[i].inbox, s[i].cacheQ + o.cache))
    ensures |t| == c.n && NodeOk(c, j, t[j])
  {
    MovedNodes(c, s, i, o, t);
    var x := if j == i then Node(o.st, s[i].inbox, s[i].cacheQ + o.cache) else s[j];
    var add := if j == c.home then Texts(o.sends) else [];
    SentHomeKeepsNode(c, j, x, add);
    assert t[j] == x.(inbox := x.inbox + add);
  }

  lemma MovedNodesOk(c: Config, s: System, i: nat, o: Out, t: System)
    requires Moved(c, s, i, o, t) && KnownSources(c, s[c.home].inbox)
    requires forall j :: 0 <= j < c.n ==> NodeOk(c, j, s[j])
    requires NodeOk(c, i, Node(o.st, s[i].inbox, s[i].cacheQ + o.cache))
    ensures |t| == c.n && KnownSources(c, t[c.home].inbox)
    ensures forall j :: 0 <= j < c.n ==> NodeOk(c, j, t[j])
  {
    MovedNodes(c, s, i, o, t);
    forall j | 0 <= j < c.n ensures NodeOk(c, j, t[j]) { MovedNodeOk(c, s, i, o, t, j); }
  }

  // ---------- a new operation ----------

  lemma StartShape(c: Config, i: nat, st: Slice, write: bool, hb: multiset<Msg>)
    requires st.phase == Idle || (st.phase == Retry && write)
    requires Fits(LineOf(st.line), st.phase)
    ensures var o := Issue(c, i, st, write);
            && o.ok && o.handled && o.st.blocked == st.blocked && o.st.dir == st.dir && o.st.pending == st.pending
            && LineOf(o.st.line) == LineOf(st.line) && Fits(LineOf(st.line), o.st.phase) && !o.st.phase.Done()
            && (st.phase.Retry? ==> o.st.phase.AskWrite?)
            && if o.st.phase.Asks() then
                 o.cache == [] &&
                 exists t :: IsRequest(t) && o.st.phase == AskOf(t) && o.sends == [Send(c.home, Msg(i, t))]
               else o.sends == [] && o.cache == [if o.st.phase.Reading? then CacheRead else CacheUpdate]
  {
    var o := Issue(c, i, st, write);
    if o.st.phase.Asks() {
      var t := o.sends[0].msg.typ;
      assert IsRequest(t) && o.st.phase == AskOf(t) && o.sends == [Send(c.home, Msg(i, t))];
    }
  }

  lemma StartBalance(i: nat, inbox: seq<Msg>, cacheQ: seq<CacheReq>, more: seq<CacheReq>, d: Demand, p: Phase,
                     p': Phase)
    requires Balanced(i, inbox, cacheQ, d, p) && p.Done()
    requires more == if p'.Reading? then [CacheRead] else if p'.Filling? then [CacheUpdate] else []
    ensures Balanced(i, inbox, cacheQ + more, d, p')
  {
    forall r ensures multiset(inbox)[Msg(i, CacheAnswer(r))] + multiset(cacheQ + more)[r] == Owed(d, p', r) {
      assert multiset(inbox)[Msg(i, CacheAnswer(r))] + multiset(cacheQ)[r] == Owed(d, p, r);
    }
  }

  lemma StartView(c: Config, i: nat, v: View, q: seq<Msg>, p: Phase)
    requires ViewOk(v) && Look(c, i, v, q).ok && v.phase.Done() && Fits(v.line, p)
    ensures var w := Look(c, i, v, q);
            w.phase == v.phase && Look(c, i, v.(phase := p), q) == w.(phase := p) && ViewOk(w.(phase := p))
  {
    LookStart(c, i, v, q, p);
    LookUnasked(c, i, v, q);
    LookViewOk(c, i, v, q);
  }

  ghost predicate Starts(c: Config, s: System, i: nat, write: bool, o: Out) {
    && i < |s| && (s[i].st.phase == Idle || (s[i].st.phase == Retry && write))
    && o == Issue(c, i, s[i].st, write)
  }

  lemma NowOk(c: Config, s: System, i: nat)
    requires c.home < |s| && i < |s| && NodeOk(c, i, s[i])
    ensures ViewOk(Now(c, s, i))
  {
  }

  lemma StartMoved(c: Config, s: System, i: nat, write: bool, o: Out)
    requires c.Valid() && |s| == c.n && Starts(c, s, i, write, o) && NodeOk(c, i, s[i])
    ensures NodeOk(c, i, Node(o.st, s[i].inbox, s[i].cacheQ + o.cache))
    ensures Moves(c, s, i, o)
  {
    StartShape(c, i, s[i].st, write, HomeBag(c, s));
    StartBalance(i, s[i].inbox, s[i].cacheQ, o.cache, DemandOf(s[i].st.blocked), s[i].st.phase, o.st.phase);
  }

  lemma StartViewAt(c: Config, s: System, i: nat, write: bool, o: Out, t: System)
    requires c.Valid() && |s| == c.n && Starts(c, s, i, write, o) && Moved(c, s, i, o, t) && NodeOk(c, i, s[i])
    requires ViewOk(ViewAt(c, s, i))
    ensures |t| == c.n
    ensures ViewAt(c, t, i) == ViewAt(c, s, i).(phase := o.st.phase)
    ensures ViewAt(c, s, i).phase.Done() && ViewOk(ViewAt(c, t, i))
  {
    MovedNodes(c, s, i, o, t);
    MovedViews(c, s, i, o, t);
    StartShape(c, i, s[i].st, write, HomeBag(c, s));
    NowOk(c, s, i);
    assert NowOf(o.st, i, HomeBag(c, t)) == Now(c, s, i).(phase := o.st.phase);
    StartView(c, i, Now(c, s, i), s[i].inbox, o.st.phase);
  }

  lemma StartHome(c: Config, s: System, i: nat, write: bool, o: Out, t: System)
    requires Inv(c, s) && Starts(c, s, i, write, o) && Moved(c, s, i, o, t)
    ensures |t| == c.n
    ensures var h := s[c.home].st; HomeInv(c, h.dir, h.pending, Requests(h.blocked), ViewsOf(c, t), HomeBag(c, t))
  {
    assert ViewOk(ViewsOf(c, s)[i]) && NodeOk(c, i, s[i]);
    MovedNodes(c, s, i, o, t);
    MovedViews(c, s, i, o, t);
    StartViewAt(c, s, i, write, o, t);
    StartShape(c, i, s[i].st, write, HomeBag(c, s));
    var h := s[c.home].st;
    StartedHome(c, h.dir, h.pending, Requests(h.blocked), ViewsOf(c, s), ViewsOf(c, t), i, o, HomeBag(c, s));
  }

  lemma StartedHome(c: Config, dir: Option<Entry>, pending: Option<int>, q: seq<Blocked>, vs: Views, ws: Views,
                    i: nat, o: Out, hb: multiset<Msg>)
    requires HomeInv(c, dir, pending, q, vs, hb) && OnlyAt(vs, ws, i)
    requires vs[i].phase.Done() && ws[i] == vs[i].(phase := o.st.phase) && ViewOk(ws[i])
    requires if o.st.phase.Asks() then
               exists t :: IsRequest(t) && o.st.phase == AskOf(t) && o.sends == [Send(c.home, Msg(i, t))]
             else o.sends == []
    ensures HomeInv(c, dir, pending, q, ws, hb + multiset(Texts(o.sends)))
  {
    if o.st.phase.Asks() {
      HomeInvAsked(c, dir, pending, q, vs, ws, i, o.sends[0].msg.typ, hb);
    } else {
      HomeInvNeutral(c, dir, pending, q, vs, ws, i, hb);
      assert hb + multiset(Texts(o.sends)) == hb;
    }
  }

  lemma StartOk(c: Config, s: System, i: nat, write: bool, o: Out, t: System)
    requires Inv(c, s) && Starts(c, s, i, write, o)
    ensures o.ok && Moves(c, s, i, o)
    ensures Moved(c, s, i, o, t) ==> Inv(c, t)
  {
    assert NodeOk(c, i, s[i]);
    StartMoved(c, s, i, write, o);
    StartShape(c, i, s[i].st, write, HomeBag(c, s));
    if Moved(c, s, i, o, t) {
      MovedNodesOk(c, s, i, o, t);
      MovedNodes(c, s, i, o, t);
      StartHome(c, s, i, write, o, t);
    }
  }

  // ---------- an eviction ----------

  ghost predicate Evicts(c: Config, s: System, i: nat, o: Out) {
    && i < |s| && s[i].st.line != I
    && o == Receive(c, i, s[i].st, Msg(0, CacheEvictionAlert))
  }

  lemma EvictMoves(c: Config, s: System, i: nat, o: Out)
    requires c.Valid() && |s| == c.n && Evicts(c, s, i, o) && NodeOk(c, i, s[i])
    ensures o.ok && o.cache == [] && o.st == s[i].st.(line := I) && Moves(c, s, i, o)
    ensures o.sends == if s[i].st.line == S then [] else [Send(c.home, Msg(i, DataWriteBack))]
    ensures NodeOk(c, i, Node(o.st, s[i].inbox, s[i].cacheQ + o.cache))
  {
    assert s[i].cacheQ + [] == s[i].cacheQ;
  }

  lemma DemandAcksBound(c: Config, i: nat, x: Node)
    requires NodeOk(c, i, x)
    ensures DemandAcks(i, x.inbox) <= DemandCount(DemandOf(x.st.blocked))
  {
    assert multiset(x.inbox)[Msg(i, CacheAnswer(CacheFetch))] + multiset(x.cacheQ)[CacheFetch]
        == Owed(DemandOf(x.st.blocked), x.st.phase, CacheFetch);
    assert multiset(x.inbox)[Msg(i, CacheAnswer(CacheInvalidate))] + multiset(x.cacheQ)[CacheInvalidate]
        == Owed(DemandOf(x.st.blocked), x.st.phase, CacheInvalidate);
  }

  lemma EvictView(c: Config, s: System, i: nat, o: Out, t: System)
    requires c.Valid() && |s| == c.n && Evicts(c, s, i, o) && Moved(c, s, i, o, t) && NodeOk(c, i, s[i])
    requires ViewOk(ViewAt(c, s, i))
    ensures |t| == c.n && ViewOk(ViewAt(c, t, i))
    ensures EvictedOrSame(ViewAt(c, s, i), ViewAt(c, t, i), s[i].st.line != S)
  {
    EvictMoves(c, s, i, o);
    MovedNodes(c, s, i, o, t);
    MovedViews(c, s, i, o, t);
    NowOk(c, s, i);
    var v := Now(c, s, i);
    var w := NowOf(o.st, i, HomeBag(c, t));
    assert w == Evicted(v);
    DemandAcksBound(c, i, s[i]);
    LookEvicted(c, i, v, w, s[i].st.line != S, s[i].inbox);
    LookViewOk(c, i, w, s[i].inbox);
  }

  lemma EvictedHome(c: Config, dir: Option<Entry>, pending: Option<int>, q: seq<Blocked>, vs: Views, ws: Views,
                    i: nat, wrote: bool, hb: multiset<Msg>, hb': multiset<Msg>)
    requires HomeInv(c, dir, pending, q, vs, hb) && OnlyAt(vs, ws, i) && ViewOk(ws[i])
    requires EvictedOrSame(vs[i], ws[i], wrote)
    requires hb' == hb + multiset(if wrote then [Msg(i, DataWriteBack)] else [])
    requires forall p: nat :: p < c.n ==> hb'[Msg(p, DataWriteBack)] <= ws[p].wb
    ensures HomeInv(c, dir, pending, q, ws, hb')
  {
    if ws[i].line == vs[i].line && ws[i].wb == vs[i].wb {
      HomeInvNeutral(c, dir, pending, q, vs, ws, i, hb);
      HomeInvBag(c, dir, pending, q, ws, hb, hb');
    } else {
      HomeInvEvicted(c, dir, pending, q, vs, ws, i, hb, hb');
    }
  }

  lemma EvictHome(c: Config, s: System, i: nat, o: Out, t: System)
    requires Inv(c, s) && Evicts(c, s, i, o) && Moved(c, s, i, o, t)
    ensures |t| == c.n
    ensures var h := s[c.home].st; HomeInv(c, h.dir, h.pending, Requests(h.blocked), ViewsOf(c, t), HomeBag(c, t))
  {
    InvAt(c, s, i);
    EvictMoves(c, s, i, o);
    MovedNodes(c, s, i, o, t);
    MovedViews(c, s, i, o, t);
    EvictView(c, s, i, o, t);
    assert AllOk(ViewsOf(c, t));
    WriteBacksBounded(c, t);
    var h := s[c.home].st;
    EvictedHome(c, h.dir, h.pending, Requests(h.blocked), ViewsOf(c, s), ViewsOf(c, t), i, s[i].st.line != S,
                HomeBag(c, s), HomeBag(c, t));
  }

  lemma EvictOk(c: Config, s: System, i: nat, o: Out, t: System)
    requires Inv(c, s) && Evicts(c, s, i, o)
    ensures o.ok && Moves(c, s, i, o)
    ensures Moved(c, s, i, o, t) ==> Inv(c, t)
  {
    assert NodeOk(c, i, s[i]);
    EvictMoves(c, s, i, o);
    if Moved(c, s, i, o, t) {
      MovedNodesOk(c, s, i, o, t);
      MovedNodes(c, s, i, o, t);
      EvictHome(c, s, i, o, t);
    }
  }
}
