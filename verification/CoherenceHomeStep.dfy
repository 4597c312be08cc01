/** Home handles a message addressed to it as home. */
module CoherenceHomeStep {
  import opened Common
  import opened Coherence
  import opened CoherenceView
  import opened CoherenceHome
  import opened CoherenceSystem
  import opened CoherenceSteps

  function Popped(c: Config, s: System): System
    requires c.home < |s| && s[c.home].inbox != []
  {
    s[c.home := s[c.home].(inbox := s[c.home].inbox[1..])]
  }

  function Tokens(m: Msg, j: nat, a: MsgType): nat { if m == Msg(j, a) then 1 else 0 }

  /** Taking the message out of the queue takes its token from its sender's view. */
  lemma PoppedView(c: Config, s: System, j: nat)
    requires c.Valid() && |s| == c.n && j < c.n && s[c.home].inbox != [] && ForHome(s[c.home].inbox[0].typ)
    ensures var m := s[c.home].inbox[0];
            ViewAt(c, s, j)
            == Plus(ViewAt(c, Popped(c, s), j), Tokens(m, j, DataWriteBack), Tokens(m, j, InvalidateAck))
  {
    var u, m := Popped(c, s), s[c.home].inbox[0];
    var wb, ack := Tokens(m, j, DataWriteBack), Tokens(m, j, InvalidateAck);
    assert s[c.home].inbox == [m] + u[c.home].inbox;
    assert Now(c, s, j) == Plus(Now(c, u, j), wb, ack);
    LookPlus(c, j, Now(c, u, j), u[j].inbox, wb, ack);
  }

  lemma PoppedViewsOk(c: Config, s: System)
    requires Inv(c, s) && s[c.home].inbox != [] && ForHome(s[c.home].inbox[0].typ)
    ensures AllOk(ViewsOf(c, Popped(c, s)))
  {
    var u := Popped(c, s);
    forall j | 0 <= j < c.n ensures ViewOk(ViewAt(c, u, j)) {
      assert ViewOk(ViewsOf(c, s)[j]);
      PoppedView(c, s, j);
      assert NodeOk(c, j, s[j]);
      LookViewOk(c, j, Now(c, u, j), u[j].inbox);
    }
  }

  /** The demand in front of home's queue, if any, put back. */
  function WithDemand(q: seq<Blocked>, r: seq<Blocked>): seq<Blocked> {
    if DemandOf(q).NoDemand? then r else [q[0]] + r
  }

  /** A demand on home's own line is pending only while a request is being served. */
  lemma DemandCounted(c: Config, s: System)
    requires Inv(c, s) && !DemandOf(s[c.home].st.blocked).NoDemand?
    ensures var d, v, hb := DemandOf(s[c.home].st.blocked), ViewsOf(c, s)[c.home], HomeBag(c, s);
            && (d.ByInvalidate? ==> v.ack >= hb[Msg(c.home, InvalidateAck)] + 1)
            && (!d.ByInvalidate? ==> v.wb >= hb[Msg(c.home, DataWriteBack)] + 1)
    ensures Requests(s[c.home].st.blocked) != []
  {
    assert ViewOk(ViewsOf(c, s)[c.home]);
    LookPresent(c, c.home, Now(c, s, c.home), s[c.home].inbox);
  }

  /** Home handles `m` as if the demand in front of its queue were not there. */
  ghost predicate HomeMoves(c: Config, st: Slice, m: Msg, vs: Views, hb: multiset<Msg>, o: Out) {
    var q := Requests(st.blocked);
    var oq := Receive(c, c.home, st.(blocked := q), m);
    && o == oq.(st := oq.st.(blocked := WithDemand(st.blocked, oq.st.blocked)))
    && Kept(c, st.(blocked := q), vs, hb, oq)
  }

  ghost predicate Addressed(c: Config, st: Slice, m: Msg, vs: Views, hb: multiset<Msg>) {
    && HomeInv(c, st.dir, st.pending, Requests(st.blocked), vs, hb + multiset{m})
    && m.src < c.n
    && (!DemandOf(st.blocked).NoDemand? ==>
          var v := vs[c.home];
          Requests(st.blocked) != [] &&
          if DemandOf(st.blocked).ByInvalidate? then v.ack >= (hb + multiset{m})[Msg(c.home, InvalidateAck)] + 1
          else v.wb >= (hb + multiset{m})[Msg(c.home, DataWriteBack)] + 1)
  }

  lemma RequestMoves(c: Config, st: Slice, m: Msg, vs: Views, hb: multiset<Msg>)
    requires Addressed(c, st, m, vs, hb) && IsRequest(m.typ)
    ensures HomeMoves(c, st, m, vs, hb, Receive(c, c.home, st, m))
  {
    var q := Requests(st.blocked);
    if q == [] {
      RequestIdleOk(c, st, m, vs, hb);
    } else {
      RequestBusyOk(c, st.(blocked := q), m, vs, hb);
      assert st.blocked + [Blocked(m, false)] == WithDemand(st.blocked, q + [Blocked(m, false)]);
    }
  }

  lemma WriteBackMoves(c: Config, st: Slice, m: Msg, vs: Views, ws: Views, hb: multiset<Msg>)
    requires Addressed(c, st, m, vs, hb) && m.typ.DataWriteBack?
    requires vs[m.src].wb > 0 && ws == vs[m.src := vs[m.src].(wb := vs[m.src].wb - 1)] && ViewOk(ws[m.src])
    ensures HomeMoves(c, st, m, ws, hb, Receive(c, c.home, st, m))
  {
    var q := Requests(st.blocked);
    if q == [] {
      WriteBackIdleOk(c, st, m.src, vs, ws, hb);
    } else {
      NoDemandAtWriteBack(c, st, m, vs, hb);
      WriteBackBusyOk(c, st, m.src, vs, ws, hb);
    }
  }

  lemma NoDemandAtWriteBack(c: Config, st: Slice, m: Msg, vs: Views, hb: multiset<Msg>)
    requires Addressed(c, st, m, vs, hb) && m.typ.DataWriteBack? && vs[m.src].wb > 0 && Requests(st.blocked) != []
    ensures DemandOf(st.blocked).NoDemand?
  {
    var f := Requests(st.blocked)[0].msg;
    var p: nat :| p < |vs| && DirLookup(st.dir).mask == {p} && BusyOwner(vs, p, f);
    assert m.src == p;
    assert (hb + multiset{m})[m] >= 1;
  }

  lemma AckMoves(c: Config, st: Slice, m: Msg, vs: Views, ws: Views, hb: multiset<Msg>)
    requires Addressed(c, st, m, vs, hb) && m.typ.InvalidateAck?
    requires vs[m.src].ack > 0 && ws == vs[m.src := vs[m.src].(ack := vs[m.src].ack - 1)] && ViewOk(ws[m.src])
    ensures HomeMoves(c, st, m, ws, hb, Receive(c, c.home, st, m))
  {
    var stq := st.(blocked := Requests(st.blocked));
    InvalidateAckOk(c, stq, m.src, vs, ws, hb);
    if DemandOf(st.blocked).NoDemand? {
      assert st == stq;
      assert WithDemand(st.blocked, Receive(c, c.home, st, m).st.blocked) == Receive(c, c.home, st, m).st.blocked;
    } else {
      Acknowledged(c, stq, m.src, vs, ws, hb);
      AckDemand(c, st, m, vs, ws, hb);
      AckLeavesQueue(c, st, |Acking(ws)|, m);
    }
  }

  /** An acknowledgement that is not the last leaves the queue alone. */
  lemma AckLeavesQueue(c: Config, st: Slice, left: int, m: Msg)
    requires left > 0 && st.pending == Some(left + 1) && m.typ.InvalidateAck? && !DemandOf(st.blocked).NoDemand?
    ensures var q := Requests(st.blocked);
            var o, oq := Receive(c, c.home, st, m), Receive(c, c.home, st.(blocked := q), m);
            oq.st.blocked == q && o == oq.(st := oq.st.(blocked := WithDemand(st.blocked, q)))
  {
    assert st.blocked == [st.blocked[0]] + st.blocked[1..];
  }

  lemma AckDemand(c: Config, st: Slice, m: Msg, vs: Views, ws: Views, hb: multiset<Msg>)
    requires Addressed(c, st, m, vs, hb) && m.typ.InvalidateAck? && !DemandOf(st.blocked).NoDemand?
    requires vs[m.src].ack > 0 && ws == vs[m.src := vs[m.src].(ack := vs[m.src].ack - 1)]
    ensures |Acking(ws)| > 0
  {
    var f := Requests(st.blocked)[0].msg;
    assert Invalidating(vs, DirLookup(st.dir).mask, f);
    assert (hb + multiset{m})[m] >= 1;
    assert c.home in Acking(ws);
  }

  /** `ws` is `vs` without the token that message `m` carries. */
  predicate Paid(vs: Views, ws: Views, m: Msg) {
    |vs| == |ws| && m.src < |vs| &&
    if m.typ.DataWriteBack? then vs[m.src].wb > 0 && ws == vs[m.src := vs[m.src].(wb := vs[m.src].wb - 1)]
    else if m.typ.InvalidateAck? then vs[m.src].ack > 0 && ws == vs[m.src := vs[m.src].(ack := vs[m.src].ack - 1)]
    else ws == vs
  }

  lemma AnyMoves(c: Config, st: Slice, m: Msg, vs: Views, ws: Views, hb: multiset<Msg>)
    requires Addressed(c, st, m, vs, hb) && ForHome(m.typ) && Paid(vs, ws, m) && ViewOk(ws[m.src])
    ensures HomeMoves(c, st, m, ws, hb, Receive(c, c.home, st, m))
  {
    if m.typ.DataWriteBack? {
      WriteBackMoves(c, st, m, vs, ws, hb);
    } else if m.typ.InvalidateAck? {
      AckMoves(c, st, m, vs, ws, hb);
    } else {
      RequestMoves(c, st, m, ws, hb);
    }
  }

  lemma HeadAddressed(c: Config, s: System)
    requires Inv(c, s) && s[c.home].inbox != [] && ForHome(s[c.home].inbox[0].typ)
    ensures Addressed(c, s[c.home].st, s[c.home].inbox[0], ViewsOf(c, s), HomeBag(c, Popped(c, s)))
  {
    var u, m := Popped(c, s), s[c.home].inbox[0];
    assert s[c.home].inbox == [m] + u[c.home].inbox;
    assert HomeBag(c, s) == HomeBag(c, u) + multiset{m};
    if !DemandOf(s[c.home].st.blocked).NoDemand? { DemandCounted(c, s); }
  }

  lemma HeadMoves(c: Config, s: System)
    requires Inv(c, s) && s[c.home].inbox != [] && ForHome(s[c.home].inbox[0].typ)
    ensures var u, m, st := Popped(c, s), s[c.home].inbox[0], s[c.home].st;
            HomeMoves(c, st, m, ViewsOf(c, u), HomeBag(c, u), Receive(c, c.home, st, m))
  {
    HeadAddressed(c, s);
    PoppedViews(c, s);
    PoppedViewsOk(c, s);
    AnyMoves(c, s[c.home].st, s[c.home].inbox[0], ViewsOf(c, s), ViewsOf(c, Popped(c, s)), HomeBag(c, Popped(c, s)));
  }

  lemma PoppedViews(c: Config, s: System)
    requires c.Valid() && |s| == c.n && s[c.home].inbox != []
    requires var m := s[c.home].inbox[0]; ForHome(m.typ) && m.src < c.n
    ensures Paid(ViewsOf(c, s), ViewsOf(c, Popped(c, s)), s[c.home].inbox[0])
  {
    forall j: nat | j < c.n
      ensures var m := s[c.home].inbox[0];
              ViewAt(c, s, j)
              == Plus(ViewAt(c, Popped(c, s), j), Tokens(m, j, DataWriteBack), Tokens(m, j, InvalidateAck))
    {
      PoppedView(c, s, j);
    }
  }

  /** Apart from directory, count and requests, home's slice is as before. */
  ghost predicate SameOwn(st: Slice, st': Slice) {
    && st'.line == st.line && st'.phase == st.phase
    && DemandOf(st'.blocked) == DemandOf(st.blocked)
    && (!DemandOf(st.blocked).NoDemand? ==> st'.blocked[0] == st.blocked[0])
  }

  lemma MovedSameOwn(c: Config, st: Slice, m: Msg, vs: Views, hb: multiset<Msg>, o: Out)
    requires HomeMoves(c, st, m, vs, hb, o)
    ensures SameOwn(st, o.st) && o.ok && ToNodes(c, o.sends) && o.cache == [] && |vs| == c.n
    ensures HomeInv(c, o.st.dir, o.st.pending, Requests(o.st.blocked), Sent(c, vs, o.sends), hb)
  {
    var oq := Receive(c, c.home, st.(blocked := Requests(st.blocked)), m);
    assert Queue(c, oq.st.blocked);
    assert DemandOf(oq.st.blocked).NoDemand?;
    if !DemandOf(st.blocked).NoDemand? {
      assert o.st.blocked == [st.blocked[0]] + oq.st.blocked;
      assert o.st.blocked[1..] == oq.st.blocked;
    }
  }

  /** System after home moved from `u` with outcome `o`. */
  ghost predicate HomeMoved(c: Config, u: System, o: Out, t: System) {
    && c.Valid() && |u| == c.n && SameOwn(u[c.home].st, o.st) && ToNodes(c, o.sends) && o.cache == []
    && t == Push(u[c.home := u[c.home].(st := o.st)], o.sends)
  }

  lemma MovedViews(c: Config, u: System, o: Out, t: System)
    requires HomeMoved(c, u, o, t)
    ensures |t| == c.n && ViewsOf(c, t) == Sent(c, ViewsOf(c, u), o.sends) && t[c.home].st == o.st
    ensures forall m: Msg :: !FromHome(m.typ) ==> HomeBag(c, t)[m] == HomeBag(c, u)[m]
  {
    var w := u[c.home := u[c.home].(st := o.st)];
    PushViews(c, w, o.sends);
    forall j: nat | j < c.n ensures ViewAt(c, w, j) == ViewAt(c, u, j) {
      assert Now(c, w, j) == Now(c, u, j);
    }
    assert ViewsOf(c, w) == ViewsOf(c, u);
  }

  lemma MovedNode(c: Config, u: System, o: Out, t: System, j: nat)
    requires HomeMoved(c, u, o, t) && j < c.n && NodeOk(c, j, u[j]) && KnownSources(c, u[c.home].inbox)
    ensures |t| == c.n && NodeOk(c, j, t[j]) && KnownSources(c, t[c.home].inbox)
  {
    var w := u[c.home := u[c.home].(st := o.st)];
    PushViews(c, w, o.sends);
    assert t[j].st == w[j].st && t[j].cacheQ == w[j].cacheQ;
    forall r ensures multiset(t[j].inbox)[Msg(j, CacheAnswer(r))] == multiset(u[j].inbox)[Msg(j, CacheAnswer(r))] {
      assert !FromHome(CacheAnswer(r));
    }
  }

  lemma PoppedNode(c: Config, s: System, j: nat)
    requires c.Valid() && |s| == c.n && j < c.n && NodeOk(c, j, s[j]) && KnownSources(c, s[c.home].inbox)
    requires s[c.home].inbox != [] && ForHome(s[c.home].inbox[0].typ)
    ensures NodeOk(c, j, Popped(c, s)[j]) && KnownSources(c, Popped(c, s)[c.home].inbox)
  {
    var u, m := Popped(c, s), s[c.home].inbox[0];
    assert s[c.home].inbox == [m] + u[c.home].inbox;
    forall r ensures multiset(u[j].inbox)[Msg(j, CacheAnswer(r))] == multiset(s[j].inbox)[Msg(j, CacheAnswer(r))] {
      assert m != Msg(j, CacheAnswer(r));
    }
  }

  lemma MovedBag(c: Config, u: System, o: Out, t: System)
    requires HomeMoved(c, u, o, t) && AllOk(Sent(c, ViewsOf(c, u), o.sends))
    ensures var hb, hb' := HomeBag(c, u), HomeBag(c, t);
            && |t| == c.n && (forall j, typ :: IsRequest(typ) ==> hb'[Msg(j, typ)] == hb[Msg(j, typ)])
            && forall p: nat :: p < c.n ==>
                 hb[Msg(p, DataWriteBack)] <= hb'[Msg(p, DataWriteBack)] <= ViewsOf(c, t)[p].wb
  {
    MovedViews(c, u, o, t);
    WriteBacksBounded(c, t);
  }

  lemma MovedHome(c: Config, u: System, o: Out, t: System)
    requires HomeMoved(c, u, o, t)
    requires HomeInv(c, o.st.dir, o.st.pending, Requests(o.st.blocked), Sent(c, ViewsOf(c, u), o.sends), HomeBag(c, u))
    ensures |t| == c.n && t[c.home].st == o.st
    ensures HomeInv(c, o.st.dir, o.st.pending, Requests(o.st.blocked), ViewsOf(c, t), HomeBag(c, t))
  {
    MovedViews(c, u, o, t);
    var hb, hb' := HomeBag(c, u), HomeBag(c, t);
    MovedBag(c, u, o, t);
    HomeInvBag(c, o.st.dir, o.st.pending, Requests(o.st.blocked), ViewsOf(c, t), hb, hb');
  }

  lemma DeliverMoved(c: Config, s: System, o: Out, t: System)
    requires c.Valid() && |s| == c.n && s[c.home].inbox != [] && SameOwn(s[c.home].st, o.st)
    requires ToNodes(c, o.sends) && o.cache == []
    requires t == Push(s[c.home := Node(o.st, s[c.home].inbox[1..], s[c.home].cacheQ + o.cache)], o.sends)
    ensures HomeMoved(c, Popped(c, s), o, t)
  {
    var u := Popped(c, s);
    assert s[c.home].cacheQ + [] == s[c.home].cacheQ;
    assert s[c.home := Node(o.st, s[c.home].inbox[1..], s[c.home].cacheQ + o.cache)]
        == u[c.home := u[c.home].(st := o.st)];
  }

  lemma DeliverHome(c: Config, s: System, o: Out, t: System)
    requires Inv(c, s) && s[c.home].inbox != [] && ForHome(s[c.home].inbox[0].typ)
    requires o == Receive(c, c.home, s[c.home].st, s[c.home].inbox[0])
    ensures o.ok && ToNodes(c, o.sends)
    ensures t == Push(s[c.home := Node(o.st, s[c.home].inbox[1..], s[c.home].cacheQ + o.cache)], o.sends) ==> Inv(c, t)
  {
    var u, m, st := Popped(c, s), s[c.home].inbox[0], s[c.home].st;
    HeadMoves(c, s);
    MovedSameOwn(c, st, m, ViewsOf(c, u), HomeBag(c, u), o);
    if t == Push(s[c.home := Node(o.st, s[c.home].inbox[1..], s[c.home].cacheQ + o.cache)], o.sends) {
      DeliverMoved(c, s, o, t);
      MovedHome(c, u, o, t);
      forall j | 0 <= j < c.n ensures NodeOk(c, j, t[j]) && KnownSources(c, t[c.home].inbox) {
        assert NodeOk(c, j, s[j]);
        PoppedNode(c, s, j);
        MovedNode(c, u, o, t, j);
      }
      assert NodeOk(c, c.home, t[c.home]);
    }
  }
}
