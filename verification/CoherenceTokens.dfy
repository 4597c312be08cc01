/** Nothing is lost: requests, acknowledgements and write-backs are accounted for in every
    reachable state. */
module CoherenceTokens {
  import opened Common
  import opened Coherence
  import opened CoherenceView
  import opened CoherenceHome
  import opened CoherenceSystem
  import opened CoherenceSafety

  function HomeQueue(c: Config, s: System): seq<Msg>
    requires c.Valid() && |s| == c.n
  {
    s[c.home].inbox
  }

  // ---------- acknowledgements ----------

  /** INVALIDATEs for node `i` under way, blocked at it, or acknowledged and not yet taken in. */
  function AckOwed(c: Config, s: System, i: nat): nat
    requires c.Valid() && |s| == c.n && i < c.n
  {
    Bag(s[i].inbox, c.home, Invalidate)
    + (if DemandOf(s[i].st.blocked).ByInvalidate? then 1 else 0)
    + Bag(HomeQueue(c, s), i, InvalidateAck)
  }

  function Owing(c: Config, s: System): set<nat>
    requires c.Valid() && |s| == c.n
  {
    set i: nat | i < c.n && AckOwed(c, s, i) == 1
  }

  lemma AckOwedIsAck(c: Config, s: System, i: nat)
    requires Inv(c, s) && i < c.n
    ensures AckOwed(c, s, i) == ViewsOf(c, s)[i].ack
  {
    assert ViewOk(ViewsOf(c, s)[i]);
    LookAcks(c, i, Now(c, s, i), s[i].inbox);
  }

  lemma PendingCounts(c: Config, dir: Option<Entry>, pending: Option<int>, q: seq<Blocked>, vs: Views,
                      hb: multiset<Msg>)
    requires HomeInv(c, dir, pending, q, vs, hb)
    ensures forall i :: 0 <= i < c.n ==> vs[i].ack <= 1
    ensures pending == if Acking(vs) == {} then None else Some(|Acking(vs)|)
    ensures pending.Some? ==> q != [] && (q[0].msg.typ.WriteMiss? || q[0].msg.typ.InvalidateOther?)
  {
    if !(q != [] && DirLookup(dir).status.Shared?) {
      assert forall i :: 0 <= i < c.n ==> vs[i].ack == 0;
      assert Acking(vs) == {};
    }
  }

  /** `pendingInvAckCount` is exactly the number of nodes that owe an acknowledgement, each
      owing one; without an entry nobody does. */
  lemma AckConservation(c: Config, s: System)
    requires c.Valid() && Reachable(c, false, s)
    ensures |s| == c.n
    ensures forall i: nat :: i < c.n ==> AckOwed(c, s, i) <= 1
    ensures s[c.home].st.pending == if Owing(c, s) == {} then None else Some(|Owing(c, s)|)
  {
    ReachableInv(c, s);
    var h := s[c.home].st;
    PendingCounts(c, h.dir, h.pending, Requests(h.blocked), ViewsOf(c, s), HomeBag(c, s));
    forall i: nat | i < c.n ensures AckOwed(c, s, i) == ViewsOf(c, s)[i].ack { AckOwedIsAck(c, s, i); }
    assert Owing(c, s) == Acking(ViewsOf(c, s));
  }

  // ---------- requests ----------

  /** Requests of kind `t` from node `i`: on the way to home or waiting there. */
  function Asked(c: Config, s: System, i: nat, t: MsgType): nat
    requires c.Valid() && |s| == c.n && i < c.n
  {
    Bag(HomeQueue(c, s), i, t) + Msgs(Requests(s[c.home].st.blocked))[Msg(i, t)]
  }

  /** The operation of node `i` is represented once: by its request, by home's reply, or by the
      cache's work on it; and nothing represents an operation that is over. */
  predicate OneToken(c: Config, s: System, i: nat)
    requires c.Valid() && |s| == c.n && i < c.n
  {
    var x := s[i];
    && (forall t :: IsRequest(t) ==> Asked(c, s, i, t) + (if x.st.phase == AskOf(t) then Replies(x.inbox) else 0)
                                      == if x.st.phase == AskOf(t) then 1 else 0)
    && (!x.st.phase.Asks() ==> Replies(x.inbox) == 0)
    && Bag(x.inbox, i, CacheUpdateAck) + multiset(x.cacheQ)[CacheUpdate] == (if x.st.phase.Filling? then 1 else 0)
    && Bag(x.inbox, i, CacheReadReply) + multiset(x.cacheQ)[CacheRead] == (if x.st.phase.Reading? then 1 else 0)
  }

  lemma InvOneToken(c: Config, s: System, i: nat)
    requires Inv(c, s) && i < c.n
    ensures OneToken(c, s, i)
  {
    var vs, h := ViewsOf(c, s), s[c.home].st;
    assert ViewOk(vs[i]) && NodeOk(c, i, s[i]);
    LookReplies(c, i, Now(c, s, i), s[i].inbox);
    forall t | IsRequest(t)
      ensures Asked(c, s, i, t) == if vs[i].phase == AskOf(t) then 1 else 0
    {
      assert (HomeBag(c, s) + Msgs(Requests(h.blocked)))[Msg(i, t)] == Asked(c, s, i, t);
    }
    TokenBalance(i, s[i]);
  }

  lemma TokenBalance(i: nat, x: Node)
    requires Balanced(i, x.inbox, x.cacheQ, DemandOf(x.st.blocked), x.st.phase)
    ensures Bag(x.inbox, i, CacheUpdateAck) + multiset(x.cacheQ)[CacheUpdate] == (if x.st.phase.Filling? then 1 else 0)
    ensures Bag(x.inbox, i, CacheReadReply) + multiset(x.cacheQ)[CacheRead] == (if x.st.phase.Reading? then 1 else 0)
  {
    assert multiset(x.inbox)[Msg(i, CacheAnswer(CacheUpdate))] + multiset(x.cacheQ)[CacheUpdate]
        == Owed(DemandOf(x.st.blocked), x.st.phase, CacheUpdate);
    assert multiset(x.inbox)[Msg(i, CacheAnswer(CacheRead))] + multiset(x.cacheQ)[CacheRead]
        == Owed(DemandOf(x.st.blocked), x.st.phase, CacheRead);
  }

  lemma NoLostTransaction(c: Config, s: System, i: nat)
    requires c.Valid() && Reachable(c, false, s) && i < c.n
    ensures |s| == c.n && OneToken(c, s, i)
  {
    ReachableInv(c, s);
    InvOneToken(c, s, i);
  }

  // ---------- the request being served ----------

  /** Something will bring the write-back home waits for from owner `p`. */
  predicate Coming(c: Config, s: System, p: nat)
    requires c.Valid() && |s| == c.n && p < c.n
  {
    || Bag(HomeQueue(c, s), p, DataWriteBack) > 0
    || DemandOf(s[p].st.blocked).ByFetch? || DemandOf(s[p].st.blocked).ByFetchInvalidate?
    || exists k :: 0 <= k < |s[p].inbox| && (s[p].inbox[k].typ.Fetch? || s[p].inbox[k].typ.FetchInvalidate?)
  }

  /** The front of home's queue is marked serviced and waits for something that exists. */
  ghost predicate FrontServed(c: Config, s: System)
    requires c.Valid() && |s| == c.n
  {
    var h, q := s[c.home].st, Requests(s[c.home].st.blocked);
    q != [] ==>
      && q[0].serviced && IsRequest(q[0].msg.typ)
      && (forall k :: 1 <= k < |q| ==> !q[k].serviced && IsRequest(q[k].msg.typ))
      && match DirLookup(h.dir).status
         case Uncached => false
         case Shared => !q[0].msg.typ.ReadMiss? && exists i: nat :: i < c.n && AckOwed(c, s, i) == 1
         case _ => !q[0].msg.typ.InvalidateOther? &&
                   exists p: nat :: p < c.n && DirLookup(h.dir).mask == {p} && Coming(c, s, p)
  }

  lemma WriteBackComing(c: Config, s: System, p: nat)
    requires Inv(c, s) && p < c.n && ViewsOf(c, s)[p].wb > 0
    ensures Coming(c, s, p)
  {
    assert ViewOk(ViewsOf(c, s)[p]);
    if Now(c, s, p).wb == 0 { LookWriteBack(c, p, Now(c, s, p), s[p].inbox); }
  }

  lemma BusyCases(c: Config, dir: Option<Entry>, pending: Option<int>, q: seq<Blocked>, vs: Views, hb: multiset<Msg>)
    requires HomeInv(c, dir, pending, q, vs, hb) && q != []
    ensures q[0].serviced && IsRequest(q[0].msg.typ)
    ensures forall k :: 1 <= k < |q| ==> !q[k].serviced && IsRequest(q[k].msg.typ)
    ensures var e := DirLookup(dir);
            match e.status
            case Uncached => false
            case Shared => !q[0].msg.typ.ReadMiss? && exists i: nat :: i < c.n && vs[i].ack == 1
            case _ => !q[0].msg.typ.InvalidateOther? && exists p: nat :: p < c.n && e.mask == {p} && vs[p].wb > 0
  {
    assert forall k :: 1 <= k < |q| ==> q[k] == q[1..][k - 1];
    if DirLookup(dir).status.Shared? {
      var i :| i in Acking(vs);
      assert vs[i].ack == 1;
    } else if OwnedStatus(DirLookup(dir)) {
      var p: nat :| p < |vs| && DirLookup(dir).mask == {p} && BusyOwner(vs, p, q[0].msg);
      assert vs[p].wb > 0;
    }
  }

  lemma QueueDiscipline(c: Config, s: System)
    requires c.Valid() && Reachable(c, false, s)
    ensures |s| == c.n && FrontServed(c, s)
  {
    ReachableInv(c, s);
    InvFrontServed(c, s);
  }

  lemma InvFrontServed(c: Config, s: System)
    requires Inv(c, s)
    ensures FrontServed(c, s)
  {
    var h, vs := s[c.home].st, ViewsOf(c, s);
    var q, e := Requests(h.blocked), DirLookup(h.dir);
    if q != [] {
      BusyCases(c, h.dir, h.pending, q, vs, HomeBag(c, s));
      if e.status.Shared? {
        var i: nat :| i < c.n && vs[i].ack == 1;
        AckOwedIsAck(c, s, i);
      } else {
        var p: nat :| p < c.n && e.mask == {p} && vs[p].wb > 0;
        WriteBackComing(c, s, p);
      }
    }
  }

  // ---------- rollback ----------

  lemma RollbackAt(c: Config, s: System, i: nat)
    requires c.Valid() && |s| == c.n && i < c.n && NodeOk(c, i, s[i]) && ViewOk(ViewAt(c, s, i))
    ensures s[i].inbox != [] && s[i].inbox[0].typ.Rollback? ==>
              s[i].st.line == I && s[i].st.phase.AskUpgrade? && Outcome(c, s, Deliver(i)).st == s[i].st.(phase := Retry)
    ensures s[i].st.phase.Retry? ==>
              s[i].st.line == I && Outcome(c, s, Start(i, true)).sends == [Send(c.home, Msg(i, WriteMiss))]
  {
    if s[i].inbox != [] { HeadOk(c, s, i); }
  }

  /** ROLLBACK meets a node without the line, and the retry it causes asks for it as a WRITE_MISS. */
  lemma RollbackRetries(c: Config, s: System, i: nat)
    requires c.Valid() && Reachable(c, false, s) && i < c.n && |s| == c.n
    ensures s[i].inbox != [] && s[i].inbox[0].typ.Rollback? ==>
              s[i].st.line == I && s[i].st.phase.AskUpgrade? && Outcome(c, s, Deliver(i)).st == s[i].st.(phase := Retry)
    ensures s[i].st.phase.Retry? ==>
              s[i].st.line == I && Outcome(c, s, Start(i, true)).sends == [Send(c.home, Msg(i, WriteMiss))]
  {
    ReachableInv(c, s);
    InvAt(c, s, i);
    RollbackAt(c, s, i);
  }

  // ---------- no deadlock ----------

  predicate NothingWaits(s: System) {
    forall i :: 0 <= i < |s| ==> s[i].inbox == [] && s[i].cacheQ == []
  }

  lemma InvNoDeadlock(c: Config, s: System)
    requires Inv(c, s) && NothingWaits(s)
    ensures forall i :: 0 <= i < |s| ==> s[i].st.phase.Done() && DemandOf(s[i].st.blocked).NoDemand?
    ensures Requests(s[c.home].st.blocked) == []
  {
    InvFrontServed(c, s);
    forall i | 0 <= i < |s|
      ensures DemandOf(s[i].st.blocked).NoDemand? && !s[i].st.phase.Filling? && !s[i].st.phase.Reading?
    {
      assert NodeOk(c, i, s[i]);
      NothingOwed(i, s[i]);
    }
    forall i | 0 <= i < |s| ensures s[i].st.phase.Done() && Requests(s[c.home].st.blocked) == [] {
      InvOneToken(c, s, i);
      NothingAsked(c, s, i);
    }
    assert s[c.home].st.phase.Done();
  }

  /** When no message waits anywhere, every operation is over. */
  lemma NoDeadlock(c: Config, s: System)
    requires c.Valid() && Reachable(c, false, s) && NothingWaits(s)
    ensures forall i :: 0 <= i < |s| ==> s[i].st.phase.Done() && s[i].st.blocked == []
  {
    ReachableInv(c, s);
    InvNoDeadlock(c, s);
    forall i | 0 <= i < |s| ensures s[i].st.blocked == [] { assert NodeOk(c, i, s[i]); }
  }

  lemma NothingAsked(c: Config, s: System, i: nat)
    requires c.Valid() && |s| == c.n && i < c.n && OneToken(c, s, i) && FrontServed(c, s)
    requires forall j :: 0 <= j < |s| ==> s[j].inbox == [] && DemandOf(s[j].st.blocked).NoDemand?
    requires !s[i].st.phase.Filling? && !s[i].st.phase.Reading?
    ensures s[i].st.phase.Done() && Requests(s[c.home].st.blocked) == []
  {
    assert Requests(s[c.home].st.blocked) == [];
    assert Asked(c, s, i, ReadMiss) == 0 && Asked(c, s, i, WriteMiss) == 0 && Asked(c, s, i, InvalidateOther) == 0;
    assert Replies(s[i].inbox) == 0;
  }

  lemma NothingOwed(i: nat, x: Node)
    requires Balanced(i, x.inbox, x.cacheQ, DemandOf(x.st.blocked), x.st.phase) && x.inbox == [] && x.cacheQ == []
    ensures DemandOf(x.st.blocked).NoDemand? && !x.st.phase.Filling? && !x.st.phase.Reading?
  {
    forall r ensures Owed(DemandOf(x.st.blocked), x.st.phase, r) == 0 {
      assert multiset(x.inbox)[Msg(i, CacheAnswer(r))] + multiset(x.cacheQ)[r]
          == Owed(DemandOf(x.st.blocked), x.st.phase, r);
    }
    assert Owed(DemandOf(x.st.blocked), x.st.phase, CacheUpdate) == 0
        && Owed(DemandOf(x.st.blocked), x.st.phase, CacheRead) == 0;
    assert Owed(DemandOf(x.st.blocked), x.st.phase, CacheFetch) == 0
        && Owed(DemandOf(x.st.blocked), x.st.phase, CacheInvalidate) == 0;
  }
}
