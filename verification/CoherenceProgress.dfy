/** Message handling cannot go on for ever: every message handled, and every answer of a cache,
    uses up part of a potential that only new operations and evictions raise. */
module CoherenceProgress {
  import opened Common
  import opened Coherence
  import opened CoherenceView
  import opened CoherenceSystem
  import opened CoherenceSafety
  import opened CoherenceTokens

  /** A request may still cause an INVALIDATE at each of the `n` nodes. */
  function RequestCost(n: nat): nat { 4 * n + 10 }

  function MsgCost(n: nat, m: Msg): nat {
    match m.typ
    case ReadMiss => RequestCost(n) + 1
    case WriteMiss => RequestCost(n) + 1
    case InvalidateOther => RequestCost(n) + 1
    case Invalidate => 4
    case Fetch => 4
    case FetchInvalidate => 4
    case DataValueReply => 3
    case DataValueReplyE => 3
    case InvalidateOtherAck => 3
    case CacheInvalidateAck => 2
    case CacheFetchAck => 2
    case _ => 1
  }

  function CacheCost(r: CacheReq): nat {
    match r case CacheRead => 2 case CacheUpdate => 2 case CacheInvalidate => 3 case CacheFetch => 3
  }

  /** A request in service still owes its answer. */
  function BlockedCost(n: nat, b: Blocked): nat {
    if !IsRequest(b.msg.typ) then 0 else if b.serviced then 4 else RequestCost(n)
  }

  function InboxCost(n: nat, q: seq<Msg>): nat { if q == [] then 0 else MsgCost(n, q[0]) + InboxCost(n, q[1..]) }
  function CachesCost(q: seq<CacheReq>): nat { if q == [] then 0 else CacheCost(q[0]) + CachesCost(q[1..]) }
  function QueueCost(n: nat, q: seq<Blocked>): nat {
    if q == [] then 0 else BlockedCost(n, q[0]) + QueueCost(n, q[1..])
  }
  function SendCost(n: nat, q: seq<Send>): nat { if q == [] then 0 else MsgCost(n, q[0].msg) + SendCost(n, q[1..]) }

  function NodeCost(n: nat, x: Node): nat {
    InboxCost(n, x.inbox) + CachesCost(x.cacheQ) + QueueCost(n, x.st.blocked)
  }

  function Potential(n: nat, s: System): nat {
    if s == [] then 0 else NodeCost(n, s[0]) + Potential(n, s[1..])
  }

  lemma {:induction false} InboxCostConcat(n: nat, a: seq<Msg>, b: seq<Msg>)
    ensures InboxCost(n, a + b) == InboxCost(n, a) + InboxCost(n, b)
    decreases |a|
  {
    if a == [] { assert a + b == b; } else { assert (a + b)[1..] == a[1..] + b; InboxCostConcat(n, a[1..], b); }
  }

  lemma {:induction false} CachesCostConcat(a: seq<CacheReq>, b: seq<CacheReq>)
    ensures CachesCost(a + b) == CachesCost(a) + CachesCost(b)
    decreases |a|
  {
    if a == [] { assert a + b == b; } else { assert (a + b)[1..] == a[1..] + b; CachesCostConcat(a[1..], b); }
  }

  lemma {:induction false} QueueCostConcat(n: nat, a: seq<Blocked>, b: seq<Blocked>)
    ensures QueueCost(n, a + b) == QueueCost(n, a) + QueueCost(n, b)
    decreases |a|
  {
    if a == [] { assert a + b == b; } else { assert (a + b)[1..] == a[1..] + b; QueueCostConcat(n, a[1..], b); }
  }

  lemma {:induction false} SendCostConcat(n: nat, a: seq<Send>, b: seq<Send>)
    ensures SendCost(n, a + b) == SendCost(n, a) + SendCost(n, b)
    decreases |a|
  {
    if a == [] { assert a + b == b; } else { assert (a + b)[1..] == a[1..] + b; SendCostConcat(n, a[1..], b); }
  }

  lemma {:induction false} PotentialUpdate(n: nat, s: System, i: nat, x: Node)
    requires i < |s|
    ensures Potential(n, s[i := x]) == Potential(n, s) - NodeCost(n, s[i]) + NodeCost(n, x)
    decreases |s|
  {
    if i == 0 {
      assert s[0 := x][1..] == s[1..];
    } else {
      assert s[i := x][1..] == s[1..][i - 1 := x];
      PotentialUpdate(n, s[1..], i - 1, x);
    }
  }

  lemma {:induction false} PushCost(n: nat, s: System, sends: seq<Send>)
    requires forall x :: x in sends ==> x.dst < |s|
    ensures Potential(n, Push(s, sends)) == Potential(n, s) + SendCost(n, sends)
    decreases |sends|
  {
    if sends != [] {
      var x := sends[0];
      assert x in sends;
      var y := s[x.dst].(inbox := s[x.dst].inbox + [x.msg]);
      InboxCostConcat(n, s[x.dst].inbox, [x.msg]);
      assert InboxCost(n, [x.msg]) == MsgCost(n, x.msg) by { assert [x.msg][1..] == []; }
      PotentialUpdate(n, s, x.dst, y);
      PushCost(n, s[x.dst := y], sends[1..]);
    }
  }

  // ---------- handlers spend more than they create ----------

  lemma {:induction false} InvalidateAllCost(c: Config, me: nat, mask: set<nat>, k: nat)
    requires k <= c.n
    ensures SendCost(c.n, InvalidateAll(c, me, mask, k)) <= 4 * (c.n - k)
    decreases c.n - k
  {
    if k < c.n {
      InvalidateAllCost(c, me, mask, k + 1);
      var rest := InvalidateAll(c, me, mask, k + 1);
      if k in mask {
        SendCostConcat(c.n, [Send(k, Msg(me, Invalidate))], rest);
        assert SendCost(c.n, [Send(k, Msg(me, Invalidate))]) == 4 by {
          assert [Send(k, Msg(me, Invalidate))][1..] == [];
        }
      } else {
        assert [] + rest == rest;
      }
    }
  }

  lemma ServeCost(c: Config, me: nat, st: Slice, m: Msg)
    requires IsRequest(m.typ)
    ensures var o := Serve(c, me, st, m);
            o.cache == [] && o.st.blocked == st.blocked &&
            SendCost(c.n, o.sends) <= if o.handled then 3 else 4 * c.n + 4
  {
    var o := Serve(c, me, st, m);
    var e := DirLookup(st.dir);
    if m.typ.WriteMiss? && e.status.Shared? {
      InvalidateAllCost(c, me, e.mask, 0);
    } else if m.typ.InvalidateOther? && e.status.Shared? && !o.handled {
      InvalidateAllCost(c, me, e.mask - {m.src}, 0);
    } else {
      assert |o.sends| == 1 && o.sends[1..] == [];
    }
  }

  lemma {:induction false} DrainCost(c: Config, me: nat, st: Slice)
    ensures var o := Drain(c, me, st);
            o.cache == [] && SendCost(c.n, o.sends) + QueueCost(c.n, o.st.blocked) <= QueueCost(c.n, st.blocked)
    decreases |st.blocked|
  {
    if st.blocked != [] && !st.blocked[0].serviced && IsRequest(st.blocked[0].msg.typ) {
      var m := st.blocked[0].msg;
      ServeCost(c, me, st.(blocked := st.blocked[1..]), m);
      var o := Serve(c, me, st.(blocked := st.blocked[1..]), m);
      if o.handled {
        DrainCost(c, me, o.st);
        SendCostConcat(c.n, o.sends, Drain(c, me, o.st).sends);
      } else {
        var q := [Blocked(m, true)] + st.blocked[1..];
        assert q[0] == Blocked(m, true) && q[1..] == st.blocked[1..];
      }
    }
  }

  /** One send in front of what the drained queue sends. */
  lemma AnswerThenDrain(c: Config, me: nat, st: Slice, a: seq<Send>)
    requires |a| <= 1
    ensures var o := Drain(c, me, st);
            SendCost(c.n, a + o.sends) + QueueCost(c.n, o.st.blocked)
              <= QueueCost(c.n, st.blocked) + if a == [] then 0 else MsgCost(c.n, a[0].msg)
  {
    DrainCost(c, me, st);
    SendCostConcat(c.n, a, Drain(c, me, st).sends);
    if a != [] { assert a[1..] == []; }
  }

  predicate Spends(c: Config, st: Slice, m: Msg, o: Out) {
    SendCost(c.n, o.sends) + CachesCost(o.cache) + QueueCost(c.n, o.st.blocked)
      < QueueCost(c.n, st.blocked) + MsgCost(c.n, m)
  }

  lemma BlockCost(n: nat, q: seq<Blocked>, b: Blocked)
    ensures QueueCost(n, Block(q, b)) == QueueCost(n, q) + BlockedCost(n, b)
  {
    QueueCostConcat(n, [b], q);
    QueueCostConcat(n, q, [b]);
    assert [b][1..] == [];
  }

  lemma RequestCostOk(c: Config, me: nat, st: Slice, m: Msg)
    requires IsRequest(m.typ)
    ensures Spends(c, st, m, Receive(c, me, st, m))
  {
    BlockCost(c.n, st.blocked, Blocked(m, false));
    BlockCost(c.n, st.blocked, Blocked(m, true));
    ServeCost(c, me, st, m);
  }

  lemma InvalidateAckCostOk(c: Config, me: nat, st: Slice, m: Msg)
    requires m.typ.InvalidateAck?
    ensures Spends(c, st, m, HandleInvalidateAck(c, me, st))
  {
    if st.blocked != [] {
      var f := st.blocked[0].msg;
      var a := if f.typ == WriteMiss then [Send(f.src, Msg(me, DataValueReply))]
               else if f.typ == InvalidateOther then [Send(f.src, Msg(me, InvalidateOtherAck))] else [];
      AnswerThenDrain(
        c, me, st.(pending := None, blocked := st.blocked[1..], dir := DirUpdate(st.dir, Modified, f.src)), a);
    }
  }

  lemma ReceiveHandled(c: Config, me: nat, st: Slice, m: Msg)
    requires Handle(c, me, st, m).handled
    ensures Receive(c, me, st, m) == Handle(c, me, st, m)
  {
  }

  lemma WriteBackSpends(c: Config, me: nat, st: Slice, m: Msg)
    requires m.typ.DataWriteBack?
    ensures Spends(c, st, m, HandleWriteBack(c, me, st, m.src))
  {
    if st.blocked != [] {
      var f, e := st.blocked[0].msg, DirLookup(st.dir);
      var st1 := st.(blocked := st.blocked[1..]);
      if f.typ == WriteMiss {
        AnswerThenDrain(c, me, st1.(dir := DirUpdate(st.dir, Modified, f.src)), [Send(f.src, Msg(me, DataValueReply))]);
      } else if f.typ == ReadMiss {
        var unowned := e.status.Uncached? && c.proto == Mesi;
        AnswerThenDrain(c, me, st1.(dir := DirUpdate(Some(e), if unowned then Exclusive else Shared, f.src)),
                        [Send(f.src, Msg(me, if unowned then DataValueReplyE else DataValueReply))]);
      }
    }
  }

  lemma WriteBackCostOk(c: Config, me: nat, st: Slice, m: Msg)
    requires m.typ.DataWriteBack?
    ensures Spends(c, st, m, Receive(c, me, st, m))
  {
    WriteBackSpends(c, me, st, m);
    ReceiveHandled(c, me, st, m);
  }

  lemma CacheAckSpends(c: Config, me: nat, st: Slice, m: Msg)
    requires m.typ.CacheInvalidateAck? || m.typ.CacheFetchAck?
    ensures Spends(c, st, m, HandleCacheAck(c, me, st, m.typ))
  {
    if st.blocked != [] {
      var f := st.blocked[0].msg;
      var a := [Send(f.src, Msg(me, if f.typ == Invalidate then InvalidateAck else DataWriteBack))];
      AnswerThenDrain(c, me, st.(blocked := st.blocked[1..]), a);
      assert HandleCacheAck(c, me, st, m.typ).sends == a + Drain(c, me, st.(blocked := st.blocked[1..])).sends;
    }
  }

  lemma CacheAckCostOk(c: Config, me: nat, st: Slice, m: Msg)
    requires m.typ.CacheInvalidateAck? || m.typ.CacheFetchAck?
    ensures Spends(c, st, m, Receive(c, me, st, m))
  {
    CacheAckSpends(c, me, st, m);
    ReceiveHandled(c, me, st, m);
  }

  lemma DemandCostOk(c: Config, me: nat, st: Slice, m: Msg)
    requires m.typ.Invalidate? || m.typ.Fetch? || m.typ.FetchInvalidate?
    ensures Spends(c, st, m, Receive(c, me, st, m))
  {
    BlockCost(c.n, st.blocked, Blocked(m, true));
    var o := Receive(c, me, st, m);
    if o.sends != [] { assert o.sends[1..] == []; }
    if o.cache != [] { assert o.cache[1..] == []; }
  }

  lemma ReplyCostOk(c: Config, me: nat, st: Slice, m: Msg)
    requires Grants(m.typ) || m.typ.Rollback? || m.typ.CacheReadReply? || m.typ.CacheUpdateAck?
             || m.typ.CacheEvictionAlert?
    ensures m.typ.CacheEvictionAlert? || Spends(c, st, m, Receive(c, me, st, m))
  {
    var o := Receive(c, me, st, m);
    if o.cache != [] { assert o.cache[1..] == []; }
  }

  lemma MessageCostOk(c: Config, me: nat, st: Slice, m: Msg)
    requires !m.typ.CacheEvictionAlert?
    ensures Spends(c, st, m, Receive(c, me, st, m))
  {
    if IsRequest(m.typ) {
      RequestCostOk(c, me, st, m);
    } else if m.typ.InvalidateAck? {
      InvalidateAckCostOk(c, me, st, m);
    } else if m.typ.DataWriteBack? {
      WriteBackCostOk(c, me, st, m);
    } else if m.typ.CacheInvalidateAck? || m.typ.CacheFetchAck? {
      CacheAckCostOk(c, me, st, m);
    } else if m.typ.Invalidate? || m.typ.Fetch? || m.typ.FetchInvalidate? {
      DemandCostOk(c, me, st, m);
    } else {
      ReplyCostOk(c, me, st, m);
    }
  }

  // ---------- runs of message handling ----------

  /** Only messages and cache answers are handled: no operation starts and nothing is evicted. */
  predicate Handling(a: Action) { a.Deliver? || a.CacheAnswers? }

  lemma NoAlertAt(c: Config, s: System, i: nat)
    requires c.Valid() && |s| == c.n && i < c.n && ViewAt(c, s, i).ok && s[i].inbox != []
    ensures !s[i].inbox[0].typ.CacheEvictionAlert?
  {
    HeadOk(c, s, i);
  }

  lemma NoAlertQueued(c: Config, s: System, i: nat)
    requires c.Valid() && Reachable(c, false, s) && i < |s| && s[i].inbox != []
    ensures !s[i].inbox[0].typ.CacheEvictionAlert?
  {
    ReachableInv(c, s);
    InvAt(c, s, i);
    NoAlertAt(c, s, i);
  }

  lemma DeliverSpends(c: Config, s: System, i: nat, s': System)
    requires Step(c, false, s, Deliver(i), s') && !s[i].inbox[0].typ.CacheEvictionAlert?
    ensures Potential(c.n, s') < Potential(c.n, s)
  {
    var x := s[i];
    var m, o := x.inbox[0], Outcome(c, s, Deliver(i));
    MessageCostOk(c, i, x.st, m);
    SpentBy(c.n, s, i, Node(o.st, x.inbox[1..], x.cacheQ + o.cache), o, m);
  }

  lemma SpentBy(n: nat, s: System, i: nat, y: Node, o: Out, m: Msg)
    requires i < |s| && s[i].inbox != [] && m == s[i].inbox[0] && Sendable(s, o)
    requires y == Node(o.st, s[i].inbox[1..], s[i].cacheQ + o.cache)
    requires SendCost(n, o.sends) + CachesCost(o.cache) + QueueCost(n, o.st.blocked)
             < QueueCost(n, s[i].st.blocked) + MsgCost(n, m)
    ensures Potential(n, Push(s[i := y], o.sends)) < Potential(n, s)
  {
    CachesCostConcat(s[i].cacheQ, o.cache);
    PotentialUpdate(n, s, i, y);
    PushCost(n, s[i := y], o.sends);
  }

  lemma AnswerSpends(c: Config, s: System, i: nat, s': System)
    requires Step(c, false, s, CacheAnswers(i), s')
    ensures Potential(c.n, s') < Potential(c.n, s)
  {
    var x := s[i];
    var a := Send(i, Msg(i, CacheAnswer(x.cacheQ[0])));
    var y := Node(x.st, x.inbox, x.cacheQ[1..]);
    assert x.cacheQ[1..] + [] == x.cacheQ[1..];
    PotentialUpdate(c.n, s, i, y);
    PushCost(c.n, s[i := y], [a]);
    assert SendCost(c.n, [a]) == MsgCost(c.n, a.msg) by { assert [a][1..] == []; }
  }

  lemma HandlingSpends(c: Config, s: System, a: Action, s': System)
    requires c.Valid() && Reachable(c, false, s) && Handling(a) && Step(c, false, s, a, s')
    ensures Potential(c.n, s') < Potential(c.n, s)
  {
    if a.Deliver? {
      NoAlertQueued(c, s, a.i);
      DeliverSpends(c, s, a.i, s');
    } else {
      AnswerSpends(c, s, a.i, s');
    }
  }

  ghost predicate HandlingRun(c: Config, tr: seq<System>, acts: seq<Action>) {
    && |tr| == |acts| + 1
    && forall k :: 0 <= k < |acts| ==> Handling(acts[k]) && Step(c, false, tr[k], acts[k], tr[k + 1])
  }

  lemma {:induction false} HandlingRunBound(c: Config, tr: seq<System>, acts: seq<Action>, k: nat)
    requires c.Valid() && HandlingRun(c, tr, acts) && Reachable(c, false, tr[0]) && k <= |acts|
    ensures Reachable(c, false, tr[k]) && Potential(c.n, tr[k]) + k <= Potential(c.n, tr[0])
  {
    if k > 0 {
      HandlingRunBound(c, tr, acts, k - 1);
      assert Handling(acts[k - 1]) && Step(c, false, tr[k - 1], acts[k - 1], tr[k - 1 + 1]);
      HandlingSpends(c, tr[k - 1], acts[k - 1], tr[k]);
      ReachStep(c, false, tr[k - 1], acts[k - 1], tr[k]);
    }
  }

  ghost predicate Settled(c: Config, s: System) {
    forall a :: Handling(a) ==> !Enabled(c, false, s, a)
  }

  /** From any reachable state, handling messages stops after at most `Potential` steps; and
      when nothing is left to handle, every operation has completed or must be retried. */
  lemma OperationsComplete(c: Config, tr: seq<System>, acts: seq<Action>)
    requires c.Valid() && HandlingRun(c, tr, acts) && Reachable(c, false, tr[0])
    ensures |acts| <= Potential(c.n, tr[0])
    ensures Settled(c, tr[|acts|]) ==> forall x :: x in tr[|acts|] ==> x.st.phase.Done() && x.st.blocked == []
  {
    HandlingRunBound(c, tr, acts, |acts|);
    var t := tr[|acts|];
    if Settled(c, t) {
      forall i: nat | i < |t| ensures t[i].inbox == [] && t[i].cacheQ == [] {
        assert Handling(Deliver(i)) && Handling(CacheAnswers(i));
      }
      NoDeadlock(c, t);
    }
  }
}
