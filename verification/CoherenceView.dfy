/** A node as it will be once every message in its incoming queue is handled.

    `Look` folds the handlers' effect on the node's own line over the queue.  A message that
    home sends appends one step to the fold; a message the node handles removes the step it
    takes.  So the view of a node changes when home acts, not when the node catches up. */
module CoherenceView {
  import opened Coherence

  datatype VLine = Gone | Copy | Owned

  // The demand on the node's line that waits for the local cache.
  datatype Demand = NoDemand | ByInvalidate | ByFetch | ByFetchInvalidate

  /** `wb` and `ack` count the node's DATA_WRITE_BACK and INVALIDATE_ACK still to be taken in
      by home: those already in home's queue and those a blocked demand will turn into. */
  datatype View = View(line: VLine, demand: Demand, phase: Phase, wb: nat, ack: nat, ok: bool)

  predicate ForHome(t: MsgType) {
    IsRequest(t) || t.InvalidateAck? || t.DataWriteBack?
  }

  function Fill(v: View, line: VLine): View {
    v.(line := line, phase := Filling(v.phase.IsWrite()))
  }

  function OnFetch(c: Config, v: View, m: Msg): View {
    if v.line.Gone? then v
    else if !v.line.Owned? || !v.demand.NoDemand? || m.src != c.home then v.(ok := false)
    else if m.typ == Fetch then
      v.(line := Copy, demand := ByFetch, wb := v.wb + 1)
    else
      v.(line := Gone, demand := ByFetchInvalidate, wb := v.wb + 1)
  }

  function OnInvalidate(c: Config, v: View, m: Msg): View {
    if m.src != c.home || v.line.Owned? then v.(ok := false)
    else if v.line.Gone? then v.(ack := v.ack + 1)
    else if !v.demand.NoDemand? then v.(ok := false)
    else v.(line := Gone, demand := ByInvalidate, ack := v.ack + 1)
  }

  /** Effect of one message on the view; `ok` drops when an assertion would fail, or when home
      sends something the protocol never should. */
  function Look1(c: Config, i: nat, v: View, m: Msg): View {
    var bad := v.(ok := false);
    if ForHome(m.typ) then (if i == c.home then v else bad)
    else match m.typ
      case Fetch => OnFetch(c, v, m)
      case FetchInvalidate => OnFetch(c, v, m)
      case Invalidate => OnInvalidate(c, v, m)
      case DataValueReply =>
        if !v.line.Gone? then bad
        else if v.phase.AskRead? then Fill(v, Copy)
        else if v.phase.AskWrite? then Fill(v, Owned)
        else bad
      case DataValueReplyE =>
        if v.line.Gone? && v.phase.AskRead? then Fill(v, Owned) else bad
      case InvalidateOtherAck =>
        if !v.line.Owned? && v.phase.AskUpgrade? && m.src == c.home then Fill(v, Owned) else bad
      case Rollback =>
        if v.line.Gone? && v.phase.AskUpgrade? then v.(phase := Retry) else bad
      case CacheReadReply => if v.phase.Reading? && m.src == i then v.(phase := Idle) else bad
      case CacheUpdateAck => if v.phase.Filling? && m.src == i then v.(phase := Idle) else bad
      case CacheInvalidateAck =>
        if (v.demand.ByInvalidate? || v.demand.ByFetchInvalidate?) && m.src == i then v.(demand := NoDemand) else bad
      case CacheFetchAck =>
        if v.demand.ByFetch? && m.src == i then v.(demand := NoDemand) else bad
      case _ => bad
  }

  function Look(c: Config, i: nat, v: View, q: seq<Msg>): View
    decreases |q|
  {
    if q == [] then v else Look(c, i, Look1(c, i, v, q[0]), q[1..])
  }

  lemma {:induction false} LookAppend(c: Config, i: nat, v: View, q: seq<Msg>, m: Msg)
    ensures Look(c, i, v, q + [m]) == Look1(c, i, Look(c, i, v, q), m)
    decreases |q|
  {
    if q == [] {
      assert (q + [m])[1..] == [];
    } else {
      assert (q + [m])[1..] == q[1..] + [m];
      LookAppend(c, i, Look1(c, i, v, q[0]), q[1..], m);
    }
  }

  lemma {:induction false} LookForHome(c: Config, v: View, q: seq<Msg>, r: seq<Msg>)
    requires forall k :: 0 <= k < |r| ==> ForHome(r[k].typ)
    ensures Look(c, c.home, v, q + r) == Look(c, c.home, v, q)
    decreases |r|
  {
    if r == [] {
      assert q + r == q;
    } else {
      LookAppend(c, c.home, v, q, r[0]);
      assert q + r == (q + [r[0]]) + r[1..];
      LookForHome(c, v, q + [r[0]], r[1..]);
    }
  }

  /** Once wrong, always wrong. */
  lemma {:induction false} LookOk(c: Config, i: nat, v: View, q: seq<Msg>)
    requires Look(c, i, v, q).ok
    ensures v.ok
    decreases |q|
  {
    if q != [] { LookOk(c, i, Look1(c, i, v, q[0]), q[1..]); }
  }

  /** Tokens held at the start are carried along untouched. */
  function Plus(v: View, wb: nat, ack: nat): View {
    v.(wb := v.wb + wb, ack := v.ack + ack)
  }

  lemma Look1Plus(c: Config, i: nat, v: View, m: Msg, wb: nat, ack: nat)
    ensures Look1(c, i, Plus(v, wb, ack), m) == Plus(Look1(c, i, v, m), wb, ack)
  {
  }

  lemma {:induction false} LookPlus(c: Config, i: nat, v: View, q: seq<Msg>, wb: nat, ack: nat)
    ensures Look(c, i, Plus(v, wb, ack), q) == Plus(Look(c, i, v, q), wb, ack)
    decreases |q|
  {
    if q != [] {
      Look1Plus(c, i, v, q[0], wb, ack);
      LookPlus(c, i, Look1(c, i, v, q[0]), q[1..], wb, ack);
    }
  }

  /** While nothing is asked of home the queue holds no answer, and the line only goes down. */
  lemma {:induction false} LookUnasked(c: Config, i: nat, v: View, q: seq<Msg>)
    requires Look(c, i, v, q).ok && !v.phase.Asks()
    ensures !Look(c, i, v, q).phase.Asks()
    ensures v.line.Gone? ==> Look(c, i, v, q).line.Gone?
    ensures v.line.Copy? ==> !Look(c, i, v, q).line.Owned?
    decreases |q|
  {
    if q != [] {
      LookOk(c, i, Look1(c, i, v, q[0]), q[1..]);
      LookUnasked(c, i, Look1(c, i, v, q[0]), q[1..]);
    }
  }

  /** With no operation in progress the phase is not looked at. */
  lemma {:induction false} LookStart(c: Config, i: nat, v: View, q: seq<Msg>, p: Phase)
    requires Look(c, i, v, q).ok && v.phase.Done()
    ensures Look(c, i, v, q).phase == v.phase
    ensures Look(c, i, v.(phase := p), q) == Look(c, i, v, q).(phase := p)
    decreases |q|
  {
    if q != [] {
      var w := Look1(c, i, v, q[0]);
      LookOk(c, i, w, q[1..]);
      assert w.phase == v.phase && Look1(c, i, v.(phase := p), q[0]) == w.(phase := p);
      LookStart(c, i, w, q[1..], p);
    }
  }

  /** Effect of an eviction that the node notices now. */
  function Evicted(v: View): View {
    v.(line := Gone, wb := v.wb + if v.line.Owned? then 1 else 0)
  }

  /** Answers of the local cache to a demand, among the queued messages. */
  function DemandAcks(i: nat, q: seq<Msg>): nat {
    multiset(q)[Msg(i, CacheFetchAck)] + multiset(q)[Msg(i, CacheInvalidateAck)]
  }

  function DemandCount(d: Demand): nat { if d.NoDemand? then 0 else 1 }

  function OwnAck(i: nat, m: Msg): nat {
    if m.src == i && (m.typ.CacheFetchAck? || m.typ.CacheInvalidateAck?) then 1 else 0
  }

  lemma DemandAcksHead(i: nat, q: seq<Msg>)
    requires q != []
    ensures DemandAcks(i, q) == DemandAcks(i, q[1..]) + OwnAck(i, q[0])
  {
    assert q == [q[0]] + q[1..];
  }

  /** Two views that differ at most by the line having been evicted, and by a demand on the
      cache which the eviction made needless; `wrote` if a write-back was sent. */
  predicate EvictedOrSame(v: View, w: View, wrote: bool) {
    && w.ok == v.ok && w.phase == v.phase && w.ack == v.ack
    && (w.demand == v.demand || w.demand.NoDemand?)
    && ( (w.line == v.line && w.wb == v.wb)
      || (w.line.Gone? && !v.line.Gone? && w.wb == Evicted(v).wb && (v.line.Owned? ==> wrote)))
  }

  lemma Look1Evicted(c: Config, i: nat, v: View, w: View, wrote: bool, m: Msg)
    requires Look1(c, i, v, m).ok && EvictedOrSame(v, w, wrote) && w.ok && OwnAck(i, m) <= DemandCount(w.demand)
    ensures var v', w' := Look1(c, i, v, m), Look1(c, i, w, m);
            EvictedOrSame(v', w', wrote) && w'.ok && DemandCount(w'.demand) >= DemandCount(w.demand) - OwnAck(i, m)
  {
  }

  /** Evicting before the queue is handled comes to the same as evicting afterwards, or makes
      no difference because a demand in the queue takes the line anyway. */
  lemma {:induction false} LookEvicted(c: Config, i: nat, v: View, w: View, wrote: bool, q: seq<Msg>)
    requires Look(c, i, v, q).ok && EvictedOrSame(v, w, wrote) && w.ok
    requires DemandAcks(i, q) <= DemandCount(w.demand)
    ensures EvictedOrSame(Look(c, i, v, q), Look(c, i, w, q), wrote)
    decreases |q|
  {
    if q != [] {
      var v', w' := Look1(c, i, v, q[0]), Look1(c, i, w, q[0]);
      LookOk(c, i, v', q[1..]);
      DemandAcksHead(i, q);
      Look1Evicted(c, i, v, w, wrote, q[0]);
      LookEvicted(c, i, v', w', wrote, q[1..]);
    }
  }

  /** A line in hand stays, or leaves a token behind. */
  lemma {:induction false} LookPresent(c: Config, i: nat, v: View, q: seq<Msg>)
    requires Look(c, i, v, q).ok
    ensures var w := Look(c, i, v, q);
            && w.wb >= v.wb && w.ack >= v.ack
            && (v.line.Copy? ==> !w.line.Gone? || w.wb > v.wb || w.ack > v.ack)
            && (v.line.Owned? ==> w.line.Owned? || w.wb > v.wb)
    decreases |q|
  {
    if q != [] {
      LookOk(c, i, Look1(c, i, v, q[0]), q[1..]);
      LookPresent(c, i, Look1(c, i, v, q[0]), q[1..]);
    }
  }

  /** What a node waits for fits the line it has. */
  predicate Fits(line: VLine, p: Phase) {
    && (p.AskRead? || p.AskWrite? || p.Retry? ==> line.Gone?)
    && (p.AskUpgrade? ==> !line.Owned?)
  }

  predicate PhaseOk(v: View) { Fits(v.line, v.phase) }

  predicate DemandOk(v: View) {
    && (v.demand.ByInvalidate? ==> v.ack > 0)
    && (v.demand.ByFetch? || v.demand.ByFetchInvalidate? ==> v.wb > 0)
  }

  predicate ViewOk(v: View) { v.ok && PhaseOk(v) && DemandOk(v) }

  lemma {:induction false} LookViewOk(c: Config, i: nat, v: View, q: seq<Msg>)
    requires ViewOk(v) && Look(c, i, v, q).ok
    ensures ViewOk(Look(c, i, v, q))
    decreases |q|
  {
    if q != [] {
      LookOk(c, i, Look1(c, i, v, q[0]), q[1..]);
      LookViewOk(c, i, Look1(c, i, v, q[0]), q[1..]);
    }
  }

  /** A demand on the cache lasts until the cache's answer is handled. */
  lemma {:induction false} LookDemand(c: Config, i: nat, v: View, q: seq<Msg>)
    requires Look(c, i, v, q).ok && !v.demand.NoDemand? && DemandAcks(i, q) == 0
    ensures Look(c, i, v, q).demand == v.demand
    decreases |q|
  {
    if q != [] {
      DemandAcksHead(i, q);
      LookOk(c, i, Look1(c, i, v, q[0]), q[1..]);
      LookDemand(c, i, Look1(c, i, v, q[0]), q[1..]);
    }
  }

  /** So does an operation the cache is working on. */
  lemma {:induction false} LookFilling(c: Config, i: nat, v: View, q: seq<Msg>)
    requires Look(c, i, v, q).ok && (v.phase.Filling? || v.phase.Reading?)
    requires multiset(q)[Msg(i, CacheUpdateAck)] + multiset(q)[Msg(i, CacheReadReply)] == 0
    ensures Look(c, i, v, q).phase == v.phase
    decreases |q|
  {
    if q != [] {
      assert q == [q[0]] + q[1..];
      LookOk(c, i, Look1(c, i, v, q[0]), q[1..]);
      LookFilling(c, i, Look1(c, i, v, q[0]), q[1..]);
    }
  }

  function Bag(q: seq<Msg>, src: nat, t: MsgType): nat { multiset(q)[Msg(src, t)] }

  /** Every INVALIDATE that waits to be handled will be acknowledged once. */
  lemma {:induction false} LookAcks(c: Config, i: nat, v: View, q: seq<Msg>)
    requires Look(c, i, v, q).ok
    ensures Look(c, i, v, q).ack == v.ack + Bag(q, c.home, Invalidate)
    decreases |q|
  {
    if q != [] {
      assert q == [q[0]] + q[1..];
      LookOk(c, i, Look1(c, i, v, q[0]), q[1..]);
      LookAcks(c, i, Look1(c, i, v, q[0]), q[1..]);
    }
  }

  predicate Grants(t: MsgType) { t.DataValueReply? || t.DataValueReplyE? || t.InvalidateOtherAck? }

  function Replies(q: seq<Msg>): nat {
    if q == [] then 0
    else (if Grants(q[0].typ) || q[0].typ.Rollback? then 1 else 0) + Replies(q[1..])
  }

  /** A waiting node's reply is in its queue exactly when, seen ahead, it no longer waits. */
  lemma {:induction false} LookReplies(c: Config, i: nat, v: View, q: seq<Msg>)
    requires Look(c, i, v, q).ok
    ensures var w := Look(c, i, v, q);
            if v.phase.Asks() then (if w.phase.Asks() then w.phase == v.phase && Replies(q) == 0 else Replies(q) == 1)
            else !w.phase.Asks() && Replies(q) == 0
    decreases |q|
  {
    if q != [] {
      LookOk(c, i, Look1(c, i, v, q[0]), q[1..]);
      LookReplies(c, i, Look1(c, i, v, q[0]), q[1..]);
    }
  }

  /** A grant on its way puts the line in the node's hands, or a later demand collects it. */
  lemma {:induction false} LookGranted(c: Config, i: nat, v: View, q: seq<Msg>, k: nat)
    requires Look(c, i, v, q).ok && k < |q| && Grants(q[k].typ)
    ensures var w := Look(c, i, v, q); !w.line.Gone? || w.wb > v.wb || w.ack > v.ack
    decreases |q|
  {
    var u := Look1(c, i, v, q[0]);
    LookOk(c, i, u, q[1..]);
    if k == 0 { LookPresent(c, i, u, q[1..]); } else { LookGranted(c, i, u, q[1..], k - 1); }
  }

  /** A write-back still to come was called for by a fetch in the queue. */
  lemma {:induction false} LookWriteBack(c: Config, i: nat, v: View, q: seq<Msg>)
    requires Look(c, i, v, q).ok && Look(c, i, v, q).wb > v.wb
    ensures exists k :: 0 <= k < |q| && (q[k].typ.Fetch? || q[k].typ.FetchInvalidate?)
    decreases |q|
  {
    if q != [] {
      var u := Look1(c, i, v, q[0]);
      LookOk(c, i, u, q[1..]);
      if u.wb == v.wb {
        LookWriteBack(c, i, u, q[1..]);
        var k :| 0 <= k < |q[1..]| && (q[1..][k].typ.Fetch? || q[1..][k].typ.FetchInvalidate?);
        assert q[k + 1] == q[1..][k];
      }
    }
  }
}
