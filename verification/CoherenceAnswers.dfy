/** What is sent in answer to what, in any reachable state, read off the queues and home's directory before
    and after the step. */
module CoherenceAnswers {
  import opened Common
  import opened Coherence
  import opened CoherenceView
  import opened CoherenceHome
  import opened CoherenceSystem
  import opened CoherenceSteps
  import opened CoherenceHomeStep
  import opened CoherenceSafety
  import opened CoherenceDiagram

  /** The message handled is gone, and each node got the one message `more` has for it, if any. */
  ghost predicate Grown(s: System, a: Action, s': System, more: map<nat, Msg>) {
    && |s'| == |s|
    && forall j :: 0 <= j < |s| && (a == Deliver(j) ==> s[j].inbox != []) ==>
         s'[j].inbox == (if a == Deliver(j) then s[j].inbox[1..] else s[j].inbox)
                        + (if j in more then [more[j]] else [])
  }

  function Taken(s: System, a: Action, o: Out): System
    requires a.i < |s| && (a.Deliver? ==> s[a.i].inbox != []) && (a.CacheAnswers? ==> s[a.i].cacheQ != [])
  {
    s[a.i := Node(o.st, if a.Deliver? then s[a.i].inbox[1..] else s[a.i].inbox,
                  (if a.CacheAnswers? then s[a.i].cacheQ[1..] else s[a.i].cacheQ) + o.cache)]
  }

  lemma GrownNone(c: Config, s: System, a: Action, s': System)
    requires Step(c, false, s, a, s') && Outcome(c, s, a).sends == []
    ensures Grown(s, a, s', map[])
  {
  }

  lemma GrownOne(c: Config, s: System, a: Action, s': System, x: Send)
    requires Step(c, false, s, a, s') && Outcome(c, s, a).sends == [x]
    ensures Grown(s, a, s', map[x.dst := x.msg])
  {
    assert x in Outcome(c, s, a).sends;
    PushOne(Taken(s, a, Outcome(c, s, a)), x);
  }

  lemma {:induction false} PushInvalidates(c: Config, u: System, me: nat, mask: set<nat>, k: nat, j: nat)
    requires |u| == c.n && j < c.n && k <= c.n && forall x :: x in InvalidateAll(c, me, mask, k) ==> x.dst < c.n
    ensures Push(u, InvalidateAll(c, me, mask, k))[j].inbox
         == u[j].inbox + if j in mask && j >= k then [Msg(me, Invalidate)] else []
    decreases c.n - k
  {
    if k < c.n {
      var rest := InvalidateAll(c, me, mask, k + 1);
      if k in mask {
        var x := Send(k, Msg(me, Invalidate));
        var all := InvalidateAll(c, me, mask, k);
        assert all[0] == x && all[1..] == rest;
        assert forall y :: y in rest ==> y in all;
        PushInvalidates(c, u[k := u[k].(inbox := u[k].inbox + [x.msg])], me, mask, k + 1, j);
      } else {
        assert InvalidateAll(c, me, mask, k) == rest;
        PushInvalidates(c, u, me, mask, k + 1, j);
      }
    }
  }

  /** An INVALIDATE for each node of the mask. */
  function ToAll(c: Config, mask: set<nat>): map<nat, Msg> { map j | j in mask :: Msg(c.home, Invalidate) }

  lemma GrownInvalidates(c: Config, s: System, a: Action, s': System, mask: set<nat>)
    requires c.Valid() && |s| == c.n && Step(c, false, s, a, s')
    requires Outcome(c, s, a).sends == InvalidateAll(c, c.home, mask, 0)
    ensures Grown(s, a, s', ToAll(c, mask))
  {
    var u := Taken(s, a, Outcome(c, s, a));
    forall j: nat | j < c.n ensures s'[j].inbox == u[j].inbox + if j in mask then [Msg(c.home, Invalidate)] else [] {
      PushInvalidates(c, u, c.home, mask, 0, j);
    }
  }

  // ---------- home, with nothing blocked ----------

  ghost predicate IdleEntry(c: Config, st: Slice) {
    var e := DirLookup(st.dir);
    && st.pending == None
    && match e.status
       case Uncached => e.mask == {}
       case Shared => e.mask != {} && InRange(e.mask, c.n)
       case _ => exists p: nat :: p < c.n && e.mask == {p}
  }

  lemma HomeIdle(c: Config, s: System)
    requires Inv(c, s) && s[c.home].st.blocked == []
    ensures IdleEntry(c, s[c.home].st)
  {
    var h := s[c.home].st;
    assert Requests(h.blocked) == [];
    assert IdleDir(c, h.dir, ViewsOf(c, s), HomeBag(c, s));
  }

  /** Home's part of the answer to a request that comes when nothing is blocked. */
  ghost predicate ReadAnswer(c: Config, st: Slice, m: Msg, more: map<nat, Msg>, st': Slice) {
    var e := DirLookup(st.dir);
    match e.status
    case Uncached =>
      && more == map[m.src := Msg(c.home, if c.proto == Mesi then DataValueReplyE else DataValueReply)]
      && st' == st.(dir := Some(Entry(if c.proto == Mesi then Exclusive else Shared, {m.src})))
    case Shared =>
      && more == map[m.src := Msg(c.home, DataValueReply)]
      && st' == st.(dir := Some(Entry(Shared, e.mask + {m.src})))
    case _ =>
      exists p: nat ::
        && p < c.n && e.mask == {p} && more == map[p := Msg(c.home, Fetch)]
        && st' == st.(blocked := [Blocked(m, true)])
  }

  ghost predicate WriteAnswer(c: Config, st: Slice, m: Msg, more: map<nat, Msg>, st': Slice) {
    var e := DirLookup(st.dir);
    match e.status
    case Uncached =>
      && more == map[m.src := Msg(c.home, DataValueReply)]
      && st' == st.(dir := Some(Entry(Modified, {m.src})))
    case Shared =>
      && more == ToAll(c, e.mask)
      && st' == st.(pending := Some(|e.mask|), blocked := [Blocked(m, true)])
    case _ =>
      exists p: nat ::
        && p < c.n && e.mask == {p} && more == map[p := Msg(c.home, FetchInvalidate)]
        && st' == st.(blocked := [Blocked(m, true)])
  }

  ghost predicate UpgradeAnswer(c: Config, st: Slice, m: Msg, more: map<nat, Msg>, st': Slice) {
    var e := DirLookup(st.dir);
    var others := e.mask - {m.src};
    if !e.status.Shared? then
      && more == map[m.src := Msg(c.home, Rollback)]
      && st' == st.(dir := Some(e))
    else if others == {} then
      && more == map[m.src := Msg(c.home, InvalidateOtherAck)]
      && st' == st.(dir := Some(Entry(Modified, {m.src})))
    else
      && more == ToAll(c, others)
      && st' == st.(pending := Some(|others|), blocked := [Blocked(m, true)])
  }

  /** The answer with what comes of it in the slice and the messages of one handler. */
  ghost predicate Sends(c: Config, o: Out, more: map<nat, Msg>) {
    || (exists x :: o.sends == [x] && more == map[x.dst := x.msg])
    || (exists mask :: o.sends == InvalidateAll(c, c.home, mask, 0) && more == ToAll(c, mask))
  }

  lemma OwnerIs(c: Config, e: Entry, p: nat)
    requires p < c.n && e.mask == {p}
    ensures Owner(e.mask, 0, c.n) == p
  {
    OwnerOf(p, c.n);
  }

  lemma CountAll(c: Config, mask: set<nat>)
    requires InRange(mask, c.n)
    ensures |InvalidateAll(c, c.home, mask, 0)| == |mask|
  {
    InvalidateCount(c, c.home, mask, 0);
    assert From(mask, 0, c.n) == mask;
  }

  lemma ReadServed(c: Config, st: Slice, m: Msg) returns (more: map<nat, Msg>)
    requires st.blocked == [] && IdleEntry(c, st) && m.typ.ReadMiss?
    ensures var o := Receive(c, c.home, st, m); ReadAnswer(c, st, m, more, o.st) && Sends(c, o, more)
  {
    var o, e := Receive(c, c.home, st, m), DirLookup(st.dir);
    more := map[o.sends[0].dst := o.sends[0].msg];
    assert o.sends == [o.sends[0]];
    assert e.status.Uncached? ==> e.mask + {m.src} == {m.src};
    if OwnedStatus(e) {
      var p: nat :| p < c.n && e.mask == {p};
      OwnerIs(c, e, p);
      assert more == map[p := Msg(c.home, Fetch)];
    }
  }

  lemma WriteServed(c: Config, st: Slice, m: Msg) returns (more: map<nat, Msg>)
    requires st.blocked == [] && IdleEntry(c, st) && m.typ.WriteMiss?
    ensures var o := Receive(c, c.home, st, m); WriteAnswer(c, st, m, more, o.st) && Sends(c, o, more)
  {
    var o, e := Receive(c, c.home, st, m), DirLookup(st.dir);
    if e.status.Shared? {
      CountAll(c, e.mask);
      more := ToAll(c, e.mask);
      return;
    }
    more := map[o.sends[0].dst := o.sends[0].msg];
    assert o.sends == [o.sends[0]];
    if OwnedStatus(e) {
      var p: nat :| p < c.n && e.mask == {p};
      OwnerIs(c, e, p);
      assert more == map[p := Msg(c.home, FetchInvalidate)];
    }
  }

  lemma UpgradeServed(c: Config, st: Slice, m: Msg) returns (more: map<nat, Msg>)
    requires st.blocked == [] && IdleEntry(c, st) && m.typ.InvalidateOther?
    ensures var o := Receive(c, c.home, st, m); UpgradeAnswer(c, st, m, more, o.st) && Sends(c, o, more)
  {
    var o, e := Receive(c, c.home, st, m), DirLookup(st.dir);
    var others := e.mask - {m.src};
    if e.status.Shared? {
      CountAll(c, others);
      if others != {} {
        more := ToAll(c, others);
        return;
      }
    }
    more := map[o.sends[0].dst := o.sends[0].msg];
    assert o.sends == [o.sends[0]];
  }

  lemma SendsGrow(c: Config, s: System, a: Action, s': System, more: map<nat, Msg>)
    requires c.Valid() && |s| == c.n && Step(c, false, s, a, s') && Sends(c, Outcome(c, s, a), more)
    ensures Grown(s, a, s', more)
  {
    var o := Outcome(c, s, a);
    if x :| o.sends == [x] && more == map[x.dst := x.msg] {
      GrownOne(c, s, a, s', x);
    } else {
      var mask :| o.sends == InvalidateAll(c, c.home, mask, 0) && more == ToAll(c, mask);
      GrownInvalidates(c, s, a, s', mask);
    }
  }

  /** The next message is a request, and home has nothing blocked. */
  ghost predicate Asked(c: Config, s: System, s': System) {
    && c.Valid() && Reachable(c, false, s) && |s| == c.n && Step(c, false, s, Deliver(c.home), s')
    && s[c.home].st.blocked == [] && IsRequest(s[c.home].inbox[0].typ)
  }

  /** Home answers a request by the entry alone.  A read of a line nobody has is answered with E in MESI and
      with S in MSI; a shared line is shared further, or its other sharers are told to give it up and counted;
      an owner is asked to write back; an upgrade of a line that is not shared is rolled back. */
  lemma RequestAnswered(c: Config, s: System, s': System) returns (more: map<nat, Msg>)
    requires Asked(c, s, s')
    ensures Grown(s, Deliver(c.home), s', more)
    ensures var m, st, st' := s[c.home].inbox[0], s[c.home].st, s'[c.home].st;
            match m.typ
            case ReadMiss => ReadAnswer(c, st, m, more, st')
            case WriteMiss => WriteAnswer(c, st, m, more, st')
            case _ => UpgradeAnswer(c, st, m, more, st')
  {
    var m, st := s[c.home].inbox[0], s[c.home].st;
    ReachableInv(c, s);
    HomeIdle(c, s);
    if m.typ.ReadMiss? { more := ReadServed(c, st, m); }
    else if m.typ.WriteMiss? { more := WriteServed(c, st, m); }
    else { more := UpgradeServed(c, st, m); }
    StepSt(c, false, s, Deliver(c.home), s', c.home);
    SendsGrow(c, s, Deliver(c.home), s', more);
  }

  /** A request that finds something blocked waits behind it, and nothing is sent. */
  lemma RequestWaits(c: Config, s: System, s': System)
    requires c.Valid() && Reachable(c, false, s) && |s| == c.n && Step(c, false, s, Deliver(c.home), s')
    requires s[c.home].st.blocked != [] && IsRequest(s[c.home].inbox[0].typ)
    ensures Grown(s, Deliver(c.home), s', map[])
    ensures var st := s[c.home].st;
            s'[c.home].st == st.(blocked := st.blocked + [Blocked(s[c.home].inbox[0], false)])
  {
    GrownNone(c, s, Deliver(c.home), s');
    StepSt(c, false, s, Deliver(c.home), s', c.home);
  }

  // ---------- what was blocked ----------

  /** The requests as if they arrived at home now, one after the other. */
  function Redelivered(c: Config, st: Slice, q: seq<Msg>): (Slice, seq<Send>)
    decreases |q|
  {
    if q == [] then (st, [])
    else
      var o := Receive(c, c.home, st, q[0]);
      var (st', sends) := Redelivered(c, o.st, q[1..]);
      (st', o.sends + sends)
  }

  function Messages(q: seq<Blocked>): seq<Msg> { seq(|q|, k requires 0 <= k < |q| => q[k].msg) }

  /** With something blocked the requests only join the queue. */
  lemma {:induction false} AllWait(c: Config, st: Slice, q: seq<Blocked>)
    requires st.blocked != [] && Waiting(c, q)
    ensures Redelivered(c, st, Messages(q)) == (st.(blocked := st.blocked + q), [])
    decreases |q|
  {
    if q == [] {
      assert st.blocked + q == st.blocked;
    } else {
      var st1 := st.(blocked := st.blocked + [q[0]]);
      assert Messages(q)[1..] == Messages(q[1..]) && Messages(q)[0] == q[0].msg;
      assert q[0] == Blocked(q[0].msg, false);
      assert Receive(c, c.home, st, q[0].msg).st == st1 && Receive(c, c.home, st, q[0].msg).sends == [];
      AllWait(c, st1, q[1..]);
      var none: seq<Send> := [];
      assert none + none == none;
      assert (st.blocked + [q[0]]) + q[1..] == st.blocked + q;
      assert st1.(blocked := st1.blocked + q[1..]) == st.(blocked := st.blocked + q);
    }
  }

  lemma ServeIsReceive(c: Config, st: Slice, m: Msg)
    requires IsRequest(m.typ) && st.blocked == []
    ensures var o, r := Serve(c, c.home, st, m), Receive(c, c.home, st, m);
            && r.sends == o.sends
            && r.st == if o.handled then o.st else o.st.(blocked := [Blocked(m, o.serviced)])
    ensures var o := Serve(c, c.home, st, m); o.st.blocked == [] && (!o.handled ==> o.serviced)
  {
  }

  /** The queue of blocked requests is served as if they arrived now. */
  lemma {:induction false} DrainRedelivers(c: Config, st: Slice)
    requires Waiting(c, st.blocked)
    ensures var o := Drain(c, c.home, st); Redelivered(c, st.(blocked := []), Messages(st.blocked)) == (o.st, o.sends)
    decreases |st.blocked|
  {
    var q := st.blocked;
    if q != [] {
      var m, st0 := q[0].msg, st.(blocked := []);
      var o, r := Serve(c, c.home, st.(blocked := q[1..]), m), Receive(c, c.home, st0, m);
      ServeIsReceive(c, st0, m);
      SameServed(c, st, q[1..], m);
      assert Messages(q)[1..] == Messages(q[1..]) && Messages(q)[0] == m;
      if o.handled {
        DrainRedelivers(c, o.st);
      } else {
        AllWait(c, r.st, q[1..]);
        assert o.sends + [] == o.sends;
      }
    } else {
      assert st.(blocked := []) == st;
    }
  }

  /** Serving does not look at the queue. */
  lemma SameServed(c: Config, st: Slice, q: seq<Blocked>, m: Msg)
    requires IsRequest(m.typ)
    ensures var o, r := Serve(c, c.home, st.(blocked := q), m), Serve(c, c.home, st.(blocked := []), m);
            o == r.(st := r.st.(blocked := q)) && r.st.blocked == []
  {
  }

  /** After the step, where home's slice and the messages sent are these. */
  ghost predicate Becomes(c: Config, s: System, a: Action, s': System, st: Slice, sends: seq<Send>)
    requires a.i < |s| && (a.Deliver? ==> s[a.i].inbox != [])
  {
    && (forall x :: x in sends ==> x.dst < |s|)
    && s' == Push(s[a.i := s[a.i].(st := st, inbox := if a.Deliver? then s[a.i].inbox[1..] else s[a.i].inbox)], sends)
  }

  /** The answer to the request at the front, then the others as if they arrived now. */
  ghost predicate FrontAnswered(c: Config, s: System, s': System, dir: Option<Entry>, typ: MsgType)
    requires c.home < |s| && s[c.home].inbox != [] && s[c.home].st.blocked != []
  {
    var st := s[c.home].st;
    var (st', sends) := Redelivered(c, st.(dir := dir, pending := None, blocked := []), Messages(st.blocked[1..]));
    Becomes(c, s, Deliver(c.home), s', st', [Send(st.blocked[0].msg.src, Msg(c.home, typ))] + sends)
  }

  lemma Delivered(c: Config, s: System, s': System, st: Slice, sends: seq<Send>)
    requires c.home < |s| && Step(c, false, s, Deliver(c.home), s')
    requires var o := Receive(c, c.home, s[c.home].st, s[c.home].inbox[0]);
             o.st == st && o.sends == sends && o.cache == []
    ensures Becomes(c, s, Deliver(c.home), s', st, sends)
  {
    assert s[c.home].cacheQ + [] == s[c.home].cacheQ;
  }

  /** What home knows when an acknowledgement or a write-back comes. */
  lemma HomeBusy(c: Config, s: System)
    requires Inv(c, s) && s[c.home].inbox != [] && s[c.home].st.blocked != []
    requires IsRequest(s[c.home].st.blocked[0].msg.typ)
    ensures Waiting(c, s[c.home].st.blocked[1..])
    ensures var st := s[c.home].st;
            OwnedStatus(DirLookup(st.dir)) ==> st.pending == None && st.dir == Some(DirLookup(st.dir))
  {
    var q := s[c.home].st.blocked;
    assert Requests(q) == q && Queue(c, q);
    assert Core(c, s[c.home].st.dir, s[c.home].st.pending, q, ViewsOf(c, s), HomeBag(c, s));
  }

  /** Each INVALIDATE_ACK counts; the last one answers the request at the front, whose node then owns the
      line, and the blocked requests follow. */
  lemma AckAnswered(c: Config, s: System, s': System)
    requires c.Valid() && Reachable(c, false, s) && |s| == c.n && Step(c, false, s, Deliver(c.home), s')
    requires s[c.home].inbox[0].typ.InvalidateAck?
    ensures var st := s[c.home].st;
            && st.pending.Some? && st.pending.value > 0 && st.blocked != []
            && if st.pending.value > 1 then
                 && Grown(s, Deliver(c.home), s', map[])
                 && s'[c.home].st == st.(pending := Some(st.pending.value - 1))
               else
                 var m := st.blocked[0].msg;
                 && (m.typ.WriteMiss? || m.typ.InvalidateOther?)
                 && FrontAnswered(c, s, s', Some(Entry(Modified, {m.src})),
                                  if m.typ.WriteMiss? then DataValueReply else InvalidateOtherAck)
  {
    AckState(c, s);
    AssertionsHold(c, s, Deliver(c.home));
    var st := s[c.home].st;
    if st.pending.value > 1 {
      GrownNone(c, s, Deliver(c.home), s');
      StepSt(c, false, s, Deliver(c.home), s', c.home);
    } else {
      ReachableInv(c, s);
      HomeBusy(c, s);
      AckOut(c, s[c.home].st, s[c.home].inbox[0]);
      var m := st.blocked[0].msg;
      var st1 := st.(dir := Some(Entry(Modified, {m.src})), pending := None, blocked := []);
      var (st', sends) := Redelivered(c, st1, Messages(st.blocked[1..]));
      var typ := if m.typ.WriteMiss? then DataValueReply else InvalidateOtherAck;
      Delivered(c, s, s', st', [Send(m.src, Msg(c.home, typ))] + sends);
    }
  }

  lemma AckState(c: Config, s: System)
    requires c.Valid() && Reachable(c, false, s) && |s| == c.n && s[c.home].inbox != []
    requires s[c.home].inbox[0].typ.InvalidateAck?
    ensures var st := s[c.home].st; st.pending.Some? && st.pending.value > 0 && st.blocked != [] && st.dir.Some?
  {
    ReachableInv(c, s);
    HeadMoves(c, s);
    PoppedViewsOk(c, s);
  }

  lemma AckOut(c: Config, st: Slice, m: Msg)
    requires m.typ.InvalidateAck? && st.pending == Some(1) && st.dir.Some?
    requires st.blocked != [] && Waiting(c, st.blocked[1..])
    requires Receive(c, c.home, st, m).ok
    ensures var f := st.blocked[0].msg;
            var st1 := st.(dir := Some(Entry(Modified, {f.src})), pending := None, blocked := []);
            var (st', sends) := Redelivered(c, st1, Messages(st.blocked[1..]));
            var o := Receive(c, c.home, st, m);
            var typ := if f.typ.WriteMiss? then DataValueReply else InvalidateOtherAck;
            && (f.typ.WriteMiss? || f.typ.InvalidateOther?) && o.st == st' && o.cache == []
            && o.sends == [Send(f.src, Msg(c.home, typ))] + sends
  {
    DrainRedelivers(c, st.(dir := Some(Entry(Modified, {st.blocked[0].msg.src})), pending := None,
                           blocked := st.blocked[1..]));
  }

  /** Without a request in service a write-back empties the entry; else it goes to the request at the front,
      and the blocked requests follow. */
  lemma WriteBackAnswered(c: Config, s: System, s': System)
    requires c.Valid() && Reachable(c, false, s) && |s| == c.n && Step(c, false, s, Deliver(c.home), s')
    requires s[c.home].inbox[0].typ.DataWriteBack?
    ensures var st := s[c.home].st;
            if st.blocked == [] then
              Grown(s, Deliver(c.home), s', map[]) && s'[c.home].st == st.(dir := None)
            else
              var m, e := st.blocked[0].msg, DirLookup(st.dir);
              && (m.typ.WriteMiss? || m.typ.ReadMiss?)
              && FrontAnswered(c, s, s', Some(if m.typ.WriteMiss? then Entry(Modified, {m.src})
                                              else Entry(Shared, e.mask + {m.src})), DataValueReply)
  {
    WriteBackState(c, s);
    AssertionsHold(c, s, Deliver(c.home));
    var st := s[c.home].st;
    if st.blocked == [] {
      GrownNone(c, s, Deliver(c.home), s');
      StepSt(c, false, s, Deliver(c.home), s', c.home);
    } else {
      ReachableInv(c, s);
      HomeBusy(c, s);
      WriteBackOut(c, st, s[c.home].inbox[0]);
      var m := st.blocked[0].msg;
      var (st', sends) := Redelivered(c, st.(dir := WrittenBack(st, m), pending := None, blocked := []),
                                      Messages(st.blocked[1..]));
      Delivered(c, s, s', st', [Send(m.src, Msg(c.home, DataValueReply))] + sends);
    }
  }

  function WrittenBack(st: Slice, m: Msg): Option<Entry> {
    Some(if m.typ.WriteMiss? then Entry(Modified, {m.src}) else Entry(Shared, DirLookup(st.dir).mask + {m.src}))
  }

  lemma WriteBackState(c: Config, s: System)
    requires c.Valid() && Reachable(c, false, s) && |s| == c.n && s[c.home].inbox != []
    requires s[c.home].inbox[0].typ.DataWriteBack?
    ensures var st := s[c.home].st;
            && st.dir.Some? && OwnedStatus(st.dir.value)
            && (st.blocked != [] ==> IsRequest(st.blocked[0].msg.typ))
  {
    var m := s[c.home].inbox[0];
    DirectoryAgreement(c, s);
    AssertionsHold(c, s, Deliver(c.home));
    ReachableInv(c, s);
    HeadKnown(c, s);
    WriteBackOwned(c, s, m);
    if s[c.home].st.blocked != [] { FrontIsRequest(c, s[c.home].st, m); }
  }

  lemma HeadKnown(c: Config, s: System)
    requires Inv(c, s) && s[c.home].inbox != [] && ForHome(s[c.home].inbox[0].typ)
    ensures s[c.home].inbox[0].src < c.n
  {
  }

  lemma WriteBackOwned(c: Config, s: System, m: Msg)
    requires c.Valid() && |s| == c.n && DirectoryAgrees(c, s)
    requires s[c.home].inbox != [] && m == s[c.home].inbox[0] && m.typ.DataWriteBack? && m.src < c.n
    ensures s[c.home].st.dir.Some? && OwnedStatus(s[c.home].st.dir.value)
  {
    var e := DirLookup(s[c.home].st.dir);
    assert e.status.Uncached? ==> Uninvolved(c, s, m.src);
    assert e.status.Shared? ==> Sharer(c, s, m.src, e.mask);
    assert m in multiset(s[c.home].inbox) && m == Msg(m.src, DataWriteBack);
  }

  lemma FrontIsRequest(c: Config, st: Slice, m: Msg)
    requires m.typ.DataWriteBack? && Receive(c, c.home, st, m).ok && st.blocked != []
    ensures IsRequest(st.blocked[0].msg.typ)
  {
  }

  lemma WriteBackOut(c: Config, st: Slice, m: Msg)
    requires m.typ.DataWriteBack? && st.blocked != [] && Waiting(c, st.blocked[1..])
    requires st.dir.Some? && OwnedStatus(st.dir.value) && st.pending == None && Receive(c, c.home, st, m).ok
    ensures var f := st.blocked[0].msg;
            var (st', sends) := Redelivered(c, st.(dir := WrittenBack(st, f), pending := None, blocked := []),
                                            Messages(st.blocked[1..]));
            var o := Receive(c, c.home, st, m);
            && (f.typ.WriteMiss? || f.typ.ReadMiss?) && o.st == st' && o.cache == []
            && o.sends == [Send(f.src, Msg(c.home, DataValueReply))] + sends
  {
    DrainRedelivers(c, st.(dir := WrittenBack(st, st.blocked[0].msg), blocked := st.blocked[1..]));
  }

  // ---------- a node's own messages ----------

  /** What the node sends, queues and asks of its cache for a message about its own line. */
  ghost predicate OwnAnswer(c: Config, i: nat, st: Slice, m: Msg, more: map<nat, Msg>, q: seq<Blocked>,
                            cache: seq<CacheReq>)
  {
    match m.typ
    case Invalidate =>
      if st.line == I then more == map[c.home := Msg(i, InvalidateAck)] && q == st.blocked && cache == []
      else more == map[] && q == [Blocked(m, true)] + st.blocked && cache == [CacheInvalidate]
    case Fetch =>
      && more == map[]
      && if st.line == I then q == st.blocked && cache == []
         else q == [Blocked(m, true)] + st.blocked && cache == [CacheFetch]
    case FetchInvalidate =>
      && more == map[]
      && if st.line == I then q == st.blocked && cache == []
         else q == [Blocked(m, true)] + st.blocked && cache == [CacheInvalidate]
    case CacheInvalidateAck =>
      && st.blocked != [] && q == st.blocked[1..] && cache == []
      && more == map[c.home := Msg(i, if st.blocked[0].msg.typ.Invalidate? then InvalidateAck else DataWriteBack)]
    case CacheFetchAck =>
      && st.blocked != [] && q == st.blocked[1..] && cache == []
      && more == map[c.home := Msg(i, DataWriteBack)]
    case _ =>
      && more == map[] && q == st.blocked
      && cache == if m.typ.DataValueReply? || m.typ.DataValueReplyE? || m.typ.InvalidateOtherAck? then [CacheUpdate]
                  else []
  }

  ghost predicate OwnStepAnswer(c: Config, x: Node, a: Action, more: map<nat, Msg>, q: seq<Blocked>,
                                cache: seq<CacheReq>)
    requires (a.Deliver? ==> x.inbox != []) && (a.CacheAnswers? ==> x.cacheQ != [])
  {
    match a
    case Deliver(i) => OwnAnswer(c, i, x.st, x.inbox[0], more, q, cache)
    case CacheAnswers(i) =>
      && q == x.st.blocked && cache == []
      && more == map[i := Msg(i, match x.cacheQ[0]
                                 case CacheRead => CacheReadReply
                                 case CacheUpdate => CacheUpdateAck
                                 case CacheInvalidate => CacheInvalidateAck
                                 case CacheFetch => CacheFetchAck)]
    case Start(i, write) =>
      && q == x.st.blocked
      && if x.st.line == I then
           more == map[c.home := Msg(i, if write then WriteMiss else ReadMiss)] && cache == []
         else if x.st.line == S && write then more == map[c.home := Msg(i, InvalidateOther)] && cache == []
         else more == map[] && cache == [if write then CacheUpdate else CacheRead]
    case Evict(i) =>
      && q == x.st.blocked && cache == []
      && more == if x.st.line == S then map[] else map[c.home := Msg(i, DataWriteBack)]
  }

  /** One message at most. */
  function OneOf(sends: seq<Send>): map<nat, Msg> {
    if sends == [] then map[] else map[sends[0].dst := sends[0].msg]
  }

  lemma OneGrown(c: Config, s: System, a: Action, s': System)
    requires Step(c, false, s, a, s') && |Outcome(c, s, a).sends| <= 1
    ensures Grown(s, a, s', OneOf(Outcome(c, s, a).sends))
  {
    var sends := Outcome(c, s, a).sends;
    if sends == [] { GrownNone(c, s, a, s'); } else { assert sends == [sends[0]]; GrownOne(c, s, a, s', sends[0]); }
  }

  lemma FacingAt(c: Config, s: System, i: nat)
    requires Inv(c, s) && i < c.n && s[i].inbox != [] && !ForHome(s[i].inbox[0].typ)
    ensures Facing(c, i, s[i].st, s[i].inbox[0], HomeBag(c, s))
  {
    InvAt(c, s, i);
    HeadOk(c, s, i);
    var h := s[c.home].st;
    assert HomeInv(c, h.dir, h.pending, Requests(h.blocked), ViewsOf(c, s), HomeBag(c, s));
  }

  lemma OwnReceived(c: Config, i: nat, st: Slice, m: Msg, hb: multiset<Msg>)
    requires Facing(c, i, st, m, hb)
    ensures var o := Receive(c, i, st, m);
            |o.sends| <= 1 && OwnAnswer(c, i, st, m, OneOf(o.sends), o.st.blocked, o.cache)
            && o.st.dir == st.dir && o.st.pending == st.pending
  {
    OwnMessage(c, i, st, m, hb);
    if m.typ.CacheInvalidateAck? || m.typ.CacheFetchAck? {
      var q := st.blocked[1..];
      assert Drain(c, i, st.(blocked := q)).sends == [] && Drain(c, i, st.(blocked := q)).st.blocked == q;
    }
  }

  lemma OwnStarted(c: Config, s: System, a: Action)
    requires Enabled(c, false, s, a) && !a.Deliver?
    ensures var o := Outcome(c, s, a);
            |o.sends| <= 1 && OwnStepAnswer(c, s[a.i], a, OneOf(o.sends), o.st.blocked, o.cache)
            && o.st.dir == s[a.i].st.dir && o.st.pending == s[a.i].st.pending
  {
  }

  lemma OwnOutcome(c: Config, s: System, a: Action)
    requires Inv(c, s) && Enabled(c, false, s, a) && (a.Deliver? ==> !ForHome(s[a.i].inbox[0].typ))
    ensures var o := Outcome(c, s, a);
            |o.sends| <= 1 && OwnStepAnswer(c, s[a.i], a, OneOf(o.sends), o.st.blocked, o.cache)
            && o.st.dir == s[a.i].st.dir && o.st.pending == s[a.i].st.pending
  {
    if a.Deliver? {
      FacingAt(c, s, a.i);
      OwnReceived(c, a.i, s[a.i].st, s[a.i].inbox[0], HomeBag(c, s));
    } else {
      OwnStarted(c, s, a);
    }
  }

  /** Outside home's service of requests: demands are acknowledged, at once or when the cache has answered;
      misses and upgrades ask home; an eviction writes back unless the line is in S. */
  lemma NodeAnswered(c: Config, s: System, a: Action, s': System) returns (more: map<nat, Msg>, cache: seq<CacheReq>)
    requires c.Valid() && Reachable(c, false, s) && Step(c, false, s, a, s')
    requires a.Deliver? ==> !ForHome(s[a.i].inbox[0].typ)
    ensures Grown(s, a, s', more) && OwnStepAnswer(c, s[a.i], a, more, s'[a.i].st.blocked, cache)
    ensures s'[a.i].cacheQ == (if a.CacheAnswers? then s[a.i].cacheQ[1..] else s[a.i].cacheQ) + cache
    ensures s'[a.i].st.dir == s[a.i].st.dir && s'[a.i].st.pending == s[a.i].st.pending
  {
    ReachableInv(c, s);
    var o := Outcome(c, s, a);
    OwnOutcome(c, s, a);
    OneGrown(c, s, a, s');
    StepSt(c, false, s, a, s', a.i);
    more, cache := OneOf(o.sends), o.cache;
  }
}
