/** What each step does to a node's own line and operation, in any reachable state: the state diagram of
    MESI, and that MSI never leaves its three states. */
module CoherenceDiagram {
  import opened Common
  import opened Coherence
  import opened CoherenceView
  import opened CoherenceSystem
  import opened CoherenceSafety

  lemma {:induction false} PushSt(s: System, sends: seq<Send>, j: nat)
    requires j < |s| && forall x :: x in sends ==> x.dst < |s|
    ensures Push(s, sends)[j].st == s[j].st && Push(s, sends)[j].cacheQ == s[j].cacheQ
    decreases |sends|
  {
    if sends != [] {
      var x := sends[0];
      assert x in sends;
      PushSt(s[x.dst := s[x.dst].(inbox := s[x.dst].inbox + [x.msg])], sends[1..], j);
    }
  }

  lemma StepSt(c: Config, strays: bool, s: System, a: Action, s': System, j: nat)
    requires Step(c, strays, s, a, s') && j < |s|
    ensures |s'| == |s| && s'[j].st == if j == a.i then Outcome(c, s, a).st else s[j].st
    ensures s'[j].cacheQ == if j != a.i then s[j].cacheQ
                            else (if a.CacheAnswers? then s[j].cacheQ[1..] else s[j].cacheQ) + Outcome(c, s, a).cache
  {
    var o := Outcome(c, s, a);
    var x := Node(o.st, if a.Deliver? then s[a.i].inbox[1..] else s[a.i].inbox,
                  (if a.CacheAnswers? then s[a.i].cacheQ[1..] else s[a.i].cacheQ) + o.cache);
    PushSt(s[a.i := x], o.sends, j);
  }

  // ---------- the line ----------

  /** `l` and `l'` are the line before and after the message; `p` is the operation it meets. */
  predicate LineMoves(typ: MsgType, p: Phase, l: Line, l': Line) {
    match typ
    case DataValueReply => l == I && (p.AskRead? || p.AskWrite?) && l' == if p.AskWrite? then M else S
    case DataValueReplyE => l == I && p.AskRead? && l' == E
    case InvalidateOtherAck => (l == I || l == S) && p.AskUpgrade? && l' == M
    case Fetch => if l == I then l' == I else (l == E || l == M) && l' == S
    case FetchInvalidate => l != S && l' == I
    case Invalidate => (l == I || l == S) && l' == I
    case Rollback => l == I && p.AskUpgrade? && l' == I
    case _ => l' == l
  }

  ghost predicate LineStep(s: System, a: Action, s': System, j: nat)
    requires j < |s| == |s'| && (a == Deliver(j) ==> s[j].inbox != [])
  {
    var x, l' := s[j], s'[j].st.line;
    if a == Deliver(j) then LineMoves(x.inbox[0].typ, x.st.phase, x.st.line, l')
    else if a == Evict(j) then l' == I
    else if a == Start(j, true) && (x.st.line == E || x.st.line == M) then l' == M
    else l' == x.st.line
  }

  lemma {:induction false} DrainLine(c: Config, me: nat, st: Slice)
    ensures Drain(c, me, st).st.line == st.line && Drain(c, me, st).st.phase == st.phase
    decreases |st.blocked|
  {
    if st.blocked != [] && !st.blocked[0].serviced && IsRequest(st.blocked[0].msg.typ) {
      var o := Serve(c, me, st.(blocked := st.blocked[1..]), st.blocked[0].msg);
      ServeLine(c, me, st.(blocked := st.blocked[1..]), st.blocked[0].msg);
      if o.handled { DrainLine(c, me, o.st); }
    }
  }

  lemma ServeLine(c: Config, me: nat, st: Slice, m: Msg)
    requires IsRequest(m.typ)
    ensures var o := Serve(c, me, st, m).st; o.line == st.line && o.phase == st.phase && o.blocked == st.blocked
  {
  }

  /** Messages for home, and the cache's answers to a demand, leave the node's own line alone. */
  lemma OthersLeaveLine(c: Config, me: nat, st: Slice, m: Msg)
    requires ForHome(m.typ) || m.typ.CacheInvalidateAck? || m.typ.CacheFetchAck?
    ensures var o := Receive(c, me, st, m).st; o.line == st.line && o.phase == st.phase
  {
    forall t: Slice ensures Drain(c, me, t).st.line == t.line && Drain(c, me, t).st.phase == t.phase {
      DrainLine(c, me, t);
    }
    if IsRequest(m.typ) { ServeLine(c, me, st, m); }
  }

  lemma DeliverLine(c: Config, s: System, i: nat)
    requires c.Valid() && |s| == c.n && i < c.n && s[i].inbox != []
    requires NodeOk(c, i, s[i]) && ViewOk(ViewAt(c, s, i))
    ensures LineMoves(s[i].inbox[0].typ, s[i].st.phase, s[i].st.line, Receive(c, i, s[i].st, s[i].inbox[0]).st.line)
  {
    HeadOk(c, s, i);
    var m := s[i].inbox[0];
    if ForHome(m.typ) || m.typ.CacheInvalidateAck? || m.typ.CacheFetchAck? {
      OthersLeaveLine(c, i, s[i].st, m);
    }
  }

  /** Node `j` alone, before and after. */
  lemma LineAt(c: Config, s: System, a: Action, s': System, j: nat)
    requires c.Valid() && |s| == c.n == |s'| && j < c.n && Enabled(c, false, s, a)
    requires NodeOk(c, j, s[j]) && ViewOk(ViewAt(c, s, j))
    requires s'[j].st == if j == a.i then Outcome(c, s, a).st else s[j].st
    ensures LineStep(s, a, s', j)
  {
    if a == Deliver(j) { DeliverLine(c, s, j); }
  }

  /** A line moves along the state diagram: a read fill gives S or E, a write fill or a write hit M, a demand
      takes it away or demotes it to S, and nothing else changes it. */
  lemma LineDiagram(c: Config, s: System, a: Action, s': System, j: nat)
    requires c.Valid() && Reachable(c, false, s) && Step(c, false, s, a, s') && j < |s|
    ensures |s'| == |s| && LineStep(s, a, s', j)
  {
    ReachableInv(c, s);
    InvAt(c, s, j);
    StepSt(c, false, s, a, s', j);
    LineAt(c, s, a, s', j);
  }

  // ---------- the operation ----------

  predicate PhaseMoves(typ: MsgType, p: Phase, p': Phase) {
    match typ
    case DataValueReply => (p.AskRead? || p.AskWrite?) && p' == Filling(p.AskWrite?)
    case DataValueReplyE => p.AskRead? && p' == Filling(false)
    case InvalidateOtherAck => p.AskUpgrade? && p' == Filling(true)
    case Rollback => p.AskUpgrade? && p' == Retry
    case CacheReadReply => p.Reading? && p' == Idle
    case CacheUpdateAck => p.Filling? && p' == Idle
    case _ => p' == p
  }

  /** The operation started by the processor: what it waits for. */
  function Begun(l: Line, write: bool): Phase {
    match l
    case I => if write then AskWrite else AskRead
    case S => if write then AskUpgrade else Reading
    case _ => if write then Filling(true) else Reading
  }

  predicate PhaseStep(s: System, a: Action, s': System, j: nat)
    requires j < |s| == |s'| && (a == Deliver(j) ==> s[j].inbox != [])
  {
    var x, p' := s[j], s'[j].st.phase;
    if a == Deliver(j) then PhaseMoves(x.inbox[0].typ, x.st.phase, p')
    else if a.Start? && a.i == j then p' == Begun(x.st.line, a.write)
    else p' == x.st.phase
  }

  lemma DeliverPhase(c: Config, s: System, i: nat)
    requires c.Valid() && |s| == c.n && i < c.n && s[i].inbox != []
    requires NodeOk(c, i, s[i]) && ViewOk(ViewAt(c, s, i))
    ensures PhaseMoves(s[i].inbox[0].typ, s[i].st.phase, Receive(c, i, s[i].st, s[i].inbox[0]).st.phase)
  {
    HeadOk(c, s, i);
    var m := s[i].inbox[0];
    if ForHome(m.typ) || m.typ.CacheInvalidateAck? || m.typ.CacheFetchAck? {
      OthersLeaveLine(c, i, s[i].st, m);
    }
  }

  lemma PhaseAt(c: Config, s: System, a: Action, s': System, j: nat)
    requires c.Valid() && |s| == c.n == |s'| && j < c.n && Enabled(c, false, s, a)
    requires NodeOk(c, j, s[j]) && ViewOk(ViewAt(c, s, j))
    requires s'[j].st == if j == a.i then Outcome(c, s, a).st else s[j].st
    ensures PhaseStep(s, a, s', j)
  {
    if a == Deliver(j) { DeliverPhase(c, s, j); }
  }

  /** Operations go through their phases, and only by the reply they wait for. */
  lemma PhaseDiagram(c: Config, s: System, a: Action, s': System, j: nat)
    requires c.Valid() && Reachable(c, false, s) && Step(c, false, s, a, s') && j < |s|
    ensures |s'| == |s| && PhaseStep(s, a, s', j)
  {
    ReachableInv(c, s);
    InvAt(c, s, j);
    StepSt(c, false, s, a, s', j);
    PhaseAt(c, s, a, s', j);
  }

  // ---------- written lines ----------

  /** Since node `j` last had the line in I or S, a write went through at it. */
  predicate Wrote(tr: seq<System>, k: nat, j: nat)
    requires k < |tr|
  {
    j < |tr[k]| && tr[k][j].st.line != I && tr[k][j].st.line != S
    && (tr[k][j].st.phase == Filling(true) || (k > 0 && Wrote(tr, k - 1, j)))
  }

  lemma RunSized(c: Config, tr: seq<System>, acts: seq<Action>, k: nat)
    requires c.Valid() && Run(c, false, tr, acts) && k < |tr|
    ensures |tr[k]| == c.n && Reachable(c, false, tr[k])
  {
    RunKeeps(c, tr, acts, k);
    forall l | 0 <= l < k ensures Step(c, false, tr[..k + 1][l], acts[..k][l], tr[..k + 1][l + 1]) {
      RunStep(c, false, tr, acts, l);
    }
    assert Run(c, false, tr[..k + 1], acts[..k]) && tr[..k + 1][k] == tr[k];
  }

  /** M is the mark of a written line: of two exclusive states, M if and only if a write went through since
      the node got the line, and E if and only if none did. */
  lemma {:induction false} WrittenIff(c: Config, tr: seq<System>, acts: seq<Action>, k: nat, j: nat)
    requires c.Valid() && Run(c, false, tr, acts) && k < |tr| && j < c.n
    ensures |tr[k]| == c.n && (tr[k][j].st.line == M <==> Wrote(tr, k, j))
  {
    RunSized(c, tr, acts, k);
    if k > 0 {
      WrittenIff(c, tr, acts, k - 1, j);
      RunSized(c, tr, acts, k - 1);
      RunStep(c, false, tr, acts, k - 1);
      LineDiagram(c, tr[k - 1], acts[k - 1], tr[k], j);
      PhaseDiagram(c, tr[k - 1], acts[k - 1], tr[k], j);
    }
  }

  // ---------- the states of MSI ----------

  predicate PlainDir(dir: Option<Entry>) { dir.Some? ==> !dir.value.status.Exclusive? }

  predicate PlainSends(sends: seq<Send>) { forall x :: x in sends ==> !x.msg.typ.DataValueReplyE? }

  /** Nothing of the node tells of an exclusive clean copy. */
  predicate ThreeStates(x: Node) {
    && x.st.line != E && PlainDir(x.st.dir)
    && forall m :: m in x.inbox ==> !m.typ.DataValueReplyE?
  }

  lemma {:induction false} InvalidatesPlain(c: Config, me: nat, mask: set<nat>, k: nat)
    requires k <= c.n
    ensures PlainSends(InvalidateAll(c, me, mask, k))
    decreases c.n - k
  {
    if k < c.n { InvalidatesPlain(c, me, mask, k + 1); }
  }

  lemma ServePlain(c: Config, me: nat, st: Slice, m: Msg)
    requires c.proto == Msi && IsRequest(m.typ) && PlainDir(st.dir)
    ensures var o := Serve(c, me, st, m); PlainDir(o.st.dir) && PlainSends(o.sends) && o.st.line == st.line
  {
    InvalidatesPlain(c, me, DirLookup(st.dir).mask, 0);
    InvalidatesPlain(c, me, DirLookup(st.dir).mask - {m.src}, 0);
  }

  lemma {:induction false} DrainPlain(c: Config, me: nat, st: Slice)
    requires c.proto == Msi && PlainDir(st.dir)
    ensures var o := Drain(c, me, st); PlainDir(o.st.dir) && PlainSends(o.sends) && o.st.line == st.line
    decreases |st.blocked|
  {
    if st.blocked != [] && !st.blocked[0].serviced && IsRequest(st.blocked[0].msg.typ) {
      var st1 := st.(blocked := st.blocked[1..]);
      ServePlain(c, me, st1, st.blocked[0].msg);
      var o := Serve(c, me, st1, st.blocked[0].msg);
      ServeLine(c, me, st1, st.blocked[0].msg);
      if o.handled { DrainPlain(c, me, o.st); }
    }
  }

  predicate PlainOut(o: Out) { PlainDir(o.st.dir) && PlainSends(o.sends) && o.st.line != E }

  lemma ThenDrainPlain(c: Config, me: nat, st: Slice, a: seq<Send>)
    requires c.proto == Msi && PlainDir(st.dir) && PlainSends(a) && st.line != E
    ensures var o := Drain(c, me, st); PlainOut(o.(sends := a + o.sends))
  {
    DrainPlain(c, me, st);
  }

  lemma WriteBackPlain(c: Config, me: nat, st: Slice, src: nat)
    requires c.proto == Msi && PlainDir(st.dir) && st.line != E
    ensures PlainOut(HandleWriteBack(c, me, st, src))
  {
    if st.blocked != [] {
      var m, st1 := st.blocked[0].msg, st.(blocked := st.blocked[1..]);
      var a := [Send(m.src, Msg(me, DataValueReply))];
      ThenDrainPlain(c, me, st1.(dir := DirUpdate(st.dir, Modified, m.src)), a);
      ThenDrainPlain(c, me, st1.(dir := DirUpdate(Some(DirLookup(st.dir)), Shared, m.src)), a);
    }
  }

  lemma AckPlain(c: Config, me: nat, st: Slice)
    requires c.proto == Msi && PlainDir(st.dir) && st.line != E
    ensures PlainOut(HandleInvalidateAck(c, me, st))
  {
    if st.blocked != [] {
      var m := st.blocked[0].msg;
      var st1 := st.(pending := None, blocked := st.blocked[1..], dir := DirUpdate(st.dir, Modified, m.src));
      ThenDrainPlain(c, me, st1, [Send(m.src, Msg(me, DataValueReply))]);
      ThenDrainPlain(c, me, st1, [Send(m.src, Msg(me, InvalidateOtherAck))]);
      ThenDrainPlain(c, me, st1, []);
    }
  }

  lemma CacheAckPlain(c: Config, me: nat, st: Slice, typ: MsgType)
    requires c.proto == Msi && PlainDir(st.dir) && st.line != E
    ensures PlainOut(HandleCacheAck(c, me, st, typ))
  {
    if st.blocked != [] {
      var m := st.blocked[0].msg;
      var reply := if m.typ == Invalidate then InvalidateAck else DataWriteBack;
      ThenDrainPlain(c, me, st.(blocked := st.blocked[1..]), [Send(m.src, Msg(me, reply))]);
    }
  }

  lemma HandlePlain(c: Config, me: nat, st: Slice, m: Msg)
    requires c.proto == Msi && PlainDir(st.dir) && st.line != E && !m.typ.DataValueReplyE?
    ensures PlainOut(Handle(c, me, st, m))
  {
    if IsRequest(m.typ) { ServePlain(c, me, st, m); }
    else if m.typ.DataWriteBack? { WriteBackPlain(c, me, st, m.src); }
    else if m.typ.InvalidateAck? { AckPlain(c, me, st); }
    else if m.typ.CacheInvalidateAck? || m.typ.CacheFetchAck? { CacheAckPlain(c, me, st, m.typ); }
  }

  lemma ReceivePlain(c: Config, me: nat, st: Slice, m: Msg)
    requires c.proto == Msi && PlainDir(st.dir) && st.line != E && !m.typ.DataValueReplyE?
    ensures PlainOut(Receive(c, me, st, m))
  {
    HandlePlain(c, me, st, m);
  }

  lemma {:induction false} PushPlain(s: System, sends: seq<Send>)
    requires (forall x :: x in sends ==> x.dst < |s|) && PlainSends(sends)
    requires forall j :: 0 <= j < |s| ==> ThreeStates(s[j])
    ensures forall j :: 0 <= j < |s| ==> ThreeStates(Push(s, sends)[j])
    decreases |sends|
  {
    if sends != [] {
      var x := sends[0];
      assert x in sends;
      assert PlainSends(sends[1..]);
      PushPlain(s[x.dst := s[x.dst].(inbox := s[x.dst].inbox + [x.msg])], sends[1..]);
    }
  }

  lemma OutcomePlain(c: Config, s: System, a: Action, strays: bool)
    requires c.proto == Msi && Enabled(c, strays, s, a) && ThreeStates(s[a.i])
    ensures PlainOut(Outcome(c, s, a))
  {
    match a
    case Deliver(i) => ReceivePlain(c, i, s[i].st, s[i].inbox[0]);
    case CacheAnswers(i) =>
    case Start(i, write) =>
    case Evict(i) => ReceivePlain(c, i, s[i].st, Msg(0, CacheEvictionAlert));
  }

  lemma StepPlain(c: Config, strays: bool, s: System, a: Action, s': System)
    requires c.proto == Msi && Step(c, strays, s, a, s') && forall j :: 0 <= j < |s| ==> ThreeStates(s[j])
    ensures |s'| == |s| && forall j :: 0 <= j < |s| ==> ThreeStates(s'[j])
  {
    OutcomePlain(c, s, a, strays);
    var o := Outcome(c, s, a);
    var x := Node(o.st, if a.Deliver? then s[a.i].inbox[1..] else s[a.i].inbox,
                  (if a.CacheAnswers? then s[a.i].cacheQ[1..] else s[a.i].cacheQ) + o.cache);
    assert ThreeStates(x);
    PushPlain(s[a.i := x], o.sends);
  }

  lemma {:induction false} RunPlain(c: Config, strays: bool, tr: seq<System>, acts: seq<Action>, k: nat)
    requires c.proto == Msi && Run(c, strays, tr, acts) && k < |tr|
    ensures forall j :: 0 <= j < |tr[k]| ==> ThreeStates(tr[k][j])
  {
    if k > 0 {
      RunPlain(c, strays, tr, acts, k - 1);
      RunStep(c, strays, tr, acts, k - 1);
      StepPlain(c, strays, tr[k - 1], acts[k - 1], tr[k]);
    }
  }

  /** In MSI no line is E, no directory entry EXCLUSIVE, and no DATA_VALUE_REPLY_E is ever sent, whatever the
      caches report. */
  lemma MsiThreeStates(c: Config, strays: bool, s: System)
    requires c.proto == Msi && Reachable(c, strays, s)
    ensures forall j :: 0 <= j < |s| ==> ThreeStates(s[j])
  {
    var tr, acts :| Run(c, strays, tr, acts) && tr[|tr| - 1] == s;
    RunPlain(c, strays, tr, acts, |tr| - 1);
  }
}
