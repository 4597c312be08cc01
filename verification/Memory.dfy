/** The coherence protocol over all addresses at once.  A node runs one operation at a time and
    has one queue of incoming messages and one of cache requests, shared by all addresses; every
    handler touches only the map entries of its message's address.  Seen at any one address the
    system takes steps of the single-address protocol, so its properties hold at every address. */
module Memory {
  import opened Common
  import opened Coherence
  import opened CoherenceSafety
  import opened CoherenceTokens

  type Addr = nat

  /** 48-bit addresses, 2^bits nodes. */
  datatype Machine = Machine(bits: nat, proto: Protocol) {
    predicate Valid() { bits <= 48 }
    function Nodes(): nat { Pow2(bits) }
  }

  const AddressLimit: nat := 0x1_0000_0000_0000

  predicate Address(a: Addr) { a < AddressLimit }

  lemma AddressBits()
    ensures Pow2(48) == AddressLimit
  {
    assert Pow2(8) == 0x100;
    Pow2Add(8, 8);
    Pow2Add(16, 16);
    Pow2Add(32, 16);
  }

  /** `getHomeNodeIdByAddr`: the top `bits` of the 48 address bits. */
  function HomeNode(mc: Machine, a: Addr): nat
    requires mc.Valid()
  {
    Quotient(a, Pow2(48 - mc.bits))
  }

  function Quotient(a: nat, d: nat): nat
    requires d > 0
  {
    a / d
  }

  /** Every address has a home among the nodes. */
  lemma HomeNodeExists(mc: Machine, a: Addr)
    requires mc.Valid() && Address(a)
    ensures HomeNode(mc, a) < mc.Nodes()
  {
    var low := Pow2(48 - mc.bits);
    AddressBits();
    Pow2Add(mc.bits, 48 - mc.bits);
    assert a < mc.Nodes() * low;
    DivBelow(a, mc.Nodes(), low);
  }

  /** Each node is home to an equal share of the addresses, in one piece and in the order of the nodes. */
  lemma HomeShare(mc: Machine, a: Addr, h: nat)
    requires mc.Valid() && Address(a)
    ensures HomeNode(mc, a) == h <==> h * Pow2(48 - mc.bits) <= a < (h + 1) * Pow2(48 - mc.bits)
  {
    var d := Pow2(48 - mc.bits);
    ShareOf(a, d, h);
    assert (h + 1) * d == h * d + d;
  }

  lemma ShareOf(a: nat, d: nat, h: nat)
    requires d > 0
    ensures a / d == h <==> h * d <= a < h * d + d
  {
    assert a == d * (a / d) + a % d;
    assert h * d == d * h;
    if h * d <= a < h * d + d { DivModUnique(a, d, h, a - d * h); }
  }

  lemma DivBelow(a: nat, n: nat, d: nat)
    requires d > 0 && a < n * d
    ensures a / d < n
  {
    var q := a / d;
    assert q * d <= a;
    assert q >= n ==> q * d >= n * d;
  }

  function At(mc: Machine, a: Addr): Config
    requires mc.Valid()
  {
    Config(mc.Nodes(), HomeNode(mc, a), mc.proto)
  }

  datatype AMsg = AMsg(addr: Addr, msg: Msg)
  datatype AReq = AReq(addr: Addr, req: CacheReq)

  /** `lines`, `dir`, `pending` and `blocked` are `cacheLineStatus`, the directory,
      `pendingInvAckCount` and `blockedMsgMap`; absent keys mean what they mean there. */
  datatype Cpu = Cpu(lines: map<Addr, Line>, dir: map<Addr, Entry>, pending: map<Addr, int>,
                     blocked: map<Addr, seq<Blocked>>, opAddr: Addr, phase: Phase,
                     inbox: seq<AMsg>, cacheQ: seq<AReq>)
  type Memory = seq<Cpu>

  function Get<T>(m: map<Addr, T>, a: Addr): Option<T> { if a in m then Some(m[a]) else None }
  function Put<T>(m: map<Addr, T>, a: Addr, x: Option<T>): map<Addr, T> {
    if x.None? then m - {a} else m[a := x.value]
  }

  function SliceAt(x: Cpu, a: Addr): Slice {
    Slice(if a in x.lines then x.lines[a] else I, Get(x.dir, a), Get(x.pending, a),
          if a in x.blocked then x.blocked[a] else [],
          if x.opAddr == a then x.phase else Idle)
  }

  function PutSlice(x: Cpu, a: Addr, st: Slice): Cpu {
    x.(lines := Put(x.lines, a, if st.line == I then None else Some(st.line)),
       dir := Put(x.dir, a, st.dir),
       pending := Put(x.pending, a, st.pending),
       blocked := Put(x.blocked, a, if st.blocked == [] then None else Some(st.blocked)),
       phase := if x.opAddr == a then st.phase else x.phase)
  }

  lemma PutSliceAt(x: Cpu, a: Addr, st: Slice, b: Addr)
    requires x.opAddr == a || st.phase == Idle
    ensures SliceAt(PutSlice(x, a, st), b) == if b == a then st else SliceAt(x, b)
  {
  }

  // ---------- steps ----------

  function PushAll(s: Memory, a: Addr, sends: seq<Send>): (r: Memory)
    requires forall x :: x in sends ==> x.dst < |s|
    ensures |r| == |s|
    decreases |sends|
  {
    if sends == [] then s
    else
      var x := sends[0];
      assert x in sends;
      PushAll(s[x.dst := s[x.dst].(inbox := s[x.dst].inbox + [AMsg(a, x.msg)])], a, sends[1..])
  }

  function Tagged(a: Addr, q: seq<CacheReq>): seq<AReq> {
    if q == [] then [] else [AReq(a, q[0])] + Tagged(a, q[1..])
  }

  datatype MemAction =
    | MemDeliver(i: nat)
    | MemCacheAnswers(i: nat)
    | MemStart(i: nat, addr: Addr, write: bool)
    | MemEvict(i: nat, addr: Addr)

  /** A rolled back operation is retried before any other. */
  predicate MemEnabled(mc: Machine, s: Memory, act: MemAction) {
    act.i < |s| &&
    match act
    case MemDeliver(i) => s[i].inbox != []
    case MemCacheAnswers(i) => s[i].cacheQ != []
    case MemStart(i, a, write) =>
      Address(a) && (s[i].phase == Idle || (s[i].phase == Retry && a == s[i].opAddr && write))
    case MemEvict(i, a) => Address(a) && SliceAt(s[i], a).line != I
  }

  function AddrOf(s: Memory, act: MemAction): Addr
    requires act.i < |s|
    requires act.MemDeliver? ==> s[act.i].inbox != []
    requires act.MemCacheAnswers? ==> s[act.i].cacheQ != []
  {
    match act
    case MemDeliver(i) => s[i].inbox[0].addr
    case MemCacheAnswers(i) => s[i].cacheQ[0].addr
    case MemStart(_, a, _) => a
    case MemEvict(_, a) => a
  }

  /** The same action seen at its address. */
  function Local(act: MemAction): Action {
    match act
    case MemDeliver(i) => Deliver(i)
    case MemCacheAnswers(i) => CacheAnswers(i)
    case MemStart(i, _, write) => Start(i, write)
    case MemEvict(i, _) => Evict(i)
  }

  /** The node as it enters the handler: starting an operation makes its address current. */
  function Entering(x: Cpu, act: MemAction): Cpu {
    if act.MemStart? then x.(opAddr := act.addr) else x
  }

  function MemOutcome(mc: Machine, s: Memory, act: MemAction): Out
    requires mc.Valid() && act.i < |s|
    requires act.MemDeliver? ==> s[act.i].inbox != []
    requires act.MemCacheAnswers? ==> s[act.i].cacheQ != []
  {
    var i := act.i;
    var a := AddrOf(s, act);
    var st := SliceAt(Entering(s[i], act), a);
    match act
    case MemDeliver(_) => Receive(At(mc, a), i, st, s[i].inbox[0].msg)
    case MemCacheAnswers(_) => Coherence.Done(st, [Send(i, Msg(i, CacheAnswer(s[i].cacheQ[0].req)))], [], true)
    case MemStart(_, _, write) => Issue(At(mc, a), i, st, write)
    case MemEvict(_, _) => Receive(At(mc, a), i, st, Msg(0, CacheEvictionAlert))
  }

  function MemAfter(s: Memory, act: MemAction, o: Out): Memory
    requires act.i < |s| && (forall x :: x in o.sends ==> x.dst < |s|)
    requires act.MemDeliver? ==> s[act.i].inbox != []
    requires act.MemCacheAnswers? ==> s[act.i].cacheQ != []
  {
    var x, a := Entering(s[act.i], act), AddrOf(s, act);
    var y := PutSlice(x, a, o.st).(
               inbox := if act.MemDeliver? then x.inbox[1..] else x.inbox,
               cacheQ := (if act.MemCacheAnswers? then x.cacheQ[1..] else x.cacheQ) + Tagged(a, o.cache));
    PushAll(s[act.i := y], a, o.sends)
  }

  ghost predicate MemStep(mc: Machine, s: Memory, act: MemAction, s': Memory) {
    && mc.Valid() && MemEnabled(mc, s, act)
    && var o := MemOutcome(mc, s, act);
       (forall x :: x in o.sends ==> x.dst < |s|) && s' == MemAfter(s, act, o)
  }

  function MemInit(mc: Machine): Memory {
    seq(mc.Nodes(), _ => Cpu(map[], map[], map[], map[], 0, Idle, [], []))
  }

  ghost predicate MemRun(mc: Machine, tr: seq<Memory>, acts: seq<MemAction>) {
    && |tr| == |acts| + 1 && tr[0] == MemInit(mc)
    && forall k: nat {:trigger StepAt(mc, tr, acts, k)} :: k < |acts| ==> StepAt(mc, tr, acts, k)
  }

  ghost predicate StepAt(mc: Machine, tr: seq<Memory>, acts: seq<MemAction>, k: nat)
    requires k < |acts| && |tr| == |acts| + 1
  {
    MemStep(mc, tr[k], acts[k], tr[k + 1])
  }

  ghost predicate MemReachable(mc: Machine, s: Memory) {
    exists tr, acts :: MemRun(mc, tr, acts) && tr[|tr| - 1] == s
  }

  // ---------- the view of one address ----------

  function MsgsAt(q: seq<AMsg>, a: Addr): seq<Msg> {
    if q == [] then [] else (if q[0].addr == a then [q[0].msg] else []) + MsgsAt(q[1..], a)
  }

  function ReqsAt(q: seq<AReq>, a: Addr): seq<CacheReq> {
    if q == [] then [] else (if q[0].addr == a then [q[0].req] else []) + ReqsAt(q[1..], a)
  }

  function NodeAt(x: Cpu, a: Addr): Node {
    Node(SliceAt(x, a), MsgsAt(x.inbox, a), ReqsAt(x.cacheQ, a))
  }

  function SystemAt(s: Memory, a: Addr): (r: System)
    ensures |r| == |s|
  {
    seq(|s|, i requires 0 <= i < |s| => NodeAt(s[i], a))
  }

  lemma {:induction false} MsgsAtConcat(p: seq<AMsg>, q: seq<AMsg>, a: Addr)
    ensures MsgsAt(p + q, a) == MsgsAt(p, a) + MsgsAt(q, a)
    decreases |p|
  {
    if p == [] {
      assert p + q == q;
    } else {
      assert (p + q)[0] == p[0] && (p + q)[1..] == p[1..] + q;
      MsgsAtConcat(p[1..], q, a);
      var x: seq<Msg> := if p[0].addr == a then [p[0].msg] else [];
      assert x + (MsgsAt(p[1..], a) + MsgsAt(q, a)) == x + MsgsAt(p[1..], a) + MsgsAt(q, a);
    }
  }

  lemma {:induction false} ReqsAtConcat(p: seq<AReq>, q: seq<AReq>, a: Addr)
    ensures ReqsAt(p + q, a) == ReqsAt(p, a) + ReqsAt(q, a)
    decreases |p|
  {
    if p == [] {
      assert p + q == q;
    } else {
      var front := if p[0].addr == a then [p[0].req] else [];
      assert (p + q)[1..] == p[1..] + q;
      ReqsAtConcat(p[1..], q, a);
      assert front + (ReqsAt(p[1..], a) + ReqsAt(q, a)) == (front + ReqsAt(p[1..], a)) + ReqsAt(q, a);
    }
  }

  lemma {:induction false} ReqsAtTagged(q: seq<CacheReq>, b: Addr, a: Addr)
    ensures ReqsAt(Tagged(b, q), a) == if b == a then q else []
    decreases |q|
  {
    if q != [] {
      assert Tagged(b, q)[1..] == Tagged(b, q[1..]);
      ReqsAtTagged(q[1..], b, a);
    }
  }

  function Queued(s: Memory, b: Addr, x: Send): Memory
    requires x.dst < |s|
  {
    s[x.dst := s[x.dst].(inbox := s[x.dst].inbox + [AMsg(b, x.msg)])]
  }

  lemma QueuedAt(s: Memory, b: Addr, x: Send, a: Addr)
    requires x.dst < |s|
    ensures var u := SystemAt(s, a);
            SystemAt(Queued(s, b, x), a)
            == if b == a then u[x.dst := u[x.dst].(inbox := u[x.dst].inbox + [x.msg])] else u
  {
    var u, y := SystemAt(s, a), s[x.dst];
    MsgsAtConcat(y.inbox, [AMsg(b, x.msg)], a);
    assert MsgsAt([AMsg(b, x.msg)], a) == if b == a then [x.msg] else [] by { assert [AMsg(b, x.msg)][1..] == []; }
    var z := y.(inbox := y.inbox + [AMsg(b, x.msg)]);
    assert MsgsAt(y.inbox, a) + [] == MsgsAt(y.inbox, a);
    assert NodeAt(z, a) == if b == a then u[x.dst].(inbox := u[x.dst].inbox + [x.msg]) else u[x.dst];
  }

  /** Sending at one address is invisible at every other. */
  lemma {:induction false} PushAllAt(s: Memory, b: Addr, sends: seq<Send>, a: Addr)
    requires forall x :: x in sends ==> x.dst < |s|
    ensures SystemAt(PushAll(s, b, sends), a) == if b == a then Push(SystemAt(s, a), sends) else SystemAt(s, a)
    decreases |sends|
  {
    if sends != [] {
      var x := sends[0];
      assert x in sends;
      QueuedAt(s, b, x, a);
      PushAllAt(Queued(s, b, x), b, sends[1..], a);
    }
  }

  // ---------- handlers do not start or end operations of other addresses ----------

  lemma {:induction false} DrainPhase(c: Config, me: nat, st: Slice)
    ensures Drain(c, me, st).st.phase == st.phase
    decreases |st.blocked|
  {
    if st.blocked != [] && !st.blocked[0].serviced && IsRequest(st.blocked[0].msg.typ) {
      var st1 := st.(blocked := st.blocked[1..]);
      var o := Serve(c, me, st1, st.blocked[0].msg);
      assert o.st.phase == st.phase && o.st.blocked == st1.blocked;
      if o.handled { DrainPhase(c, me, o.st); }
    }
  }

  lemma ReceiveIdle(c: Config, me: nat, st: Slice, m: Msg)
    requires st.phase == Idle && Receive(c, me, st, m).ok
    ensures Receive(c, me, st, m).st.phase == Idle
  {
    HandleIdle(c, me, st, m);
  }

  lemma HandleIdle(c: Config, me: nat, st: Slice, m: Msg)
    requires st.phase == Idle && Handle(c, me, st, m).ok
    ensures Handle(c, me, st, m).st.phase == Idle
  {
    forall st1: Slice ensures Drain(c, me, st1).st.phase == st1.phase { DrainPhase(c, me, st1); }
  }

  /** Handlers of one address leave the rest of the node alone. */
  lemma OutcomePhase(mc: Machine, s: Memory, act: MemAction)
    requires mc.Valid() && MemEnabled(mc, s, act) && MemOutcome(mc, s, act).ok
    ensures Entering(s[act.i], act).opAddr == AddrOf(s, act) || MemOutcome(mc, s, act).st.phase == Idle
  {
    var i, a := act.i, AddrOf(s, act);
    var st := SliceAt(Entering(s[i], act), a);
    if st.phase == Idle && !act.MemStart? {
      if act.MemDeliver? { ReceiveIdle(At(mc, a), i, st, s[i].inbox[0].msg); }
      if act.MemEvict? { ReceiveIdle(At(mc, a), i, st, Msg(0, CacheEvictionAlert)); }
    }
  }

  // ---------- refinement ----------

  /** At its own address the action is the same action of the single-address protocol. */
  lemma ActionHere(mc: Machine, s: Memory, act: MemAction, a: Addr)
    requires mc.Valid() && MemEnabled(mc, s, act) && a == AddrOf(s, act)
    ensures Enabled(At(mc, a), false, SystemAt(s, a), Local(act))
    ensures MemOutcome(mc, s, act) == Outcome(At(mc, a), SystemAt(s, a), Local(act))
  {
  }

  function NodeAfter(s: Memory, act: MemAction, o: Out): Cpu
    requires act.i < |s|
    requires act.MemDeliver? ==> s[act.i].inbox != []
    requires act.MemCacheAnswers? ==> s[act.i].cacheQ != []
  {
    var x, a := Entering(s[act.i], act), AddrOf(s, act);
    PutSlice(x, a, o.st).(
      inbox := if act.MemDeliver? then x.inbox[1..] else x.inbox,
      cacheQ := (if act.MemCacheAnswers? then x.cacheQ[1..] else x.cacheQ) + Tagged(a, o.cache))
  }

  lemma SliceAfterAt(mc: Machine, s: Memory, act: MemAction, o: Out, b: Addr)
    requires mc.Valid() && MemEnabled(mc, s, act)
    requires Entering(s[act.i], act).opAddr == AddrOf(s, act) || o.st.phase == Idle
    ensures SliceAt(NodeAfter(s, act, o), b) == if b == AddrOf(s, act) then o.st else SliceAt(s[act.i], b)
  {
    var x, a := Entering(s[act.i], act), AddrOf(s, act);
    PutSliceAt(x, a, o.st, b);
    assert SliceAt(NodeAfter(s, act, o), b) == SliceAt(PutSlice(x, a, o.st), b);
  }

  lemma InboxAfterAt(s: Memory, act: MemAction, o: Out, b: Addr)
    requires act.i < |s| && (act.MemDeliver? ==> s[act.i].inbox != [])
    requires act.MemCacheAnswers? ==> s[act.i].cacheQ != []
    ensures var q, r := MsgsAt(s[act.i].inbox, b), MsgsAt(NodeAfter(s, act, o).inbox, b);
            if act.MemDeliver? && b == AddrOf(s, act) then q != [] && r == q[1..] else r == q
  {
    var x := s[act.i];
    if act.MemDeliver? {
      if b == AddrOf(s, act) {
        assert ([x.inbox[0].msg] + MsgsAt(x.inbox[1..], b))[1..] == MsgsAt(x.inbox[1..], b);
      } else {
        assert [] + MsgsAt(x.inbox[1..], b) == MsgsAt(x.inbox[1..], b);
      }
    }
  }

  lemma ReqsAtFront(q: seq<AReq>, a: Addr)
    requires q != []
    ensures if q[0].addr == a then ReqsAt(q, a) != [] && ReqsAt(q, a)[1..] == ReqsAt(q[1..], a)
            else ReqsAt(q, a) == ReqsAt(q[1..], a)
  {
    assert [] + ReqsAt(q[1..], a) == ReqsAt(q[1..], a);
    assert ([q[0].req] + ReqsAt(q[1..], a))[1..] == ReqsAt(q[1..], a);
  }

  lemma CacheAfterAt(s: Memory, act: MemAction, o: Out, b: Addr)
    requires act.i < |s| && (act.MemDeliver? ==> s[act.i].inbox != [])
    requires act.MemCacheAnswers? ==> s[act.i].cacheQ != []
    ensures var q, r := ReqsAt(s[act.i].cacheQ, b), ReqsAt(NodeAfter(s, act, o).cacheQ, b);
            var here := b == AddrOf(s, act);
            && (act.MemCacheAnswers? && here ==> q != [])
            && r == (if act.MemCacheAnswers? && here then q[1..] else q) + if here then o.cache else []
  {
    var x, a := s[act.i], AddrOf(s, act);
    var q := if act.MemCacheAnswers? then x.cacheQ[1..] else x.cacheQ;
    ReqsAtConcat(q, Tagged(a, o.cache), b);
    ReqsAtTagged(o.cache, a, b);
    if act.MemCacheAnswers? { ReqsAtFront(x.cacheQ, b); }
  }

  /** The acting node, seen at address `b`. */
  lemma NodeAfterAt(mc: Machine, s: Memory, act: MemAction, o: Out, b: Addr)
    requires mc.Valid() && MemEnabled(mc, s, act)
    requires Entering(s[act.i], act).opAddr == AddrOf(s, act) || o.st.phase == Idle
    ensures var x, y := NodeAt(s[act.i], b), NodeAt(NodeAfter(s, act, o), b);
            if b == AddrOf(s, act) then
              && (act.MemDeliver? ==> x.inbox != []) && (act.MemCacheAnswers? ==> x.cacheQ != [])
              && y == Node(o.st, if act.MemDeliver? then x.inbox[1..] else x.inbox,
                           (if act.MemCacheAnswers? then x.cacheQ[1..] else x.cacheQ) + o.cache)
            else y == x
  {
    SliceAfterAt(mc, s, act, o, b);
    InboxAfterAt(s, act, o, b);
    CacheAfterAt(s, act, o, b);
    if b != AddrOf(s, act) { assert ReqsAt(s[act.i].cacheQ, b) + [] == ReqsAt(s[act.i].cacheQ, b); }
  }

  lemma ReplacedAt(s: Memory, i: nat, x: Cpu, b: Addr)
    requires i < |s|
    ensures SystemAt(s[i := x], b) == SystemAt(s, b)[i := NodeAt(x, b)]
  {
  }

  lemma SystemAfterAt(mc: Machine, s: Memory, act: MemAction, s': Memory, b: Addr)
    requires MemStep(mc, s, act, s') && MemOutcome(mc, s, act).ok
    ensures var o := MemOutcome(mc, s, act);
            var t := SystemAt(s, b)[act.i := NodeAt(NodeAfter(s, act, o), b)];
            SystemAt(s', b) == if b == AddrOf(s, act) then Push(t, o.sends) else t
  {
    var o := MemOutcome(mc, s, act);
    var x := NodeAfter(s, act, o);
    PushAllAt(s[act.i := x], AddrOf(s, act), o.sends, b);
    ReplacedAt(s, act.i, x, b);
  }

  /** A step of the whole memory is a step of the protocol at its address... */
  lemma StepHere(mc: Machine, s: Memory, act: MemAction, s': Memory, b: Addr)
    requires MemStep(mc, s, act, s') && MemOutcome(mc, s, act).ok && b == AddrOf(s, act)
    ensures Step(At(mc, b), false, SystemAt(s, b), Local(act), SystemAt(s', b))
  {
    OutcomePhase(mc, s, act);
    NodeAfterAt(mc, s, act, MemOutcome(mc, s, act), b);
    SystemAfterAt(mc, s, act, s', b);
    ActionHere(mc, s, act, b);
  }

  /** ... and no step at any other. */
  lemma StepElsewhere(mc: Machine, s: Memory, act: MemAction, s': Memory, b: Addr)
    requires MemStep(mc, s, act, s') && MemOutcome(mc, s, act).ok && b != AddrOf(s, act)
    ensures SystemAt(s', b) == SystemAt(s, b)
  {
    OutcomePhase(mc, s, act);
    NodeAfterAt(mc, s, act, MemOutcome(mc, s, act), b);
    SystemAfterAt(mc, s, act, s', b);
  }

  /** All operations, messages and requests of the memory are about addresses. */
  ghost predicate Addressed(s: Memory) {
    forall x :: x in s ==>
      && Address(x.opAddr) && (forall m :: m in x.inbox ==> Address(m.addr))
      && (forall r :: r in x.cacheQ ==> Address(r.addr))
  }

  lemma {:induction false} PushAllAddressed(s: Memory, a: Addr, sends: seq<Send>)
    requires Addressed(s) && Address(a) && forall x :: x in sends ==> x.dst < |s|
    ensures Addressed(PushAll(s, a, sends))
    decreases |sends|
  {
    if sends != [] {
      var x := sends[0];
      assert x in sends;
      var y := s[x.dst].(inbox := s[x.dst].inbox + [AMsg(a, x.msg)]);
      assert s[x.dst] in s;
      PushAllAddressed(s[x.dst := y], a, sends[1..]);
    }
  }

  lemma {:induction false} TaggedAddr(a: Addr, q: seq<CacheReq>)
    ensures forall r :: r in Tagged(a, q) ==> r.addr == a
    decreases |q|
  {
    if q != [] { TaggedAddr(a, q[1..]); }
  }

  lemma StepAddressed(mc: Machine, s: Memory, act: MemAction, s': Memory)
    requires MemStep(mc, s, act, s') && Addressed(s)
    ensures Address(AddrOf(s, act)) && Addressed(s')
  {
    var o, a, x := MemOutcome(mc, s, act), AddrOf(s, act), s[act.i];
    var y := NodeAfter(s, act, o);
    assert x in s;
    assert Address(a) by {
      if act.MemDeliver? { assert x.inbox[0] in x.inbox; }
      if act.MemCacheAnswers? { assert x.cacheQ[0] in x.cacheQ; }
    }
    TaggedAddr(a, o.cache);
    PushAllAddressed(s[act.i := y], a, o.sends);
  }

  ghost predicate Everywhere(mc: Machine, s: Memory)
    requires mc.Valid()
  {
    forall a {:trigger SystemAt(s, a)} :: Address(a) ==> Reachable(At(mc, a), false, SystemAt(s, a))
  }

  lemma EnabledAddress(mc: Machine, s: Memory, act: MemAction)
    requires mc.Valid() && Addressed(s) && MemEnabled(mc, s, act)
    ensures Address(AddrOf(s, act))
  {
    assert s[act.i] in s;
    if act.MemDeliver? { assert s[act.i].inbox[0] in s[act.i].inbox; }
    if act.MemCacheAnswers? { assert s[act.i].cacheQ[0] in s[act.i].cacheQ; }
  }

  lemma OutcomeOk(mc: Machine, s: Memory, act: MemAction)
    requires mc.Valid() && Everywhere(mc, s) && Addressed(s) && MemEnabled(mc, s, act)
    ensures var o := MemOutcome(mc, s, act); o.ok && forall x :: x in o.sends ==> x.dst < |s|
  {
    EnabledAddress(mc, s, act);
    var a := AddrOf(s, act);
    HomeNodeExists(mc, a);
    ActionHere(mc, s, act, a);
    AssertionsHold(At(mc, a), SystemAt(s, a), Local(act));
  }

  lemma InitAt(mc: Machine, a: Addr)
    requires mc.Valid()
    ensures Reachable(At(mc, a), false, SystemAt(MemInit(mc), a))
  {
    var s := SystemAt(MemInit(mc), a);
    assert s == Init(At(mc, a));
    ReachInit(At(mc, a), false);
  }

  lemma StepEverywhere(mc: Machine, s: Memory, act: MemAction, s': Memory)
    requires MemStep(mc, s, act, s') && Everywhere(mc, s) && Addressed(s)
    ensures Everywhere(mc, s') && Addressed(s')
  {
    OutcomeOk(mc, s, act);
    StepAddressed(mc, s, act, s');
    forall a | Address(a) ensures Reachable(At(mc, a), false, SystemAt(s', a)) {
      assert Reachable(At(mc, a), false, SystemAt(s, a));
      if a == AddrOf(s, act) {
        StepHere(mc, s, act, s', a);
        ReachStep(At(mc, a), false, SystemAt(s, a), Local(act), SystemAt(s', a));
      } else {
        StepElsewhere(mc, s, act, s', a);
      }
    }
  }

  lemma StartEverywhere(mc: Machine)
    requires mc.Valid()
    ensures Everywhere(mc, MemInit(mc)) && Addressed(MemInit(mc))
  {
    forall a | Address(a) ensures Reachable(At(mc, a), false, SystemAt(MemInit(mc), a)) { InitAt(mc, a); }
  }

  lemma RunStep(mc: Machine, tr: seq<Memory>, acts: seq<MemAction>, k: nat)
    requires MemRun(mc, tr, acts) && 0 < k < |tr|
    ensures MemStep(mc, tr[k - 1], acts[k - 1], tr[k])
  {
    assert StepAt(mc, tr, acts, k - 1);
  }

  lemma NextEverywhere(mc: Machine, tr: seq<Memory>, acts: seq<MemAction>, k: nat)
    requires mc.Valid() && MemRun(mc, tr, acts) && 0 < k < |tr| && Everywhere(mc, tr[k - 1]) && Addressed(tr[k - 1])
    ensures Everywhere(mc, tr[k]) && Addressed(tr[k])
  {
    RunStep(mc, tr, acts, k);
    StepEverywhere(mc, tr[k - 1], acts[k - 1], tr[k]);
  }

  lemma {:induction false} RunEverywhere(mc: Machine, tr: seq<Memory>, acts: seq<MemAction>, k: nat)
    requires mc.Valid() && MemRun(mc, tr, acts) && k < |tr|
    ensures Everywhere(mc, tr[k]) && Addressed(tr[k])
  {
    if k == 0 {
      StartEverywhere(mc);
    } else {
      RunEverywhere(mc, tr, acts, k - 1);
      NextEverywhere(mc, tr, acts, k);
    }
  }

  /** Whatever the memory does, each address goes through a run of the single-address protocol. */
  lemma EachAddressIsARun(mc: Machine, s: Memory)
    requires mc.Valid() && MemReachable(mc, s)
    ensures forall a :: Address(a) ==> Reachable(At(mc, a), false, SystemAt(s, a))
    ensures Addressed(s) && |s| == mc.Nodes()
  {
    var tr, acts :| MemRun(mc, tr, acts) && tr[|tr| - 1] == s;
    RunEverywhere(mc, tr, acts, |tr| - 1);
    RunSize(mc, tr, acts, |tr| - 1);
  }

  lemma {:induction false} RunSize(mc: Machine, tr: seq<Memory>, acts: seq<MemAction>, k: nat)
    requires mc.Valid() && MemRun(mc, tr, acts) && k < |tr|
    ensures |tr[k]| == mc.Nodes()
  {
    if k > 0 {
      RunSize(mc, tr, acts, k - 1);
      RunStep(mc, tr, acts, k);
    }
  }

  // ---------- the properties, for the whole memory ----------

  /** No handler's assertion fails, whichever address the next action concerns. */
  lemma MemAssertionsHold(mc: Machine, s: Memory, act: MemAction)
    requires mc.Valid() && MemReachable(mc, s) && MemEnabled(mc, s, act)
    ensures var o := MemOutcome(mc, s, act); o.ok && forall x :: x in o.sends ==> x.dst < |s|
  {
    EachAddressIsARun(mc, s);
    OutcomeOk(mc, s, act);
  }

  predicate Holds(x: Cpu, a: Addr) { SliceAt(x, a).line != I }
  predicate Writes(x: Cpu, a: Addr) { SliceAt(x, a).line == M || SliceAt(x, a).line == E }

  /** A line that one node may write is in no other node's cache, at every address. */
  lemma MemSingleWriter(mc: Machine, s: Memory, a: Addr, i: nat, j: nat)
    requires mc.Valid() && MemReachable(mc, s) && Address(a) && i < |s| && j < |s| && i != j
    ensures Writes(s[i], a) ==> !Holds(s[j], a)
  {
    EachAddressIsARun(mc, s);
    HomeNodeExists(mc, a);
    SingleWriter(At(mc, a), SystemAt(s, a));
    assert SystemAt(s, a)[i] == NodeAt(s[i], a) && SystemAt(s, a)[j] == NodeAt(s[j], a);
  }

  /** The directory entry of every address is right about every node. */
  lemma MemDirectory(mc: Machine, s: Memory, a: Addr)
    requires mc.Valid() && MemReachable(mc, s) && Address(a)
    ensures At(mc, a).Valid() && |s| == mc.Nodes() && DirectoryAgrees(At(mc, a), SystemAt(s, a))
  {
    EachAddressIsARun(mc, s);
    HomeNodeExists(mc, a);
    DirectoryAgreement(At(mc, a), SystemAt(s, a));
  }

  /** When no message waits at any node, no node waits for anything and no message is blocked. */
  lemma MemNoDeadlock(mc: Machine, s: Memory)
    requires mc.Valid() && MemReachable(mc, s)
    requires forall i :: 0 <= i < |s| ==> s[i].inbox == [] && s[i].cacheQ == []
    ensures forall i :: 0 <= i < |s| ==> s[i].phase.Done()
    ensures forall i, a :: 0 <= i < |s| && Address(a) ==> SliceAt(s[i], a).blocked == []
  {
    EachAddressIsARun(mc, s);
    forall i, a | 0 <= i < |s| && Address(a)
      ensures SliceAt(s[i], a).blocked == [] && SliceAt(s[i], a).phase.Done()
    {
      HomeNodeExists(mc, a);
      NoDeadlock(At(mc, a), SystemAt(s, a));
      assert SystemAt(s, a)[i] == NodeAt(s[i], a);
    }
    forall i | 0 <= i < |s| ensures s[i].phase.Done() {
      assert s[i] in s;
      assert SliceAt(s[i], s[i].opAddr).phase == s[i].phase;
    }
  }
}
