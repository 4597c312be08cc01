/** The protocol handler and directory of one node as the objects they are: maps and queues
    updated in place.  Every method is proved to do exactly what the value-level functions of
    `Coherence` say, so what is proved about those holds of these objects. */
module Handler {
  import opened Common
  import opened Coherence
  import opened Memory
  import opened CoherenceView
  import opened CoherenceHome
  import opened CoherenceSystem
  import opened CoherenceSafety

  /** Directory entry with the bit vector the program keeps. */
  datatype BitEntry = BitEntry(status: DirStatus, bits: seq<bool>)

  function MaskOf(bits: seq<bool>): set<nat> { set i: nat | i < |bits| && bits[i] }

  lemma NoneSkipped(bits: seq<bool>)
    ensures (set i: nat | i < |bits| && bits[i] && i != -1) == MaskOf(bits)
  {
  }

  function EntryOf(e: BitEntry): Entry { Entry(e.status, MaskOf(e.bits)) }

  class Directory {
    const n: nat
    var directory: map<Addr, BitEntry>

    ghost predicate Valid()
      reads this
    {
      forall a :: a in directory ==> |directory[a].bits| == n
    }

    ghost function Entries(): map<Addr, Entry>
      reads this
    {
      map a | a in directory :: EntryOf(directory[a])
    }

    constructor (n: nat)
      ensures Valid() && Entries() == map[] && this.n == n
    {
      this.n := n;
      directory := map[];
    }

    /** The mask in which only `id` is set; no bit for a negative `id`. */
    method Single(id: int) returns (bits: seq<bool>)
      requires -1 <= id < n
      ensures |bits| == n && MaskOf(bits) == if id < 0 then {} else {id}
    {
      bits := [];
      var i := 0;
      while i < n
        invariant 0 <= i <= n && |bits| == i
        invariant forall j :: 0 <= j < i ==> bits[j] == (j == id)
      {
        bits := bits + [i == id];
        i := i + 1;
      }
    }

    /** Looking an absent entry up creates it. */
    method LookUpEntry(addr: Addr) returns (e: BitEntry)
      requires Valid()
      modifies this
      ensures Valid() && |e.bits| == n && addr in directory && directory[addr] == e
      ensures EntryOf(e) == DirLookup(Get(old(Entries()), addr))
      ensures Entries() == old(Entries())[addr := EntryOf(e)]
    {
      if addr !in directory {
        var bits := Single(-1);
        directory := directory[addr := BitEntry(Uncached, bits)];
      }
      e := directory[addr];
    }

    method UpdateEntry(addr: Addr, status: DirStatus, id: nat)
      requires Valid() && id < n
      requires status == Exclusive ==> addr in directory && directory[addr].status == Uncached
      modifies this
      ensures Valid()
      ensures Entries() == Put(old(Entries()), addr, DirUpdate(Get(old(Entries()), addr), status, id))
    {
      if addr !in directory {
        var bits := Single(id);
        directory := directory[addr := BitEntry(status, bits)];
        return;
      }
      if status == Shared {
        var bits := directory[addr].bits[id := true];
        assert MaskOf(bits) == MaskOf(directory[addr].bits) + {id};
        directory := directory[addr := BitEntry(status, bits)];
      }
      if status == Exclusive {
        assert directory[addr].status == Uncached;
        var bits := Single(id);
        directory := directory[addr := BitEntry(status, bits)];
      }
      if status == Modified {
        var bits := Single(id);
        directory := directory[addr := BitEntry(status, bits)];
      }
      if status == Uncached {
        directory := directory - {addr};
      }
    }
  }

  datatype Sent = Sent(dst: nat, msg: AMsg)

  function Texts(a: Addr, sends: seq<Send>): seq<Sent> {
    if sends == [] then [] else [Sent(sends[0].dst, AMsg(a, sends[0].msg))] + Texts(a, sends[1..])
  }

  lemma {:induction false} TextsConcat(a: Addr, p: seq<Send>, q: seq<Send>)
    ensures Texts(a, p + q) == Texts(a, p) + Texts(a, q)
    decreases |p|
  {
    if p == [] { assert p + q == q; } else { assert (p + q)[1..] == p[1..] + q; TextsConcat(a, p[1..], q); }
  }

  lemma TextsOn(out: seq<Sent>, a: Addr, p: seq<Send>, q: seq<Send>, r: seq<Send>)
    ensures out + Texts(a, p) + Texts(a, q) == out + Texts(a, p + q)
    ensures p + (q + r) == (p + q) + r
  {
    TextsConcat(a, p, q);
  }

  /** The node after outcome `o` of a handler for address `a`. */
  function Apply(x: Cpu, a: Addr, o: Out): Cpu {
    PutSlice(x, a, o.st).(cacheQ := x.cacheQ + Tagged(a, o.cache))
  }

  lemma PutPut<T>(m: map<Addr, T>, a: Addr, x: Option<T>, y: Option<T>)
    ensures Get(Put(m, a, x), a) == x && Put(Put(m, a, x), a, y) == Put(m, a, y)
    ensures Put(m, a, Get(m, a)) == m
  {
  }

  lemma PutBack<T>(m: map<Addr, T>, m': map<Addr, T>, a: Addr)
    requires m' - {a} == m - {a}
    ensures m' == Put(m, a, Get(m', a))
  {
    forall k | k in m' && k != a ensures k in m && m'[k] == m[k] { assert k in m' - {a}; }
    forall k | k in m && k != a ensures k in m' { assert k in m - {a}; }
  }

  /** Nothing stored that means the same as no entry. */
  ghost predicate Tidy(x: Cpu) {
    && (forall a :: a in x.lines ==> x.lines[a] != I)
    && (forall a :: a in x.blocked ==> x.blocked[a] != [])
  }

  lemma AppliedAt(x: Cpu, a: Addr, o: Out)
    ensures Get(Apply(x, a, o).blocked, a) == if o.st.blocked == [] then None else Some(o.st.blocked)
  {
  }

  /** What was applied, with the message then kept in the queue. */
  lemma BlockedToo(x: Cpu, y: Cpu, z: Cpu, a: Addr, o: Out, b: Blocked)
    requires y == Apply(x, a, o)
    requires z == y.(blocked := y.blocked[a := Block(if a in y.blocked then y.blocked[a] else [], b)])
    ensures z == Apply(x, a, o.(st := o.st.(blocked := Block(o.st.blocked, b))))
  {
  }

  /** A map written at `a` as the slice says, or left alone where the slice is. */
  predicate Written<T(==)>(m: map<Addr, T>, m': map<Addr, T>, a: Addr, x: Option<T>) {
    m' == Put(m, a, x) || (m' == m && Get(m, a) == x)
  }

  lemma Landed(x: Cpu, y: Cpu, a: Addr, o: Out)
    requires Written(x.lines, y.lines, a, if o.st.line == I then None else Some(o.st.line))
    requires Written(x.dir, y.dir, a, o.st.dir)
    requires Written(x.pending, y.pending, a, o.st.pending)
    requires Written(x.blocked, y.blocked, a, if o.st.blocked == [] then None else Some(o.st.blocked))
    requires x.opAddr == y.opAddr && y.phase == (if x.opAddr == a then o.st.phase else x.phase)
    requires y.inbox == x.inbox && y.cacheQ == x.cacheQ + Tagged(a, o.cache)
    ensures y == Apply(x, a, o)
  {
  }

  lemma PutOff<T>(m: map<Addr, T>, a: Addr, x: Option<T>)
    ensures Put(m, a, x) - {a} == m - {a} && Get(Put(m, a, x), a) == x
  {
  }

  lemma LandedAt(x: Cpu, y: Cpu, a: Addr, o: Out)
    requires y.lines - {a} == x.lines - {a} && y.dir - {a} == x.dir - {a}
    requires y.pending - {a} == x.pending - {a} && y.blocked - {a} == x.blocked - {a}
    requires SliceAt(y, a) == o.st.(phase := SliceAt(y, a).phase)
    requires a in y.lines ==> y.lines[a] != I
    requires a in y.blocked ==> y.blocked[a] != []
    requires x.opAddr == y.opAddr && y.phase == (if x.opAddr == a then o.st.phase else x.phase)
    requires y.inbox == x.inbox && y.cacheQ == x.cacheQ + Tagged(a, o.cache)
    ensures y == Apply(x, a, o)
  {
    PutBack(x.lines, y.lines, a);
    PutBack(x.dir, y.dir, a);
    PutBack(x.pending, y.pending, a);
    PutBack(x.blocked, y.blocked, a);
  }

  /** Serving a request does not look at the queue it came from. */
  lemma ServeBlocked(c: Coherence.Config, me: nat, st: Slice, q: seq<Blocked>, m: Msg)
    requires IsRequest(m.typ)
    ensures var o, r := Serve(c, me, st, m), Serve(c, me, st.(blocked := q), m);
            r == o.(st := o.st.(blocked := q))
  {
  }

  lemma ServeKeeps(c: Coherence.Config, me: nat, st: Slice, m: Msg)
    requires IsRequest(m.typ)
    ensures var o := Serve(c, me, st, m); o.st == st.(dir := o.st.dir, pending := o.st.pending) && o.cache == []
  {
  }

  /** One turn of the drain loop. */
  lemma DrainTurn(c: Coherence.Config, me: nat, st: Slice)
    requires st.blocked != [] && !st.blocked[0].serviced && Drain(c, me, st).ok
    ensures IsRequest(st.blocked[0].msg.typ)
    ensures var m, q, d := st.blocked[0].msg, st.blocked[1..], Drain(c, me, st);
            var o := Serve(c, me, st, m);
            var st' := o.st.(blocked := if o.handled then q else [Blocked(m, true)] + q);
            var d' := Drain(c, me, st');
            o.ok && d'.ok && d.st == d'.st && d.sends == o.sends + d'.sends
  {
    var m, q := st.blocked[0].msg, st.blocked[1..];
    ServeBlocked(c, me, st, q, m);
    var o := Serve(c, me, st, m);
    if !o.handled { assert o.sends + [] == o.sends; }
  }

  /** The same turn for a queue held outside the slice. */
  lemma FrontTurn(c: Coherence.Config, me: nat, s: Slice, queue: seq<Blocked>)
    requires queue != [] && !queue[0].serviced && Drain(c, me, s.(blocked := queue)).ok
    ensures IsRequest(queue[0].msg.typ)
    ensures var m := queue[0].msg;
            var o := Serve(c, me, s, m);
            var rest := if o.handled then queue[1..] else [Blocked(m, true)] + queue[1..];
            var d := Drain(c, me, s.(blocked := queue));
            var d' := Drain(c, me, s.(dir := o.st.dir, pending := o.st.pending, blocked := rest));
            o.ok && d'.ok && d.st == d'.st && d.sends == o.sends + d'.sends
  {
    DrainTurn(c, me, s.(blocked := queue));
    ServeBlocked(c, me, s, queue, queue[0].msg);
    ServeKeeps(c, me, s, queue[0].msg);
  }

  lemma QueueKnown(c: Coherence.Config, s: System)
    requires Inv(c, s)
    ensures Queue(c, Requests(s[c.home].st.blocked))
  {
  }

  lemma SlotsKnown(c: Coherence.Config, s: System, i: nat)
    requires Inv(c, s) && i < |s|
    ensures SlotOk(c, i, s[i].st) && CoherenceSystem.KnownSources(c, s[c.home].inbox)
    ensures i != c.home && s[i].inbox != [] ==> !ForHome(s[i].inbox[0].typ)
  {
    if i != c.home && s[i].inbox != [] && ForHome(s[i].inbox[0].typ) { ForHomeOnly(c, s, i); }
  }

  lemma InvSize(c: Coherence.Config, s: System)
    requires Inv(c, s)
    ensures |s| == c.n
  {
  }

  lemma SourcesKnown(c: Coherence.Config, s: System, i: nat)
    requires c.Valid() && Reachable(c, false, s) && i < |s|
    ensures |s| == c.n && forall b :: b in s[i].st.blocked ==> b.msg.src < c.n
    ensures s[i].inbox != [] && ForHome(s[i].inbox[0].typ) ==> s[i].inbox[0].src < c.n
  {
    ReachableInv(c, s);
    InvSize(c, s);
    QueueKnown(c, s);
    SlotsKnown(c, s, i);
    QueueSources(c, i, s[i].st);
  }

  lemma QueueSources(c: Coherence.Config, i: nat, st: Slice)
    requires c.Valid() && SlotOk(c, i, st) && Queue(c, Requests(st.blocked))
    ensures forall b :: b in st.blocked ==> b.msg.src < c.n
  {
    var q := st.blocked;
    assert DemandOf(q) != NoDemand ==> q == [q[0]] + Requests(q);
  }

  class ProtocolHandler {
    const nodes: nat
    const proto: Protocol
    const homeOf: Addr -> nat
    const me: nat
    const dir: Directory
    var cacheLineStatus: map<Addr, Line>
    var pendingInvAckCount: map<Addr, int>
    var blockedMsgMap: map<Addr, seq<Blocked>>
    var opAddr: Addr
    var successful: bool
    var writing: bool
    var cacheMsgQueue: seq<AReq>
    var outgoing: seq<Sent>
    ghost var phase: Phase

    /** What holds throughout a handler, even while a queue is worked on. */
    ghost predicate Base()
      reads this, dir
    {
      dir.Valid() && dir.n == nodes && me < nodes
    }

    ghost predicate Valid()
      reads this, dir
    {
      && Base()
      && successful == phase.Done() && (!successful ==> writing == phase.IsWrite())
      && (forall a :: a in cacheLineStatus ==> cacheLineStatus[a] != I)
      && (forall a :: a in blockedMsgMap ==> blockedMsgMap[a] != [])
    }

    ghost function State(): Cpu
      reads this, dir
    {
      Cpu(cacheLineStatus, dir.Entries(), pendingInvAckCount, blockedMsgMap, opAddr, phase, [], cacheMsgQueue)
    }

    ghost function Slice(a: Addr): Coherence.Slice
      reads this, dir
    {
      Coherence.Slice.Slice(if a in cacheLineStatus then cacheLineStatus[a] else I, Get(dir.Entries(), a),
                            Get(pendingInvAckCount, a), if a in blockedMsgMap then blockedMsgMap[a] else [],
                            if opAddr == a then phase else Idle)
    }

    function Home(a: Addr): Config { Config(nodes, homeOf(a), proto) }

    constructor (mc: Machine, me: nat)
      requires mc.Valid() && me < mc.Nodes()
      ensures Valid() && State() == MemInit(mc)[me] && outgoing == [] && this.me == me
      ensures forall a :: Home(a) == At(mc, a)
    {
      nodes, proto, this.me := mc.Nodes(), mc.proto, me;
      homeOf := a => if mc.Valid() then HomeNode(mc, a) else 0;
      dir := new Directory(mc.Nodes());
      cacheLineStatus, pendingInvAckCount, blockedMsgMap := map[], map[], map[];
      opAddr, phase, successful, writing := 0, Idle, true, false;
      cacheMsgQueue, outgoing := [], [];
    }

    method SendMsgToNode(dst: nat, addr: Addr, typ: MsgType)
      modifies this`outgoing
      ensures outgoing == old(outgoing) + Texts(addr, [Send(dst, Msg(me, typ))])
    {
      outgoing := outgoing + [Sent(dst, AMsg(addr, Msg(me, typ)))];
    }

    method SendMsgToCache(addr: Addr, req: CacheReq)
      modifies this`cacheMsgQueue
      ensures cacheMsgQueue == old(cacheMsgQueue) + Tagged(addr, [req])
    {
      assert Tagged(addr, [req]) == [AReq(addr, req)];
      cacheMsgQueue := cacheMsgQueue + [AReq(addr, req)];
    }

    /** First set bit: the owner. */
    method FindOwner(bits: seq<bool>) returns (owner: nat)
      ensures owner == Owner(MaskOf(bits), 0, |bits|)
    {
      owner := 0;
      while owner < |bits| && !bits[owner]
        invariant owner <= |bits|
        invariant Owner(MaskOf(bits), 0, |bits|) == Owner(MaskOf(bits), owner, |bits|)
      {
        owner := owner + 1;
      }
    }

    method AskOwner(addr: Addr, bits: seq<bool>, typ: MsgType)
      requires |bits| == nodes && Owner(MaskOf(bits), 0, |bits|) < nodes
      modifies this`outgoing
      ensures outgoing == old(outgoing) + Texts(addr, [Send(Owner(MaskOf(bits), 0, |bits|), Msg(me, typ))])
    {
      var owner := FindOwner(bits);
      assert owner < nodes;
      SendMsgToNode(owner, addr, typ);
    }

    /** INVALIDATE to every sharer but `skip`; counts the messages. */
    method InvalidateSharers(addr: Addr, bits: seq<bool>, skip: int) returns (count: nat)
      requires |bits| == nodes
      modifies this`outgoing
      ensures var a := InvalidateAll(Home(addr), me, set i: nat | i < |bits| && bits[i] && i != skip, 0);
              count == |a| && outgoing == old(outgoing) + Texts(addr, a)
    {
      ghost var mask := set i: nat | i < |bits| && bits[i] && i != skip;
      ghost var c := Home(addr);
      ghost var done: seq<Send> := [];
      count := 0;
      var id := 0;
      while id < |bits|
        invariant 0 <= id <= |bits| && count == |done|
        invariant outgoing == old(outgoing) + Texts(addr, done)
        invariant done + InvalidateAll(c, me, mask, id) == InvalidateAll(c, me, mask, 0)
      {
        ghost var one := if id in mask then [Send(id, Msg(me, Invalidate))] else [];
        if bits[id] && id != skip {
          SendMsgToNode(id, addr, Invalidate);
          count := count + 1;
        }
        TextsOn(old(outgoing), addr, done, one, InvalidateAll(c, me, mask, id + 1));
        done := done + one;
        id := id + 1;
      }
      assert done + [] == done;
    }

    /** From state `x` with `out` sent, the node went through outcome `o` of a handler for `a`. */
    ghost predicate Did(x: Cpu, out: seq<Sent>, a: Addr, o: Out)
      reads this, dir
    {
      State() == Apply(x, a, o) && outgoing == out + Texts(a, o.sends)
    }

    // ---------- requests served by the home node ----------

    method ServeReadMiss(addr: Addr, src: nat) returns (handled: bool)
      requires Base() && src < nodes && ServeRead(Home(addr), me, Slice(addr), src).ok
      modifies this`outgoing, dir
      ensures Base()
      ensures var o := ServeRead(Home(addr), me, old(Slice(addr)), src);
              && handled == o.handled && outgoing == old(outgoing) + Texts(addr, o.sends)
              && dir.Entries() == Put(old(dir.Entries()), addr, o.st.dir)
    {
      var entry := dir.LookUpEntry(addr);
      if entry.status == Shared {
        SendMsgToNode(src, addr, DataValueReply);
        dir.UpdateEntry(addr, Shared, src);
        handled := true;
      } else if entry.status == Uncached {
        if proto == Mesi {
          SendMsgToNode(src, addr, DataValueReplyE);
          dir.UpdateEntry(addr, Exclusive, src);
        } else {
          SendMsgToNode(src, addr, DataValueReply);
          dir.UpdateEntry(addr, Shared, src);
        }
        handled := true;
      } else {
        AskOwner(addr, entry.bits, Fetch);
        handled := false;
      }
    }

    /** `insert`: an existing count is left alone. */
    method InsertPending(addr: Addr, count: int)
      modifies this`pendingInvAckCount
      ensures pendingInvAckCount
           == if addr in old(pendingInvAckCount) then old(pendingInvAckCount)
              else old(pendingInvAckCount)[addr := count]
    {
      if addr !in pendingInvAckCount { pendingInvAckCount := pendingInvAckCount[addr := count]; }
    }

    method ServeWriteMiss(addr: Addr, src: nat) returns (handled: bool)
      requires Base() && src < nodes && ServeWrite(Home(addr), me, Slice(addr), src).ok
      modifies this`outgoing, this`pendingInvAckCount, dir
      ensures Base()
      ensures var o := ServeWrite(Home(addr), me, old(Slice(addr)), src);
              && handled == o.handled && outgoing == old(outgoing) + Texts(addr, o.sends)
              && dir.Entries() == Put(old(dir.Entries()), addr, o.st.dir)
              && pendingInvAckCount == Put(old(pendingInvAckCount), addr, o.st.pending)
    {
      var entry := dir.LookUpEntry(addr);
      if entry.status == Uncached {
        SendMsgToNode(src, addr, DataValueReply);
        dir.UpdateEntry(addr, Modified, src);
        handled := true;
      } else if entry.status == Shared {
        var count := InvalidateSharers(addr, entry.bits, -1);
        NoneSkipped(entry.bits);
        InsertPending(addr, count);
        handled := false;
      } else {
        AskOwner(addr, entry.bits, FetchInvalidate);
        handled := false;
      }
    }

    method ServeInvalidateOther(addr: Addr, src: nat) returns (handled: bool)
      requires Base() && src < nodes && ServeUpgrade(Home(addr), me, Slice(addr), src).ok
      modifies this`outgoing, this`pendingInvAckCount, dir
      ensures Base()
      ensures var o := ServeUpgrade(Home(addr), me, old(Slice(addr)), src);
              && handled == o.handled && outgoing == old(outgoing) + Texts(addr, o.sends)
              && dir.Entries() == Put(old(dir.Entries()), addr, o.st.dir)
              && pendingInvAckCount == Put(old(pendingInvAckCount), addr, o.st.pending)
    {
      ghost var d, p := dir.Entries(), pendingInvAckCount;
      PutPut(p, addr, None, None);
      var entry := dir.LookUpEntry(addr);
      ghost var e := EntryOf(entry);
      if entry.status != Shared {
        SendMsgToNode(src, addr, Rollback);
        return true;
      }
      var count := InvalidateSharers(addr, entry.bits, src);
      assert (set i: nat | i < |entry.bits| && entry.bits[i] && i != src) == e.mask - {src};
      if count > 0 {
        InsertPending(addr, count);
        handled := false;
      } else {
        dir.UpdateEntry(addr, Modified, src);
        PutPut(d, addr, Some(e), DirUpdate(Some(e), Modified, src));
        SendMsgToNode(src, addr, InvalidateOtherAck);
        handled := true;
      }
    }

    method ServeRequest(addr: Addr, m: Msg) returns (handled: bool)
      requires Base() && IsRequest(m.typ) && m.src < nodes && Serve(Home(addr), me, Slice(addr), m).ok
      modifies this`outgoing, this`pendingInvAckCount, dir
      ensures Base()
      ensures var o := Serve(Home(addr), me, old(Slice(addr)), m);
              && handled == o.handled && outgoing == old(outgoing) + Texts(addr, o.sends)
              && dir.Entries() == Put(old(dir.Entries()), addr, o.st.dir)
              && pendingInvAckCount == Put(old(pendingInvAckCount), addr, o.st.pending)
    {
      if m.typ == ReadMiss {
        handled := ServeReadMiss(addr, m.src);
      } else if m.typ == WriteMiss {
        handled := ServeWriteMiss(addr, m.src);
      } else {
        handled := ServeInvalidateOther(addr, m.src);
      }
    }

    predicate KnownSources(queue: seq<Blocked>) {
      forall b :: b in queue ==> b.msg.src < nodes
    }

    /** Serves the front of the queue: it leaves the queue, or stays there as serviced. */
    method ServeFront(addr: Addr, queue: seq<Blocked>) returns (rest: seq<Blocked>)
      requires Base() && queue != [] && KnownSources(queue) && IsRequest(queue[0].msg.typ)
      requires Serve(Home(addr), me, Slice(addr), queue[0].msg).ok
      modifies this`outgoing, this`pendingInvAckCount, dir
      ensures Base()
      ensures var o := Serve(Home(addr), me, old(Slice(addr)), queue[0].msg);
              && rest == (if o.handled then queue[1..] else [Blocked(queue[0].msg, true)] + queue[1..])
              && outgoing == old(outgoing) + Texts(addr, o.sends)
              && dir.Entries() == Put(old(dir.Entries()), addr, o.st.dir)
              && pendingInvAckCount == Put(old(pendingInvAckCount), addr, o.st.pending)
    {
      var m := queue[0].msg;
      assert queue[0] in queue;
      var handled := ServeRequest(addr, m);
      rest := if handled then queue[1..] else [Blocked(m, true)] + queue[1..];
    }

    /** The slice after directory and count were written. */
    lemma SliceWritten(addr: Addr, s: Coherence.Slice, d: map<Addr, Entry>, p: map<Addr, int>, o: Coherence.Slice)
      requires dir.Entries() == Put(d, addr, o.dir) && pendingInvAckCount == Put(p, addr, o.pending)
      requires s.line == Slice(addr).line && s.phase == Slice(addr).phase
      ensures s.(dir := o.dir, pending := o.pending, blocked := Slice(addr).blocked) == Slice(addr)
      ensures dir.Entries() - {addr} == d - {addr} && pendingInvAckCount - {addr} == p - {addr}
    {
    }

    /** Where the drain loop stands: `queue` is left, `sent` went out, outcome `o` lies ahead. */
    ghost predicate Draining(addr: Addr, queue: seq<Blocked>, st: Coherence.Slice, sent: seq<Send>, o: Out,
                             d0: map<Addr, Entry>, p0: map<Addr, int>, out0: seq<Sent>)
      reads this, dir
    {
      && Base() && KnownSources(queue) && st == Slice(addr).(blocked := queue)
      && dir.Entries() - {addr} == d0 - {addr} && pendingInvAckCount - {addr} == p0 - {addr}
      && outgoing == out0 + Texts(addr, sent)
      && var d := Drain(Home(addr), me, st); d.ok && o.st == d.st && o.sends == sent + d.sends
    }

    method DrainStep(addr: Addr, queue: seq<Blocked>, ghost st: Coherence.Slice, ghost sent: seq<Send>, ghost o: Out,
                     ghost d0: map<Addr, Entry>, ghost p0: map<Addr, int>, ghost out0: seq<Sent>)
      returns (rest: seq<Blocked>, ghost st': Coherence.Slice, ghost sent': seq<Send>)
      requires queue != [] && !queue[0].serviced && Draining(addr, queue, st, sent, o, d0, p0, out0)
      modifies this`outgoing, this`pendingInvAckCount, dir
      ensures Draining(addr, rest, st', sent', o, d0, p0, out0)
      ensures |rest| < |queue| || (|rest| == |queue| && rest[0].serviced)
    {
      ghost var s, d, p := Slice(addr), dir.Entries(), pendingInvAckCount;
      FrontTurn(Home(addr), me, s, queue);
      ghost var turn := Serve(Home(addr), me, s, queue[0].msg);
      rest := ServeFront(addr, queue);
      st' := s.(dir := turn.st.dir, pending := turn.st.pending, blocked := rest);
      SliceWritten(addr, s, d, p, turn.st);
      TextsOn(out0, addr, sent, turn.sends, Drain(Home(addr), me, st').sends);
      sent' := sent + turn.sends;
    }

    /** The drain loop on the queue taken out of the map. */
    method DrainQueue(addr: Addr, q: seq<Blocked>, ghost st0: Coherence.Slice)
      returns (queue: seq<Blocked>, ghost sent: seq<Send>)
      requires Base() && KnownSources(q) && st0 == Slice(addr).(blocked := q) && Drain(Home(addr), me, st0).ok
      modifies this`outgoing, this`pendingInvAckCount, dir
      ensures Base()
      ensures var o := Drain(Home(addr), me, st0);
              && queue == o.st.blocked && sent == o.sends
              && dir.Entries() == Put(old(dir.Entries()), addr, o.st.dir)
              && pendingInvAckCount == Put(old(pendingInvAckCount), addr, o.st.pending)
      ensures outgoing == old(outgoing) + Texts(addr, sent)
    {
      queue, sent := q, [];
      ghost var o, st := Drain(Home(addr), me, st0), st0;
      ghost var d0, p0, out0 := dir.Entries(), pendingInvAckCount, outgoing;
      while queue != [] && !queue[0].serviced
        invariant Draining(addr, queue, st, sent, o, d0, p0, out0)
        decreases |queue|, if queue != [] && queue[0].serviced then 0 else 1
      {
        queue, st, sent := DrainStep(addr, queue, st, sent, o, d0, p0, out0);
      }
      assert sent + [] == sent;
      PutBack(d0, dir.Entries(), addr);
      PutBack(p0, pendingInvAckCount, addr);
    }

    ghost predicate KnownQueue(addr: Addr)
      reads this
    {
      addr in blockedMsgMap ==> KnownSources(blockedMsgMap[addr])
    }

    /** Nothing changed at other addresses. */
    ghost predicate SameOff(x: Cpu, a: Addr)
      reads this, dir
    {
      && dir.Entries() - {a} == x.dir - {a} && cacheLineStatus - {a} == x.lines - {a}
      && pendingInvAckCount - {a} == x.pending - {a} && blockedMsgMap - {a} == x.blocked - {a}
    }

    /** A message has left the front of the queue of `addr`, in whose handler the node is. */
    ghost predicate Working(x: Cpu, addr: Addr)
      reads this, dir
    {
      && Base() && SameOff(x, addr) && cacheLineStatus == x.lines && Tidy(x)
      && opAddr == x.opAddr && phase == x.phase && cacheMsgQueue == x.cacheQ && x.inbox == []
      && successful == phase.Done() && (!successful ==> writing == phase.IsWrite())
    }

    lemma WorkDone(x: Cpu, addr: Addr, o: Out)
      requires Working(x, addr) && Slice(addr) == o.st && o.cache == []
      requires addr in blockedMsgMap ==> blockedMsgMap[addr] != []
      ensures Valid() && State() == Apply(x, addr, o)
    {
      LandedAt(x, State(), addr, o);
      PutBack(x.blocked, blockedMsgMap, addr);
    }

    /** The queue goes through the drain loop, and out of the map when it ends empty. */
    method DrainAt(addr: Addr)
      requires Base() && KnownQueue(addr) && Drain(Home(addr), me, Slice(addr)).ok
      modifies this`outgoing, this`pendingInvAckCount, this`blockedMsgMap, dir
      ensures Base()
      ensures var o := Drain(Home(addr), me, old(Slice(addr)));
              && blockedMsgMap == Put(old(blockedMsgMap), addr, if o.st.blocked == [] then None else Some(o.st.blocked))
              && dir.Entries() == Put(old(dir.Entries()), addr, o.st.dir)
              && pendingInvAckCount == Put(old(pendingInvAckCount), addr, o.st.pending)
              && outgoing == old(outgoing) + Texts(addr, o.sends)
    {
      var queue := if addr in blockedMsgMap then blockedMsgMap[addr] else [];
      ghost var sent;
      queue, sent := DrainQueue(addr, queue, Slice(addr));
      blockedMsgMap := if queue == [] then blockedMsgMap - {addr} else blockedMsgMap[addr := queue];
    }

    /** `checkBlockedQueueAtAddress`. */
    method CheckBlockedQueueAtAddress(addr: Addr, ghost x: Cpu)
      requires Working(x, addr) && KnownQueue(addr) && Drain(Home(addr), me, Slice(addr)).ok
      modifies this`outgoing, this`pendingInvAckCount, this`blockedMsgMap, dir
      ensures Working(x, addr) && Slice(addr) == Drain(Home(addr), me, old(Slice(addr))).st
      ensures addr in blockedMsgMap ==> blockedMsgMap[addr] != []
      ensures outgoing == old(outgoing) + Texts(addr, Drain(Home(addr), me, old(Slice(addr))).sends)
    {
      ghost var s, d, p, b := Slice(addr), dir.Entries(), pendingInvAckCount, blockedMsgMap;
      ghost var o := Drain(Home(addr), me, s);
      DrainKeeps(Home(addr), s);
      DrainAt(addr);
      SliceWritten(addr, s, d, p, o.st);
      PutOff(b, addr, if o.st.blocked == [] then None else Some(o.st.blocked));
    }

    method PopFront(addr: Addr) returns (m: Msg)
      requires addr in blockedMsgMap && blockedMsgMap[addr] != []
      modifies this`blockedMsgMap
      ensures m == old(blockedMsgMap)[addr][0].msg
      ensures blockedMsgMap == old(blockedMsgMap)[addr := old(blockedMsgMap)[addr][1..]]
    {
      m := blockedMsgMap[addr][0].msg;
      blockedMsgMap := blockedMsgMap[addr := blockedMsgMap[addr][1..]];
    }

    // ---------- messages ----------

    method OnRequest(addr: Addr, m: Msg) returns (handled: bool, serviced: bool)
      requires Valid() && IsRequest(m.typ) && m.src < nodes && HandleRequest(Home(addr), me, Slice(addr), m).ok
      modifies this`outgoing, this`pendingInvAckCount, dir
      ensures Valid()
      ensures var o := HandleRequest(Home(addr), me, old(Slice(addr)), m);
              Did(old(State()), old(outgoing), addr, o) && handled == o.handled && (!handled ==> serviced == o.serviced)
    {
      ghost var x, s0 := State(), Slice(addr);
      if addr in blockedMsgMap { return false, false; }
      handled := ServeRequest(addr, m);
      serviced := true;
      ServeKeeps(Home(addr), me, old(Slice(addr)), m);
      Landed(x, State(), addr, HandleRequest(Home(addr), me, s0, m));
    }

    method OnInvalidate(addr: Addr, m: Msg) returns (handled: bool)
      requires Valid() && HandleInvalidate(Home(addr), me, Slice(addr), m).ok
      modifies this`outgoing, this`cacheLineStatus, this`cacheMsgQueue
      ensures Valid()
      ensures var o := HandleInvalidate(Home(addr), me, old(Slice(addr)), m);
              Did(old(State()), old(outgoing), addr, o) && handled == o.handled && (!handled ==> o.serviced)
    {
      ghost var x, s0 := State(), Slice(addr);
      if addr !in cacheLineStatus {
        SendMsgToNode(m.src, addr, InvalidateAck);
        handled := true;
      } else {
        cacheLineStatus := cacheLineStatus - {addr};
        SendMsgToCache(addr, CacheInvalidate);
        handled := false;
      }
      Landed(x, State(), addr, HandleInvalidate(Home(addr), me, s0, m));
    }

    method OnFetch(addr: Addr, m: Msg) returns (handled: bool)
      requires Valid() && HandleFetch(Home(addr), me, Slice(addr), m).ok
      modifies this`cacheLineStatus, this`cacheMsgQueue
      ensures Valid()
      ensures var o := HandleFetch(Home(addr), me, old(Slice(addr)), m);
              Did(old(State()), old(outgoing), addr, o) && handled == o.handled && (!handled ==> o.serviced)
    {
      handled := addr !in cacheLineStatus;
      if handled { return; }
      ghost var o := HandleFetch(Home(addr), me, Slice(addr), m);
      if m.typ == Fetch {
        Yield(addr, true, o);
      } else {
        Yield(addr, false, o);
      }
    }

    /** The line is demoted or given up, and the cache is told. */
    method Yield(addr: Addr, keep: bool, ghost o: Out)
      requires Valid() && addr in cacheLineStatus && o.st == Slice(addr).(line := if keep then S else I)
      requires o.cache == [if keep then CacheFetch else CacheInvalidate]
      modifies this`cacheLineStatus, this`cacheMsgQueue
      ensures Valid() && State() == Apply(old(State()), addr, o)
    {
      ghost var x := State();
      if keep {
        cacheLineStatus := cacheLineStatus[addr := S];
        SendMsgToCache(addr, CacheFetch);
      } else {
        cacheLineStatus := cacheLineStatus - {addr};
        SendMsgToCache(addr, CacheInvalidate);
      }
      Landed(x, State(), addr, o);
    }

    /** The line becomes what the reply grants. */
    method Fill(addr: Addr, m: Msg)
      requires Valid() && opAddr == addr && HandleReply(Home(addr), me, Slice(addr), m).ok
      modifies this`cacheLineStatus
      ensures cacheLineStatus == old(cacheLineStatus)[addr := HandleReply(Home(addr), me, old(Slice(addr)), m).st.line]
    {
      assert !successful;
      if m.typ == DataValueReply {
        assert addr !in cacheLineStatus;
        cacheLineStatus := cacheLineStatus[addr := if writing then M else S];
      } else if m.typ == DataValueReplyE {
        assert !writing;
        if addr !in cacheLineStatus { cacheLineStatus := cacheLineStatus[addr := E]; }
      } else {
        assert m.src == homeOf(addr);
        cacheLineStatus := cacheLineStatus[addr := M];
      }
    }

    lemma ReplyKeeps(addr: Addr, s: Coherence.Slice, m: Msg)
      ensures var o := HandleReply(Home(addr), me, s, m);
              o.st == s.(line := o.st.line, phase := Filling(s.phase.IsWrite())) && o.st.line != I
              && o.sends == [] && o.cache == [CacheUpdate]
    {
    }

    method OnReply(addr: Addr, m: Msg)
      requires Valid() && opAddr == addr && HandleReply(Home(addr), me, Slice(addr), m).ok
      modifies this`cacheLineStatus, this`cacheMsgQueue, this`phase
      ensures Valid()
      ensures Did(old(State()), old(outgoing), addr, HandleReply(Home(addr), me, old(Slice(addr)), m))
    {
      ghost var x, s0 := State(), Slice(addr);
      ReplyKeeps(addr, s0, m);
      Fill(addr, m);
      AwaitUpdate(addr, x, HandleReply(Home(addr), me, s0, m));
    }

    /** The line is in its new state, and the cache has to store it. */
    method AwaitUpdate(addr: Addr, ghost x: Cpu, ghost o: Out)
      requires Base() && Tidy(x) && opAddr == addr && State() == x.(lines := x.lines[addr := o.st.line])
      requires !successful && !phase.Done() && writing == phase.IsWrite()
      requires o.st == SliceAt(x, addr).(line := o.st.line, phase := Filling(phase.IsWrite())) && o.st.line != I
      requires o.cache == [CacheUpdate]
      modifies this`cacheMsgQueue, this`phase
      ensures Valid() && State() == Apply(x, addr, o)
    {
      SendMsgToCache(addr, CacheUpdate);
      phase := Filling(phase.IsWrite());
      Landed(x, State(), addr, o);
    }

    lemma OnlyPhase(x: Cpu, addr: Addr, p: Phase, o: Out)
      requires Tidy(x) && x.opAddr == addr && State() == x.(phase := p)
      requires o.st == SliceAt(x, addr).(phase := p) && o.cache == []
      ensures State() == Apply(x, addr, o)
    {
      Landed(x, State(), addr, o);
    }

    /** ROLLBACK: the operation goes back to the front of the processor's queue. */
    method OnRollback(addr: Addr, m: Msg)
      requires Valid() && opAddr == addr && m.typ == Rollback && Handle(Home(addr), me, Slice(addr), m).ok
      modifies this`successful, this`phase
      ensures Valid() && Did(old(State()), old(outgoing), addr, Handle(Home(addr), me, old(Slice(addr)), m))
    {
      ghost var x := State();
      successful, phase := true, Retry;
      OnlyPhase(x, addr, Retry, Handle(Home(addr), me, SliceAt(x, addr), m));
    }

    method OnCacheDone(addr: Addr, m: Msg)
      requires Valid() && opAddr == addr && (m.typ == CacheReadReply || m.typ == CacheUpdateAck)
      requires Handle(Home(addr), me, Slice(addr), m).ok
      modifies this`successful, this`phase
      ensures Valid() && Did(old(State()), old(outgoing), addr, Handle(Home(addr), me, old(Slice(addr)), m))
    {
      ghost var x := State();
      successful, phase := true, Idle;
      OnlyPhase(x, addr, Idle, Handle(Home(addr), me, SliceAt(x, addr), m));
    }

    method OnEviction(addr: Addr)
      requires Valid()
      modifies this`cacheLineStatus, this`outgoing
      ensures Valid() && Did(old(State()), old(outgoing), addr, HandleEviction(Home(addr), me, old(Slice(addr))))
    {
      ghost var x, s0 := State(), Slice(addr);
      // an absent entry reads as M, the first enumerator
      var status := if addr in cacheLineStatus then cacheLineStatus[addr] else M;
      if status != S { SendMsgToNode(homeOf(addr), addr, DataWriteBack); }
      cacheLineStatus := cacheLineStatus - {addr};
      Landed(x, State(), addr, HandleEviction(Home(addr), me, s0));
    }

    /** The sender of the message is answered by `typ` and the queue served on. */
    ghost function Answered(c: Config, s: Coherence.Slice, src: nat, typ: MsgType): Out {
      var rest := Drain(c, me, s);
      Coherence.Done(rest.st, [Send(src, Msg(me, typ))] + rest.sends, [], rest.ok)
    }

    /** Answers the sender of the message taken from the queue, then moves the queue on. */
    method Answer(addr: Addr, src: nat, typ: MsgType, ghost x: Cpu, ghost o: Out)
      requires Working(x, addr) && KnownQueue(addr) && o.ok && o == Answered(Home(addr), Slice(addr), src, typ)
      modifies this`outgoing, this`pendingInvAckCount, this`blockedMsgMap, dir
      ensures Valid() && Did(x, old(outgoing), addr, o)
    {
      ghost var s1 := Slice(addr);
      SendMsgToNode(src, addr, typ);
      CheckBlockedQueueAtAddress(addr, x);
      TextsOn(old(outgoing), addr, [Send(src, Msg(me, typ))], Drain(Home(addr), me, s1).sends, []);
      WorkDone(x, addr, o);
    }

    lemma DrainKeeps(c: Config, s: Coherence.Slice)
      ensures var d := Drain(c, me, s).st; d.line == s.line && d.phase == s.phase
      decreases |s.blocked|
    {
      if s.blocked != [] && !s.blocked[0].serviced && IsRequest(s.blocked[0].msg.typ) {
        var q, m := s.blocked[1..], s.blocked[0].msg;
        var o := Serve(c, me, s.(blocked := q), m);
        ServeKeeps(c, me, s.(blocked := q), m);
        if o.handled { DrainKeeps(c, o.st); }
      }
    }

    /** All acknowledgements are in: the waiting writer becomes the owner. */
    method Acknowledge(addr: Addr) returns (m: Msg)
      requires Valid() && KnownQueue(addr) && addr in blockedMsgMap
      modifies this`pendingInvAckCount, this`blockedMsgMap, dir
      ensures Working(old(State()), addr) && KnownQueue(addr)
      ensures m == old(blockedMsgMap)[addr][0].msg
      ensures var s := old(Slice(addr));
              Slice(addr) == s.(pending := None, blocked := s.blocked[1..], dir := DirUpdate(s.dir, Modified, m.src))
    {
      ghost var d := dir.Entries();
      assert blockedMsgMap[addr][0] in blockedMsgMap[addr];
      pendingInvAckCount := pendingInvAckCount - {addr};
      m := PopFront(addr);
      dir.UpdateEntry(addr, Modified, m.src);
      PutOff(d, addr, DirUpdate(Get(d, addr), Modified, m.src));
    }

    method OnInvalidateAck(addr: Addr)
      requires Valid() && KnownQueue(addr) && HandleInvalidateAck(Home(addr), me, Slice(addr)).ok
      modifies this`outgoing, this`pendingInvAckCount, this`blockedMsgMap, dir
      ensures Valid()
      ensures Did(old(State()), old(outgoing), addr, HandleInvalidateAck(Home(addr), me, old(Slice(addr))))
    {
      ghost var x, o := State(), HandleInvalidateAck(Home(addr), me, Slice(addr));
      var left := (if addr in pendingInvAckCount then pendingInvAckCount[addr] else 0) - 1;
      if left == 0 {
        var m := Acknowledge(addr);
        Answer(addr, m.src, if m.typ == WriteMiss then DataValueReply else InvalidateOtherAck, x, o);
      } else {
        pendingInvAckCount := pendingInvAckCount[addr := left];
        Landed(x, State(), addr, o);
      }
    }

    /** The directory side of answering a read miss that waited for a write-back. */
    method GrantRead(addr: Addr, src: nat) returns (reply: MsgType)
      requires Base() && src < nodes
      modifies dir
      ensures Base()
      ensures var e := DirLookup(Get(old(dir.Entries()), addr));
              var exclusive := e.status == Uncached && proto == Mesi;
              && reply == (if exclusive then DataValueReplyE else DataValueReply)
              && dir.Entries() == Put(old(dir.Entries()), addr,
                                      DirUpdate(Some(e), if exclusive then Exclusive else Shared, src))
    {
      var entry := dir.LookUpEntry(addr);
      if entry.status == Uncached && proto == Mesi {
        dir.UpdateEntry(addr, Exclusive, src);
        reply := DataValueReplyE;
      } else {
        dir.UpdateEntry(addr, Shared, src);
        reply := DataValueReply;
      }
    }

    /** The written-back line goes to the request at the front of the queue. */
    method PassOn(addr: Addr) returns (m: Msg, reply: MsgType)
      requires Valid() && KnownQueue(addr) && addr in blockedMsgMap
      modifies this`blockedMsgMap, dir
      ensures Working(old(State()), addr) && KnownQueue(addr)
      ensures m == old(blockedMsgMap)[addr][0].msg
      ensures var s, e := old(Slice(addr)), DirLookup(old(Slice(addr)).dir);
              var exclusive := m.typ != WriteMiss && e.status == Uncached && proto == Mesi;
              && reply == (if exclusive then DataValueReplyE else DataValueReply)
              && Slice(addr) == s.(blocked := s.blocked[1..],
                                   dir := if m.typ == WriteMiss then DirUpdate(s.dir, Modified, m.src)
                                          else DirUpdate(Some(e), if exclusive then Exclusive else Shared, m.src))
    {
      ghost var d, b := dir.Entries(), blockedMsgMap;
      assert blockedMsgMap[addr][0] in blockedMsgMap[addr];
      m := PopFront(addr);
      reply := GrantFront(addr, m);
      PutOff(d, addr, Get(dir.Entries(), addr));
      PutOff(b, addr, Some(b[addr][1..]));
    }

    method GrantFront(addr: Addr, m: Msg) returns (reply: MsgType)
      requires Base() && m.src < nodes
      modifies dir
      ensures Base()
      ensures var d := Get(old(dir.Entries()), addr);
              var exclusive := m.typ != WriteMiss && DirLookup(d).status == Uncached && proto == Mesi;
              && reply == (if exclusive then DataValueReplyE else DataValueReply)
              && dir.Entries() == Put(old(dir.Entries()), addr,
                   if m.typ == WriteMiss then DirUpdate(d, Modified, m.src)
                   else DirUpdate(Some(DirLookup(d)), if exclusive then Exclusive else Shared, m.src))
    {
      if m.typ == WriteMiss {
        dir.UpdateEntry(addr, Modified, m.src);
        reply := DataValueReply;
      } else {
        reply := GrantRead(addr, m.src);
      }
    }

    method OnWriteBack(addr: Addr, src: nat)
      requires Valid() && KnownQueue(addr) && src < nodes && HandleWriteBack(Home(addr), me, Slice(addr), src).ok
      modifies this`outgoing, this`pendingInvAckCount, this`blockedMsgMap, dir
      ensures Valid()
      ensures Did(old(State()), old(outgoing), addr, HandleWriteBack(Home(addr), me, old(Slice(addr)), src))
    {
      ghost var x, o := State(), HandleWriteBack(Home(addr), me, Slice(addr), src);
      if addr in blockedMsgMap {
        var m, reply := PassOn(addr);
        Answer(addr, m.src, reply, x, o);
      } else {
        dir.UpdateEntry(addr, Uncached, src);
        Landed(x, State(), addr, o);
      }
    }

    method OnCacheAck(addr: Addr, typ: MsgType)
      requires Valid() && KnownQueue(addr) && HandleCacheAck(Home(addr), me, Slice(addr), typ).ok
      modifies this`outgoing, this`pendingInvAckCount, this`blockedMsgMap, dir
      ensures Valid()
      ensures Did(old(State()), old(outgoing), addr, HandleCacheAck(Home(addr), me, old(Slice(addr)), typ))
    {
      ghost var x, o := State(), HandleCacheAck(Home(addr), me, Slice(addr), typ);
      var m := PopFront(addr);
      Answer(addr, m.src, if m.typ == Invalidate then InvalidateAck else DataWriteBack, x, o);
    }

    /** The messages a home node gets. */
    method HandleForHome(addr: Addr, m: Msg) returns (handled: bool, serviced: bool)
      requires Valid() && KnownQueue(addr) && ForHome(m.typ) && m.src < nodes
      requires Handle(Home(addr), me, Slice(addr), m).ok
      modifies this, dir
      ensures Valid()
      ensures var o := Handle(Home(addr), me, old(Slice(addr)), m);
              Did(old(State()), old(outgoing), addr, o) && handled == o.handled && (!handled ==> serviced == o.serviced)
    {
      handled, serviced := true, true;
      if IsRequest(m.typ) {
        handled, serviced := OnRequest(addr, m);
      } else if m.typ == InvalidateAck {
        OnInvalidateAck(addr);
      } else {
        OnWriteBack(addr, m.src);
      }
    }

    /** The messages a home node sends. */
    method HandleFromHome(addr: Addr, m: Msg) returns (handled: bool, serviced: bool)
      requires Valid() && KnownQueue(addr) && FromHome(m.typ) && Handle(Home(addr), me, Slice(addr), m).ok
      modifies this, dir
      ensures Valid()
      ensures var o := Handle(Home(addr), me, old(Slice(addr)), m);
              Did(old(State()), old(outgoing), addr, o) && handled == o.handled && (!handled ==> serviced == o.serviced)
    {
      handled, serviced := true, true;
      if m.typ == Invalidate {
        handled := OnInvalidate(addr, m);
      } else if m.typ == Fetch || m.typ == FetchInvalidate {
        handled := OnFetch(addr, m);
      } else if m.typ == Rollback {
        OnRollback(addr, m);
      } else {
        OnReply(addr, m);
      }
    }

    /** The messages of the node's own cache. */
    method HandleFromCache(addr: Addr, m: Msg)
      requires Valid() && KnownQueue(addr) && !ForHome(m.typ) && !FromHome(m.typ)
      requires Handle(Home(addr), me, Slice(addr), m).ok
      modifies this, dir
      ensures Valid()
      ensures var o := Handle(Home(addr), me, old(Slice(addr)), m);
              Did(old(State()), old(outgoing), addr, o) && o.handled
    {
      if m.typ == CacheReadReply || m.typ == CacheUpdateAck {
        OnCacheDone(addr, m);
      } else if m.typ == CacheEvictionAlert {
        OnEviction(addr);
      } else {
        OnCacheAck(addr, m.typ);
      }
    }

    /** `handleMessage` on a message that arrives. */
    method HandleMessage(addr: Addr, m: Msg) returns (handled: bool, serviced: bool)
      requires Valid() && KnownQueue(addr) && (ForHome(m.typ) ==> m.src < nodes)
      requires Handle(Home(addr), me, Slice(addr), m).ok
      modifies this, dir
      ensures Valid()
      ensures var o := Handle(Home(addr), me, old(Slice(addr)), m);
              Did(old(State()), old(outgoing), addr, o) && handled == o.handled && (!handled ==> serviced == o.serviced)
    {
      if ForHome(m.typ) {
        handled, serviced := HandleForHome(addr, m);
      } else if FromHome(m.typ) {
        handled, serviced := HandleFromHome(addr, m);
      } else {
        HandleFromCache(addr, m);
        handled, serviced := true, true;
      }
    }

    method AddToBlockedMsgMap(addr: Addr, b: Blocked)
      modifies this`blockedMsgMap
      ensures var q := if addr in old(blockedMsgMap) then old(blockedMsgMap)[addr] else [];
              blockedMsgMap == old(blockedMsgMap)[addr := Block(q, b)]
    {
      if addr in blockedMsgMap {
        if b.msg.typ == Fetch || b.msg.typ == FetchInvalidate || b.msg.typ == Invalidate {
          blockedMsgMap := blockedMsgMap[addr := [b] + blockedMsgMap[addr]];
        } else {
          blockedMsgMap := blockedMsgMap[addr := blockedMsgMap[addr] + [b]];
        }
      } else {
        assert [b] + [] == [b] && [] + [b] == [b];
        blockedMsgMap := blockedMsgMap[addr := [b]];
      }
    }

    /** One iteration of `checkIncomingMsgQueue`. */
    method ReceiveMsg(addr: Addr, m: Msg)
      requires Valid() && KnownQueue(addr) && (ForHome(m.typ) ==> m.src < nodes)
      requires Receive(Home(addr), me, Slice(addr), m).ok
      modifies this, dir
      ensures Valid() && Did(old(State()), old(outgoing), addr, Receive(Home(addr), me, old(Slice(addr)), m))
    {
      ghost var x, out, o := State(), outgoing, Handle(Home(addr), me, Slice(addr), m);
      var handled, serviced := HandleMessage(addr, m);
      if !handled {
        ghost var y := State();
        AppliedAt(x, addr, o);
        AddToBlockedMsgMap(addr, Blocked(m, serviced));
        BlockedToo(x, y, State(), addr, o, Blocked(m, serviced));
      }
    }

    /** Line absent or not writable: the home node is asked. */
    method AskHome(addr: Addr, typ: MsgType, ghost p: Phase, write: bool)
      requires Valid() && opAddr == addr && successful && !p.Done() && p.IsWrite() == write
      modifies this`successful, this`writing, this`phase, this`outgoing
      ensures Valid() && Did(old(State()), old(outgoing), addr, Ask(Home(addr), me, old(Slice(addr)), p, typ))
    {
      ghost var x, o := State(), Ask(Home(addr), me, Slice(addr), p, typ);
      successful, writing, phase := false, write, p;
      SendMsgToNode(homeOf(addr), addr, typ);
      Landed(x, State(), addr, o);
    }

    /** Line at hand: the local cache is asked. */
    method AskCache(addr: Addr, req: CacheReq, ghost p: Phase, write: bool)
      requires Valid() && opAddr == addr && successful && !p.Done() && p.IsWrite() == write
      requires addr in cacheLineStatus
      modifies this`successful, this`writing, this`phase, this`cacheMsgQueue, this`cacheLineStatus
      ensures Valid()
      ensures var s := old(Slice(addr));
              Did(old(State()), old(outgoing), addr,
                  Coherence.Done(s.(phase := p, line := if write then M else s.line), [], [req], true))
    {
      ghost var x, s := State(), Slice(addr);
      successful, writing, phase := false, write, p;
      SendMsgToCache(addr, req);
      if write { cacheLineStatus := cacheLineStatus[addr := M]; }
      Landed(x, State(), addr, Coherence.Done(s.(phase := p, line := if write then M else s.line), [], [req], true));
    }

    /** `handleMemOpRequest` for the operation the processor has just taken up. */
    method HandleMemOpRequest(addr: Addr, write: bool)
      requires Valid() && opAddr == addr && successful
      modifies this`successful, this`writing, this`phase, this`outgoing, this`cacheMsgQueue, this`cacheLineStatus
      ensures Valid() && Did(old(State()), old(outgoing), addr, Issue(Home(addr), me, old(Slice(addr)), write))
    {
      if write {
        if addr !in cacheLineStatus {
          AskHome(addr, WriteMiss, AskWrite, true);
        } else if cacheLineStatus[addr] == S {
          AskHome(addr, InvalidateOther, AskUpgrade, true);
        } else {
          AskCache(addr, CacheUpdate, Filling(true), true);
        }
      } else if addr !in cacheLineStatus {
        AskHome(addr, ReadMiss, AskRead, false);
      } else {
        AskCache(addr, CacheRead, Reading, false);
      }
    }
  }

  /** In every reachable state of the memory the message at the head of a node's queue can be
      handled: the preconditions of `ReceiveMsg` hold. */
  lemma AlwaysReceivable(mc: Machine, s: Memory, i: nat)
    requires mc.Valid() && MemReachable(mc, s) && i < |s| && s[i].inbox != []
    ensures var a, m, st := s[i].inbox[0].addr, s[i].inbox[0].msg, SliceAt(s[i], s[i].inbox[0].addr);
            && Receive(At(mc, a), i, st, m).ok && (ForHome(m.typ) ==> m.src < mc.Nodes())
            && forall b :: b in st.blocked ==> b.msg.src < mc.Nodes()
  {
    var a, m := s[i].inbox[0].addr, s[i].inbox[0].msg;
    EachAddressIsARun(mc, s);
    MemAssertionsHold(mc, s, MemDeliver(i));
    EnabledAddress(mc, s, MemDeliver(i));
    HomeNodeExists(mc, a);
    var x := SystemAt(s, a)[i];
    assert x == NodeAt(s[i], a);
    SourcesKnown(At(mc, a), SystemAt(s, a), i);
    assert x.inbox == [m] + MsgsAt(s[i].inbox[1..], a);
  }
}
