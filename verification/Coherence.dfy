/** The directory coherence protocol of backend/Simulator, seen at one line address.

    A node keeps, for the address, the state of its cached line, a queue of blocked
    messages and (when it is the home node) a directory entry and a count of awaited
    acknowledgements.  The functions below are the message handlers of `MESIHandler`;
    `Msi` selects the variant of `MSIHandler`, which differs only in how a read miss on
    an uncached line is answered.  A failed assertion of `handleMessage` (or a read of the
    front of an empty queue) shows as `ok == false`. */
module Coherence {
  import opened Common

  datatype Protocol = Msi | Mesi

  /** `home` is the node whose directory is responsible for the address. */
  datatype Config = Config(n: nat, home: nat, proto: Protocol) {
    predicate Valid() { home < n }
  }

  // `I` stands for an address that is absent from `cacheLineStatus`.
  datatype Line = I | S | E | M

  datatype MsgType =
    | ReadMiss | WriteMiss | InvalidateOther | InvalidateAck | DataWriteBack
    | Invalidate | Fetch | FetchInvalidate
    | DataValueReply | DataValueReplyE | InvalidateOtherAck | Rollback
    | CacheReadReply | CacheUpdateAck | CacheInvalidateAck | CacheFetchAck | CacheEvictionAlert

  datatype Msg = Msg(src: nat, typ: MsgType)
  datatype Send = Send(dst: nat, msg: Msg)
  datatype CacheReq = CacheRead | CacheUpdate | CacheInvalidate | CacheFetch

  datatype DirStatus = Uncached | Shared | Modified | Exclusive
  datatype Entry = Entry(status: DirStatus, mask: set<nat>)

  datatype Blocked = Blocked(msg: Msg, serviced: bool)

  /** The processor's current operation on the address.  The handler's field `successful` is
      `Done()`, its action type is `IsWrite()`; which request is outstanding is recorded
      for the statements made below and is never looked at by a handler. */
  datatype Phase = Idle | Retry | AskRead | AskWrite | AskUpgrade | Filling(write: bool) | Reading {
    predicate Done() { Idle? || Retry? }
    predicate Asks() { AskRead? || AskWrite? || AskUpgrade? }
    predicate IsWrite() { Retry? || AskWrite? || AskUpgrade? || (Filling? && write) }
  }

  datatype Slice = Slice(line: Line, dir: Option<Entry>, pending: Option<int>, blocked: seq<Blocked>, phase: Phase)

  /** Result of a handler: the new state, what it sent to nodes and to the local cache,
      whether the message was handled or stays blocked, and its `serviced` mark. */
  datatype Out = Out(st: Slice, sends: seq<Send>, cache: seq<CacheReq>, handled: bool, serviced: bool, ok: bool)

  function Done(st: Slice, sends: seq<Send>, cache: seq<CacheReq>, ok: bool): Out {
    Out(st, sends, cache, true, false, ok)
  }

  // ---------- directory ----------

  function DirLookup(dir: Option<Entry>): Entry {
    if dir.None? then Entry(Uncached, {}) else dir.value
  }

  function DirUpdate(dir: Option<Entry>, status: DirStatus, id: nat): Option<Entry> {
    if dir.None? then Some(Entry(status, {id}))
    else match status
      case Shared => Some(Entry(Shared, dir.value.mask + {id}))
      case Exclusive => Some(Entry(Exclusive, {id}))
      case Modified => Some(Entry(Modified, {id}))
      case Uncached => None
  }

  /** First node of the mask, or `n` when there is none. */
  function Owner(mask: set<nat>, k: nat, n: nat): (r: nat)
    requires k <= n
    ensures k <= r <= n
    ensures forall j :: k <= j < r ==> j !in mask
    ensures r < n ==> r in mask
    decreases n - k
  {
    if k == n || k in mask then k else Owner(mask, k + 1, n)
  }

  /** An INVALIDATE for every sharer from `k` on, in ascending order. */
  function InvalidateAll(c: Config, me: nat, mask: set<nat>, k: nat): seq<Send>
    requires k <= c.n
    decreases c.n - k
  {
    if k == c.n then []
    else (if k in mask then [Send(k, Msg(me, Invalidate))] else []) + InvalidateAll(c, me, mask, k + 1)
  }

  // ---------- requests served by the home node ----------

  function ServeRead(c: Config, me: nat, st: Slice, src: nat): Out {
    var entry := DirLookup(st.dir);
    var st := st.(dir := Some(entry));
    match entry.status
    case Shared =>
      Done(st.(dir := DirUpdate(st.dir, Shared, src)), [Send(src, Msg(me, DataValueReply))], [], true)
    case Uncached =>
      if c.proto == Mesi then
        Done(st.(dir := DirUpdate(st.dir, Exclusive, src)), [Send(src, Msg(me, DataValueReplyE))], [], true)
      else
        Done(st.(dir := DirUpdate(st.dir, Shared, src)), [Send(src, Msg(me, DataValueReply))], [], true)
    case _ =>
      var owner := Owner(entry.mask, 0, c.n);
      Out(st, [Send(owner, Msg(me, Fetch))], [], false, true, owner < c.n)
  }

  function ServeWrite(c: Config, me: nat, st: Slice, src: nat): Out {
    var entry := DirLookup(st.dir);
    var st := st.(dir := Some(entry));
    match entry.status
    case Uncached =>
      Done(st.(dir := DirUpdate(st.dir, Modified, src)), [Send(src, Msg(me, DataValueReply))], [], true)
    case Shared =>
      var invs := InvalidateAll(c, me, entry.mask, 0);
      // `insert` leaves an existing count alone
      Out(st.(pending := if st.pending.None? then Some(|invs|) else st.pending), invs, [], false, true, true)
    case _ =>
      var owner := Owner(entry.mask, 0, c.n);
      Out(st, [Send(owner, Msg(me, FetchInvalidate))], [], false, true, owner < c.n)
  }

  function ServeUpgrade(c: Config, me: nat, st: Slice, src: nat): Out {
    var entry := DirLookup(st.dir);
    var st := st.(dir := Some(entry));
    if !entry.status.Shared? then Done(st, [Send(src, Msg(me, Rollback))], [], true)
    else
      var invs := InvalidateAll(c, me, entry.mask - {src}, 0);
      if |invs| > 0 then
        Out(st.(pending := if st.pending.None? then Some(|invs|) else st.pending), invs, [], false, true, true)
      else
        Done(st.(dir := DirUpdate(st.dir, Modified, src)), [Send(src, Msg(me, InvalidateOtherAck))], [], true)
  }

  predicate IsRequest(t: MsgType) { t.ReadMiss? || t.WriteMiss? || t.InvalidateOther? }

  function Serve(c: Config, me: nat, st: Slice, m: Msg): Out
    requires IsRequest(m.typ)
  {
    match m.typ
    case ReadMiss => ServeRead(c, me, st, m.src)
    case WriteMiss => ServeWrite(c, me, st, m.src)
    case _ => ServeUpgrade(c, me, st, m.src)
  }

  /** `checkBlockedQueueAtAddress`: serve the queue from its front until a message blocks again. */
  function Drain(c: Config, me: nat, st: Slice): Out
    decreases |st.blocked|
  {
    if st.blocked == [] || st.blocked[0].serviced then Done(st, [], [], true)
    else
      var m := st.blocked[0].msg;
      if !IsRequest(m.typ) then Done(st, [], [], false)
      else
        var o := Serve(c, me, st.(blocked := st.blocked[1..]), m);
        if o.handled then
          var rest := Drain(c, me, o.st);
          Done(rest.st, o.sends + rest.sends, [], o.ok && rest.ok)
        else
          Done(o.st.(blocked := [Blocked(m, true)] + st.blocked[1..]), o.sends, [], o.ok)
  }

  // ---------- handleMessage ----------

  function HandleRequest(c: Config, me: nat, st: Slice, m: Msg): Out
    requires IsRequest(m.typ)
  {
    if st.blocked == [] then
      var o := Serve(c, me, st, m);
      o.(ok := o.ok && me == c.home)
    else Out(st, [], [], false, false, me == c.home)
  }

  function HandleInvalidate(c: Config, me: nat, st: Slice, m: Msg): Out {
    if st.line == I then
      Done(st, [Send(m.src, Msg(me, InvalidateAck))], [], m.src == c.home)
    else
      Out(st.(line := I), [], [CacheInvalidate], false, true, m.src == c.home)
  }

  function HandleInvalidateAck(c: Config, me: nat, st: Slice): Out {
    var left := (if st.pending.None? then 0 else st.pending.value) - 1;
    if left != 0 then Done(st.(pending := Some(left)), [], [], me == c.home)
    else if st.blocked == [] then Done(st, [], [], false)
    else
      var m := st.blocked[0].msg;
      var st := st.(pending := None, blocked := st.blocked[1..], dir := DirUpdate(st.dir, Modified, m.src));
      var sends :=
        if m.typ == WriteMiss then [Send(m.src, Msg(me, DataValueReply))]
        else if m.typ == InvalidateOther then [Send(m.src, Msg(me, InvalidateOtherAck))]
        else [];
      var rest := Drain(c, me, st);
      Done(rest.st, sends + rest.sends, [], rest.ok && sends != [] && me == c.home)
  }

  function HandleWriteBack(c: Config, me: nat, st: Slice, src: nat): Out {
    if st.blocked == [] then Done(st.(dir := DirUpdate(st.dir, Uncached, src)), [], [], true)
    else
      var m := st.blocked[0].msg;
      var st := st.(blocked := st.blocked[1..]);
      if m.typ == WriteMiss then
        var rest := Drain(c, me, st.(dir := DirUpdate(st.dir, Modified, m.src)));
        Done(rest.st, [Send(m.src, Msg(me, DataValueReply))] + rest.sends, [], rest.ok)
      else if m.typ == ReadMiss then
        var entry := DirLookup(st.dir);
        var status := if entry.status.Uncached? && c.proto == Mesi then Exclusive else Shared;
        var reply := if entry.status.Uncached? && c.proto == Mesi then DataValueReplyE else DataValueReply;
        var rest := Drain(c, me, st.(dir := DirUpdate(Some(entry), status, m.src)));
        Done(rest.st, [Send(m.src, Msg(me, reply))] + rest.sends, [], rest.ok)
      else Done(st, [], [], false)
  }

  function HandleFetch(c: Config, me: nat, st: Slice, m: Msg): Out {
    if st.line == I then Done(st, [], [], true)
    else if m.typ == Fetch then Out(st.(line := S), [], [CacheFetch], false, true, st.line != S)
    else Out(st.(line := I), [], [CacheInvalidate], false, true, st.line != S)
  }

  function HandleReply(c: Config, me: nat, st: Slice, m: Msg): Out {
    var filled := st.(phase := Filling(st.phase.IsWrite()));
    match m.typ
    case DataValueReply =>
      Done(filled.(line := if st.line != I then st.line else if st.phase.IsWrite() then M else S),
           [], [CacheUpdate], !st.phase.Done() && st.line == I)
    case DataValueReplyE =>
      Done(filled.(line := if st.line != I then st.line else E), [], [CacheUpdate],
           !st.phase.Done() && !st.phase.IsWrite())
    case _ =>
      Done(filled.(line := M), [], [CacheUpdate], !st.phase.Done() && m.src == c.home)
  }

  function HandleCacheAck(c: Config, me: nat, st: Slice, typ: MsgType): Out {
    if st.blocked == [] then Done(st, [], [], false)
    else
      var m := st.blocked[0].msg;
      var reply := if m.typ == Invalidate then InvalidateAck else DataWriteBack;
      var expected := if typ == CacheFetchAck then m.typ == Fetch else m.typ == Invalidate || m.typ == FetchInvalidate;
      var rest := Drain(c, me, st.(blocked := st.blocked[1..]));
      Done(rest.st, [Send(m.src, Msg(me, reply))] + rest.sends, [], rest.ok && expected)
  }

  /** The cache dropped the line.  `cacheLineStatus[addr]` of an untracked line reads as
      M (the first enumerator, inserted by `operator[]`), so a write-back is sent then too. */
  function HandleEviction(c: Config, me: nat, st: Slice): Out {
    Done(st.(line := I), if st.line == S then [] else [Send(c.home, Msg(me, DataWriteBack))], [], true)
  }

  function Handle(c: Config, me: nat, st: Slice, m: Msg): Out {
    match m.typ
    case ReadMiss => HandleRequest(c, me, st, m)
    case WriteMiss => HandleRequest(c, me, st, m)
    case InvalidateOther => HandleRequest(c, me, st, m)
    case Invalidate => HandleInvalidate(c, me, st, m)
    case InvalidateAck => HandleInvalidateAck(c, me, st)
    case DataWriteBack => HandleWriteBack(c, me, st, m.src)
    case Fetch => HandleFetch(c, me, st, m)
    case FetchInvalidate => HandleFetch(c, me, st, m)
    case DataValueReply => HandleReply(c, me, st, m)
    case DataValueReplyE => HandleReply(c, me, st, m)
    case InvalidateOtherAck => HandleReply(c, me, st, m)
    case Rollback => Done(st.(phase := Retry), [], [], !st.phase.Done())
    case CacheReadReply => Done(st.(phase := Idle), [], [], !st.phase.Done())
    case CacheUpdateAck => Done(st.(phase := Idle), [], [], !st.phase.Done())
    case CacheInvalidateAck => HandleCacheAck(c, me, st, m.typ)
    case CacheFetchAck => HandleCacheAck(c, me, st, m.typ)
    case CacheEvictionAlert => HandleEviction(c, me, st)
  }

  /** `addToBlockedMsgMap`: demands on the node's own line overtake waiting requests. */
  function Block(q: seq<Blocked>, b: Blocked): seq<Blocked> {
    if b.msg.typ.Fetch? || b.msg.typ.FetchInvalidate? || b.msg.typ.Invalidate? then [b] + q else q + [b]
  }

  /** One iteration of `checkIncomingMsgQueue`. */
  function Receive(c: Config, me: nat, st: Slice, m: Msg): Out {
    var o := Handle(c, me, st, m);
    if o.handled then o else o.(st := o.st.(blocked := Block(o.st.blocked, Blocked(m, o.serviced))))
  }

  function Ask(c: Config, me: nat, st: Slice, p: Phase, t: MsgType): Out {
    Done(st.(phase := p), [Send(c.home, Msg(me, t))], [], true)
  }

  /** `handleMemOpRequest`. */
  function Issue(c: Config, me: nat, st: Slice, write: bool): Out {
    if write then
      match st.line
      case I => Ask(c, me, st, AskWrite, WriteMiss)
      case S => Ask(c, me, st, AskUpgrade, InvalidateOther)
      case _ => Done(st.(phase := Filling(true), line := M), [], [CacheUpdate], true)
    else if st.line == I then Ask(c, me, st, AskRead, ReadMiss)
    else Done(st.(phase := Reading), [], [CacheRead], true)
  }

  function CacheAnswer(q: CacheReq): MsgType {
    match q
    case CacheRead => CacheReadReply
    case CacheUpdate => CacheUpdateAck
    case CacheInvalidate => CacheInvalidateAck
    case CacheFetch => CacheFetchAck
  }

  // ---------- the whole system at one address ----------

  datatype Node = Node(st: Slice, inbox: seq<Msg>, cacheQ: seq<CacheReq>)
  type System = seq<Node>

  function Push(s: System, sends: seq<Send>): (r: System)
    requires forall x :: x in sends ==> x.dst < |s|
    ensures |r| == |s|
    decreases |sends|
  {
    if sends == [] then s
    else
      var x := sends[0];
      assert x in sends;
      Push(s[x.dst := s[x.dst].(inbox := s[x.dst].inbox + [x.msg])], sends[1..])
  }

  function InitNode(): Node {
    Node(Slice(I, None, None, [], Idle), [], [])
  }

  function Init(c: Config): System {
    seq(c.n, _ => InitNode())
  }

  datatype Action =
    | Deliver(i: nat)                // node i handles the head of its incoming queue
    | CacheAnswers(i: nat)           // node i's cache answers its oldest request
    | Start(i: nat, write: bool)     // node i's processor starts an operation
    | Evict(i: nat)                  // node i handles an eviction alert for the address

  predicate Sendable(s: System, o: Out) {
    forall x :: x in o.sends ==> x.dst < |s|
  }

  function Absorb(s: System, i: nat, inbox: seq<Msg>, cacheQ: seq<CacheReq>, o: Out): System
    requires i < |s| && Sendable(s, o)
  {
    Push(s[i := Node(o.st, inbox, cacheQ + o.cache)], o.sends)
  }

  /** Enabled actions.  `strays` says whether the cache may report the eviction of a line
      the node does not track; the comment at MESIHandler.hpp:10 says it must not. */
  predicate Enabled(c: Config, strays: bool, s: System, a: Action) {
    a.i < |s| &&
    match a
    case Deliver(i) => s[i].inbox != []
    case CacheAnswers(i) => s[i].cacheQ != []
    case Start(i, write) => s[i].st.phase == Idle || (s[i].st.phase == Retry && write)
    case Evict(i) => strays || s[i].st.line != I
  }

  function Outcome(c: Config, s: System, a: Action): Out
    requires a.i < |s|
    requires a.Deliver? ==> s[a.i].inbox != []
    requires a.CacheAnswers? ==> s[a.i].cacheQ != []
  {
    var n := s[a.i];
    match a
    case Deliver(i) => Receive(c, i, n.st, n.inbox[0])
    case CacheAnswers(i) => Done(n.st, [Send(i, Msg(i, CacheAnswer(n.cacheQ[0])))], [], true)
    case Start(i, write) => Issue(c, i, n.st, write)
    case Evict(i) => Receive(c, i, n.st, Msg(0, CacheEvictionAlert))
  }

  ghost predicate Step(c: Config, strays: bool, s: System, a: Action, s': System) {
    && Enabled(c, strays, s, a)
    && var o := Outcome(c, s, a);
       Sendable(s, o) &&
       s' == Absorb(s, a.i,
                    if a.Deliver? then s[a.i].inbox[1..] else s[a.i].inbox,
                    if a.CacheAnswers? then s[a.i].cacheQ[1..] else s[a.i].cacheQ, o)
  }

  ghost predicate Run(c: Config, strays: bool, tr: seq<System>, acts: seq<Action>) {
    && |tr| == |acts| + 1
    && tr[0] == Init(c)
    && forall k :: 0 <= k < |acts| ==> Step(c, strays, tr[k], acts[k], tr[k + 1])
  }

  ghost predicate Reachable(c: Config, strays: bool, s: System) {
    exists tr, acts :: Run(c, strays, tr, acts) && tr[|tr| - 1] == s
  }
}
