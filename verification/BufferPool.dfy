/** The pool of trace buffers shared by the threads of a program and the thread that writes the
    trace, as the steps these take between locks. */
module BufferPool {
  import opened Common

  /** A thread's buffer: `Local` with its number and the bytes put in so far; asking for one; waiting
      for a free one; or finished. */
  datatype Thread = Local(buf: nat, bytes: seq<nat>) | Asking | Waiting | Finished

  /** A queued buffer; `buf` is None for the small copies made of little filled buffers. */
  datatype Entry = Entry(buf: Option<nat>, owner: nat, bytes: seq<nat>)

  /** The writer: nothing done about the head of the queue, head written, or head taken off. */
  datatype Writer = Ready | Wrote | Freeing(buf: nat)

  /** `current` is `__ctCurrentBuffers`; `hold` is the list kept back at the memory limit and
      `holdCount` its counter; `made` buffers were allocated.  `output` is the file, as pieces with
      their owner. */
  datatype Pool = Pool(max: nat, current: int, made: nat, free: seq<nat>, hold: seq<nat>, holdCount: int,
                       queue: seq<Entry>, writer: Writer, threads: seq<Thread>,
                       output: seq<Entry>)

  datatype Action =
    | Fill(i: nat, bytes: seq<nat>)                  // thread i records events
    | QueueBuffer(i: nat, alloc: bool, mallocOk: bool)
    | Allocate(i: nat)
    | Wake(i: nat)
    | Write | Pop | Free                             // the writer

  datatype Result = Disabled | Crash | To(pool: Pool)

  const Small: nat := 65536

  function Enqueue(s: Pool, i: nat, buf: Option<nat>, bytes: seq<nat>, t: Thread): Pool
    requires i < |s.threads|
  {
    s.(queue := s.queue + [Entry(buf, i, bytes)], threads := s.threads[i := t])
  }

  /** `__ctQueueBuffer`: little filled buffers are copied, if memory can be had, and stay local. */
  function DoQueue(s: Pool, i: nat, alloc: bool, mallocOk: bool): Pool
    requires i < |s.threads| && s.threads[i].Local?
  {
    var t := s.threads[i];
    if alloc && |t.bytes| < Small then
      if |t.bytes| == 0 then s
      else if mallocOk then Enqueue(s, i, None, t.bytes, t.(bytes := []))
      else Enqueue(s, i, Some(t.buf), t.bytes, Asking)
    else Enqueue(s, i, Some(t.buf), t.bytes, if alloc then Asking else Finished)
  }

  function TakeFree(s: Pool, i: nat): Result
    requires i < |s.threads|
  {
    if s.free == [] then Crash
    else To(s.(free := s.free[1..], current := s.current + 1, threads := s.threads[i := Local(s.free[0], [])]))
  }

  /** `__ctAllocateLocalBuffer` up to the wait. */
  function DoAllocate(s: Pool, i: nat): Result
    requires i < |s.threads|
  {
    if s.free != [] then TakeFree(s, i)
    else if s.current == s.max then To(s.(threads := s.threads[i := Waiting]))
    else To(s.(made := s.made + 1, current := s.current + 1, threads := s.threads[i := Local(s.made, [])]))
  }

  /** A written buffer is returned: to the free list, or at the limit to the hold list, which the
      last buffer of the queue empties into the free list.  An empty hold list has no tail to link to. */
  function DoFree(s: Pool, t: nat): Result {
    if s.current == s.max then
      if s.queue == [] then
        if s.hold == [] then Crash
        else To(s.(free := s.hold + [t] + s.free, hold := [], current := s.max - (s.holdCount + 1), writer := Ready))
      else To(s.(hold := s.hold + [t], holdCount := if s.hold == [] then 1 else s.holdCount + 1, writer := Ready))
    else To(s.(free := [t] + s.free, current := s.current - 1, writer := Ready))
  }

  function Next(s: Pool, a: Action): Result {
    match a
    case Fill(i, bytes) =>
      if i < |s.threads| && s.threads[i].Local? then
        To(s.(threads := s.threads[i := s.threads[i].(bytes := s.threads[i].bytes + bytes)]))
      else Disabled
    case QueueBuffer(i, alloc, mallocOk) =>
      if i < |s.threads| && s.threads[i].Local? then To(DoQueue(s, i, alloc, mallocOk)) else Disabled
    case Allocate(i) => if i < |s.threads| && s.threads[i].Asking? then DoAllocate(s, i) else Disabled
    case Wake(i) => if i < |s.threads| && s.threads[i].Waiting? && s.current != s.max then TakeFree(s, i) else Disabled
    case Write =>
      if s.writer.Ready? && s.queue != [] then To(s.(output := s.output + [s.queue[0]], writer := Wrote)) else Disabled
    case Pop =>
      if s.writer.Wrote? && s.queue != [] then
        var w := if s.queue[0].buf.None? then Ready else Freeing(s.queue[0].buf.value);
        To(s.(queue := s.queue[1..], writer := w))
      else Disabled
    case Free => if s.writer.Freeing? then DoFree(s, s.writer.buf) else Disabled
  }

  function Start(n: nat, max: nat): Pool {
    Pool(max, 0, 0, [], [], 0, [], Ready, seq(n, _ => Asking), [])
  }

  ghost predicate Run(n: nat, max: nat, tr: seq<Pool>, acts: seq<Action>) {
    && |tr| == |acts| + 1 && tr[0] == Start(n, max)
    && forall k :: 0 <= k < |acts| ==> Next(tr[k], acts[k]) == To(tr[k + 1])
  }

  ghost predicate Reachable(n: nat, max: nat, s: Pool) {
    exists tr, acts :: Run(n, max, tr, acts) && tr[|tr| - 1] == s
  }

  // ---------- where the buffers are ----------

  function Bit(b: bool): nat { if b then 1 else 0 }

  function Has(t: Thread, x: nat): nat { Bit(t.Local? && t.buf == x) }

  function LocalsOf(ts: seq<Thread>, x: nat): nat {
    if ts == [] then 0 else Has(ts[0], x) + LocalsOf(ts[1..], x)
  }

  function Locals(ts: seq<Thread>): nat {
    if ts == [] then 0 else Bit(ts[0].Local?) + Locals(ts[1..])
  }

  function QueuedOf(q: seq<Entry>, x: nat): nat {
    if q == [] then 0 else Bit(q[0].buf == Some(x)) + QueuedOf(q[1..], x)
  }

  function Queued(q: seq<Entry>): nat {
    if q == [] then 0 else Bit(q[0].buf.Some?) + Queued(q[1..])
  }

  function CountOf(s: seq<nat>, x: nat): nat {
    if s == [] then 0 else Bit(s[0] == x) + CountOf(s[1..], x)
  }

  /** The number of places buffer `x` is in: local, queued, with the writer, held back or free. */
  function Places(s: Pool, x: nat): nat {
    LocalsOf(s.threads, x) + QueuedOf(s.queue, x) + Bit(s.writer == Freeing(x)) +
    CountOf(s.hold, x) + CountOf(s.free, x)
  }

  /** What the counter counts: all buffers but the free ones. */
  function InUse(s: Pool): nat { Locals(s.threads) + Queued(s.queue) + Bit(s.writer.Freeing?) + |s.hold| }

  /** Each buffer made is in one place. */
  ghost predicate Placed(s: Pool) {
    forall x: nat {:trigger Places(s, x)} :: Places(s, x) == Bit(x < s.made)
  }

  /** The counter is exact, at most `max` buffers were made, and the hold list is for the limit only. */
  ghost predicate Counted(s: Pool) {
    && s.current == InUse(s) && s.made == InUse(s) + |s.free| && s.made <= s.max
    && (s.hold != [] ==> s.current == s.max && s.holdCount == |s.hold|)
    && (Waiting in s.threads ==> s.made == s.max)
    && (s.writer.Wrote? ==> s.queue != [])
  }

  lemma {:induction false} LocalsUpdate(ts: seq<Thread>, i: nat, t: Thread, x: nat)
    requires i < |ts|
    ensures LocalsOf(ts[i := t], x) == LocalsOf(ts, x) - Has(ts[i], x) + Has(t, x)
    ensures Locals(ts[i := t]) == Locals(ts) - Bit(ts[i].Local?) + Bit(t.Local?)
    decreases i
  {
    if i == 0 {
      assert ts[0 := t][1..] == ts[1..];
    } else {
      assert ts[i := t][1..] == ts[1..][i - 1 := t];
      LocalsUpdate(ts[1..], i - 1, t, x);
    }
  }

  lemma {:induction false} QueuedMore(q: seq<Entry>, e: Entry, x: nat)
    ensures QueuedOf(q + [e], x) == QueuedOf(q, x) + Bit(e.buf == Some(x))
    ensures Queued(q + [e]) == Queued(q) + Bit(e.buf.Some?)
  {
    if q == [] {
      assert (q + [e])[1..] == [];
    } else {
      assert (q + [e])[1..] == q[1..] + [e];
      QueuedMore(q[1..], e, x);
    }
  }

  lemma {:induction false} CountConcat(p: seq<nat>, q: seq<nat>, x: nat)
    ensures CountOf(p + q, x) == CountOf(p, x) + CountOf(q, x)
  {
    if p == [] {
      assert p + q == q;
    } else {
      assert (p + q)[1..] == p[1..] + q;
      CountConcat(p[1..], q, x);
    }
  }

  lemma WaitingStays(ts: seq<Thread>, i: nat, t: Thread)
    requires i < |ts| && t != Waiting
    ensures Waiting in ts[i := t] ==> Waiting in ts
  {
    if Waiting in ts[i := t] {
      var k :| 0 <= k < |ts| && ts[i := t][k] == Waiting;
      assert ts[k] == Waiting;
    }
  }

  // ---------- every step keeps the count ----------

  ghost predicate Good(s: Pool) { Placed(s) && Counted(s) }

  /** A thread changes what it does, but not the buffer it holds. */
  lemma SameBuffer(s: Pool, i: nat, t: Thread)
    requires Good(s) && i < |s.threads| && t.Local? == s.threads[i].Local?
    requires t.Local? ==> t.buf == s.threads[i].buf
    requires t == Waiting ==> s.made == s.max
    ensures Good(s.(threads := s.threads[i := t]))
  {
    var s' := s.(threads := s.threads[i := t]);
    forall x: nat ensures Places(s', x) == Places(s, x) { LocalsUpdate(s.threads, i, t, x); }
    LocalsUpdate(s.threads, i, t, 0);
    if t != Waiting { WaitingStays(s.threads, i, t); }
  }

  lemma EnqueueGood(s: Pool, i: nat, buf: Option<nat>, bytes: seq<nat>, t: Thread)
    requires Good(s) && i < |s.threads| && s.threads[i].Local? && t != Waiting
    requires if buf.None? then t.Local? && t.buf == s.threads[i].buf else !t.Local? && buf.value == s.threads[i].buf
    ensures Good(Enqueue(s, i, buf, bytes, t))
  {
    var s', e := Enqueue(s, i, buf, bytes, t), Entry(buf, i, bytes);
    forall x: nat ensures Places(s', x) == Places(s, x) {
      LocalsUpdate(s.threads, i, t, x);
      QueuedMore(s.queue, e, x);
    }
    LocalsUpdate(s.threads, i, t, 0);
    QueuedMore(s.queue, e, 0);
    WaitingStays(s.threads, i, t);
  }

  lemma TakeGood(s: Pool, i: nat)
    requires Good(s) && i < |s.threads| && !s.threads[i].Local? && s.free != []
    ensures TakeFree(s, i).To? && Good(TakeFree(s, i).pool)
  {
    var t, s' := Local(s.free[0], []), TakeFree(s, i).pool;
    forall x: nat ensures Places(s', x) == Places(s, x) { LocalsUpdate(s.threads, i, t, x); }
    LocalsUpdate(s.threads, i, t, 0);
    WaitingStays(s.threads, i, t);
  }

  lemma NewGood(s: Pool, i: nat)
    requires Good(s) && i < |s.threads| && s.threads[i].Asking? && s.free == [] && s.current != s.max
    ensures var r := DoAllocate(s, i); r.To? && Good(r.pool)
  {
    var t, s' := Local(s.made, []), DoAllocate(s, i).pool;
    forall x: nat ensures Places(s', x) == Bit(x < s.made + 1) {
      LocalsUpdate(s.threads, i, t, x);
      assert Places(s, x) == Bit(x < s.made);
    }
    LocalsUpdate(s.threads, i, t, 0);
    WaitingStays(s.threads, i, t);
  }

  lemma PopGood(s: Pool)
    requires Good(s) && s.writer.Wrote?
    ensures var r := Next(s, Pop); r.To? && Good(r.pool)
  {
    var s' := Next(s, Pop).pool;
    forall x: nat ensures Places(s', x) == Places(s, x) {}
  }

  lemma CountWith(p: seq<nat>, t: nat, q: seq<nat>, x: nat)
    ensures CountOf(p + [t], x) == CountOf(p, x) + Bit(t == x) && CountOf([t] + q, x) == Bit(t == x) + CountOf(q, x)
    ensures CountOf(p + [t] + q, x) == CountOf(p, x) + Bit(t == x) + CountOf(q, x)
  {
    assert [t][1..] == [] && CountOf([t], x) == Bit(t == x);
    CountConcat(p, [t], x);
    CountConcat([t], q, x);
    CountConcat(p + [t], q, x);
  }

  lemma FreeGood(s: Pool)
    requires Good(s) && s.writer.Freeing?
    ensures var r := Next(s, Free);
            if r.Crash? then s.current == s.max && s.queue == [] && s.hold == [] else r.To? && Good(r.pool)
  {
    var t, r := s.writer.buf, Next(s, Free);
    if r.To? {
      forall x: nat ensures Places(r.pool, x) == Places(s, x) {
        CountWith(s.hold, t, s.free, x);
      }
    }
  }

  /** Every step keeps the count, and only the writer can fail: with the one buffer it returns at the
      limit, nothing held back and nothing queued. */
  lemma StepGood(s: Pool, a: Action)
    requires Good(s)
    ensures var r := Next(s, a);
            && (r.To? ==> Good(r.pool))
            && (r.Crash? ==> a == Free && s.current == s.max && s.queue == [] && s.hold == [])
  {
    match a
    case Fill(i, bytes) =>
      if i < |s.threads| && s.threads[i].Local? {
        SameBuffer(s, i, s.threads[i].(bytes := s.threads[i].bytes + bytes));
      }
    case QueueBuffer(i, alloc, mallocOk) =>
      if i < |s.threads| && s.threads[i].Local? {
        var t := s.threads[i];
        EnqueueGood(s, i, None, t.bytes, t.(bytes := []));
        EnqueueGood(s, i, Some(t.buf), t.bytes, Asking);
        EnqueueGood(s, i, Some(t.buf), t.bytes, Finished);
      }
    case Allocate(i) =>
      if i < |s.threads| && s.threads[i].Asking? {
        if s.free != [] { TakeGood(s, i); }
        else if s.current == s.max { SameBuffer(s, i, Waiting); }
        else { NewGood(s, i); }
      }
    case Wake(i) =>
      if i < |s.threads| && s.threads[i].Waiting? && s.current != s.max {
        assert s.threads[i] in s.threads;
        TakeGood(s, i);
      }
    case Write =>
      if s.writer.Ready? && s.queue != [] {
        forall x: nat ensures Places(Next(s, Write).pool, x) == Places(s, x) {}
      }
    case Pop => if s.writer.Wrote? { PopGood(s); }
    case Free => if s.writer.Freeing? { FreeGood(s); }
  }

  // ---------- order ----------

  /** The bytes of thread `i` among these entries. */
  function BytesOf(q: seq<Entry>, i: nat): seq<nat> {
    if q == [] then [] else (if q[0].owner == i then q[0].bytes else []) + BytesOf(q[1..], i)
  }

  /** Entries not yet in the file. */
  function Pending(s: Pool): seq<Entry> { if s.writer.Wrote? && s.queue != [] then s.queue[1..] else s.queue }

  /** What thread `i` recorded: in the file, then queued, then in its own buffer. */
  function Content(s: Pool, i: nat): seq<nat> {
    BytesOf(s.output, i) + BytesOf(Pending(s), i) + LocalBytes(s, i)
  }

  function LocalBytes(s: Pool, i: nat): seq<nat> {
    if i < |s.threads| && s.threads[i].Local? then s.threads[i].bytes else []
  }

  lemma {:induction false} BytesConcat(p: seq<Entry>, q: seq<Entry>, i: nat)
    ensures BytesOf(p + q, i) == BytesOf(p, i) + BytesOf(q, i)
  {
    if p == [] {
      assert p + q == q;
    } else {
      assert (p + q)[1..] == p[1..] + q;
      BytesConcat(p[1..], q, i);
    }
  }

  lemma OneEntry(e: Entry, i: nat)
    ensures BytesOf([e], i) == if e.owner == i then e.bytes else []
  {
    assert [e][1..] == [];
  }

  /** Queued bytes were the thread's own, and are its own no longer. */
  lemma EnqueueOrder(s: Pool, j: nat, buf: Option<nat>, t: Thread, i: nat)
    requires j < |s.threads| && s.threads[j].Local? && (t.Local? ==> t.bytes == [])
    requires s.writer.Wrote? ==> s.queue != []
    ensures Content(Enqueue(s, j, buf, s.threads[j].bytes, t), i) == Content(s, i)
  {
    var e, s' := Entry(buf, j, s.threads[j].bytes), Enqueue(s, j, buf, s.threads[j].bytes, t);
    var a, b, one := BytesOf(s.output, i), BytesOf(Pending(s), i), BytesOf([e], i);
    assert Pending(s') == Pending(s) + [e];
    assert BytesOf(Pending(s'), i) == b + one by { BytesConcat(Pending(s), [e], i); }
    assert one + LocalBytes(s', i) == LocalBytes(s, i) by { OneEntry(e, i); }
    assert a + (b + one) + LocalBytes(s', i) == a + b + (one + LocalBytes(s', i));
  }

  lemma WriteOrder(s: Pool, i: nat)
    requires s.writer.Ready? && s.queue != []
    ensures Content(Next(s, Write).pool, i) == Content(s, i)
  {
    var e, s' := s.queue[0], Next(s, Write).pool;
    var a, b, rest := BytesOf(s.output, i), BytesOf([e], i), BytesOf(s.queue[1..], i);
    assert Pending(s) == s.queue && Pending(s') == s.queue[1..];
    assert BytesOf(s.queue, i) == b + rest by { OneEntry(e, i); }
    assert BytesOf(s'.output, i) == a + b by { BytesConcat(s.output, [e], i); }
    assert (a + b) + rest == a + (b + rest);
  }

  lemma FillOrder(s: Pool, j: nat, bytes: seq<nat>, i: nat)
    requires j < |s.threads| && s.threads[j].Local?
    ensures Content(Next(s, Fill(j, bytes)).pool, i) == Content(s, i) + if i == j then bytes else []
  {
    var a, s' := BytesOf(s.output, i) + BytesOf(Pending(s), i), Next(s, Fill(j, bytes)).pool;
    assert Pending(s') == Pending(s) && Content(s', i) == a + LocalBytes(s', i);
    if i == j {
      assert a + (LocalBytes(s, i) + bytes) == a + LocalBytes(s, i) + bytes;
    } else {
      assert Content(s, i) + [] == Content(s, i);
    }
  }

  function Recorded(a: Action, i: nat): seq<nat> { if a.Fill? && a.i == i then a.bytes else [] }

  /** No step loses, repeats or reorders what a thread recorded, and only recording adds to it. */
  lemma StepOrder(s: Pool, a: Action, i: nat)
    requires Good(s) && Next(s, a).To?
    ensures Content(Next(s, a).pool, i) == Content(s, i) + Recorded(a, i)
  {
    match a
    case Fill(j, bytes) => FillOrder(s, j, bytes, i);
    case QueueBuffer(j, alloc, mallocOk) =>
      var t := s.threads[j];
      EnqueueOrder(s, j, None, t.(bytes := []), i);
      EnqueueOrder(s, j, Some(t.buf), Asking, i);
      EnqueueOrder(s, j, Some(t.buf), Finished, i);
    case Allocate(_) =>
    case Wake(_) =>
    case Write => WriteOrder(s, i);
    case Pop =>
    case Free =>
  }

  /** A buffer with something in it is queued as one entry with its thread and its bytes: as a copy if it is
      little filled, memory can be had and the thread goes on, else as it is.  Nothing else changes. */
  lemma QueueAdds(s: Pool, i: nat, alloc: bool, mallocOk: bool)
    requires i < |s.threads| && s.threads[i].Local? && s.threads[i].bytes != []
    ensures var t := s.threads[i];
            var copy := alloc && |t.bytes| < 64 * 1024 && mallocOk;
            Next(s, QueueBuffer(i, alloc, mallocOk))
            == To(s.(queue := s.queue + [Entry(if copy then None else Some(t.buf), i, t.bytes)],
                     threads := s.threads[i := if copy then Local(t.buf, []) else if alloc then Asking else Finished]))
  {
  }

  // ---------- somebody goes on ----------

  /** The thread that queued a small copy last still has its buffer. */
  predicate CopyOwned(s: Pool) {
    s.queue != [] && s.queue[|s.queue| - 1].buf.None? ==>
      var i := s.queue[|s.queue| - 1].owner; i < |s.threads| && s.threads[i].Local?
  }

  /** While buffers are held back there is one that is not: local, queued or with the writer. */
  predicate OneMoves(s: Pool) { s.hold != [] ==> Locals(s.threads) + Queued(s.queue) + Bit(s.writer.Freeing?) > 0 }

  predicate Lively(s: Pool) { CopyOwned(s) && OneMoves(s) }

  lemma {:induction false} LocalCounts(ts: seq<Thread>, i: nat)
    requires i < |ts| && ts[i].Local?
    ensures Locals(ts) > 0
    decreases i
  {
    if i > 0 { LocalCounts(ts[1..], i - 1); }
  }

  /** A queue means a buffer in it, or at the thread whose copy is the last. */
  lemma QueueMoves(s: Pool)
    requires CopyOwned(s) && s.queue != []
    ensures Locals(s.threads) + Queued(s.queue) > 0
  {
    var n := |s.queue| - 1;
    if s.queue[n].buf.None? {
      LocalCounts(s.threads, s.queue[n].owner);
    } else {
      QueuedMore(s.queue[..n], s.queue[n], 0);
      assert s.queue[..n] + [s.queue[n]] == s.queue;
    }
  }

  lemma EnqueueLively(s: Pool, i: nat, buf: Option<nat>, bytes: seq<nat>, t: Thread)
    requires Lively(s) && i < |s.threads| && s.threads[i].Local? && (buf.None? ==> t.Local?)
    ensures Lively(Enqueue(s, i, buf, bytes, t))
  {
    LocalsUpdate(s.threads, i, t, 0);
    QueuedMore(s.queue, Entry(buf, i, bytes), 0);
  }

  lemma ThreadLively(s: Pool, i: nat, t: Thread)
    requires Lively(s) && i < |s.threads| && (s.threads[i].Local? ==> t.Local?)
    ensures Lively(s.(threads := s.threads[i := t]))
  {
    LocalsUpdate(s.threads, i, t, 0);
  }

  lemma QueueLively(s: Pool, i: nat, alloc: bool, mallocOk: bool)
    requires Lively(s) && i < |s.threads| && s.threads[i].Local?
    ensures Lively(DoQueue(s, i, alloc, mallocOk))
  {
    var t := s.threads[i];
    EnqueueLively(s, i, None, t.bytes, t.(bytes := []));
    EnqueueLively(s, i, Some(t.buf), t.bytes, Asking);
    EnqueueLively(s, i, Some(t.buf), t.bytes, Finished);
  }

  lemma PopLively(s: Pool)
    requires Lively(s) && s.writer.Wrote? && s.queue != []
    ensures Lively(Next(s, Pop).pool)
  {
  }

  lemma StepLively(s: Pool, a: Action)
    requires Good(s) && Lively(s) && Next(s, a).To?
    ensures Lively(Next(s, a).pool)
  {
    match a
    case Fill(i, bytes) => ThreadLively(s, i, s.threads[i].(bytes := s.threads[i].bytes + bytes));
    case QueueBuffer(i, alloc, mallocOk) => QueueLively(s, i, alloc, mallocOk);
    case Allocate(i) =>
      if s.free != [] { ThreadLively(s, i, Local(s.free[0], [])); }
      else { ThreadLively(s, i, Waiting); ThreadLively(s, i, Local(s.made, [])); }
    case Wake(i) => ThreadLively(s, i, Local(s.free[0], []));
    case Write =>
    case Pop => PopLively(s);
    case Free => if s.queue != [] { QueueMoves(s); }
  }

  // ---------- runs ----------

  ghost predicate Invariant(n: nat, max: nat, s: Pool) {
    && Good(s) && Lively(s) && |s.threads| == n && s.max == max
  }

  lemma {:induction false} NoLocals(n: nat, x: nat)
    ensures LocalsOf(seq(n, _ => Asking), x) == 0 && Locals(seq(n, _ => Asking)) == 0
  {
    if n > 0 {
      assert seq(n, _ => Asking)[1..] == seq(n - 1, _ => Asking);
      NoLocals(n - 1, x);
    }
  }

  lemma StartInvariant(n: nat, max: nat)
    ensures Invariant(n, max, Start(n, max))
  {
    forall x: nat ensures Places(Start(n, max), x) == 0 { NoLocals(n, x); }
    NoLocals(n, 0);
  }

  lemma StepInvariant(n: nat, max: nat, s: Pool, a: Action)
    requires Invariant(n, max, s) && Next(s, a).To?
    ensures Invariant(n, max, Next(s, a).pool)
  {
    StepGood(s, a);
    StepLively(s, a);
    StepKeeps(s, a);
  }

  lemma StepKeeps(s: Pool, a: Action)
    requires Next(s, a).To?
    ensures Next(s, a).pool.max == s.max && |Next(s, a).pool.threads| == |s.threads|
  {
  }

  lemma {:induction false} RunInvariant(n: nat, max: nat, tr: seq<Pool>, acts: seq<Action>, k: nat)
    requires Run(n, max, tr, acts) && k < |tr|
    ensures Invariant(n, max, tr[k])
  {
    if k == 0 {
      StartInvariant(n, max);
    } else {
      RunInvariant(n, max, tr, acts, k - 1);
      assert Next(tr[k - 1], acts[k - 1]) == To(tr[k - 1 + 1]);
      StepInvariant(n, max, tr[k - 1], acts[k - 1]);
    }
  }

  lemma ReachStep(n: nat, max: nat, s: Pool, a: Action)
    requires Reachable(n, max, s) && Next(s, a).To?
    ensures Reachable(n, max, Next(s, a).pool)
  {
    var tr, acts :| Run(n, max, tr, acts) && tr[|tr| - 1] == s;
    var tr', acts' := tr + [Next(s, a).pool], acts + [a];
    forall k | 0 <= k < |acts'| ensures Next(tr'[k], acts'[k]) == To(tr'[k + 1]) {
      if k < |acts| { assert Next(tr[k], acts[k]) == To(tr[k + 1]); }
    }
    assert Run(n, max, tr', acts');
  }

  /** In every reachable state each buffer made is in exactly one place, and buffers in use and free ones
      together are at most `max`. */
  lemma PoolConserved(n: nat, max: nat, s: Pool)
    requires Reachable(n, max, s)
    ensures forall x: nat :: x < s.made ==> Places(s, x) == 1
    ensures s.current == InUse(s) && InUse(s) + |s.free| == s.made <= max
  {
    var tr, acts :| Run(n, max, tr, acts) && tr[|tr| - 1] == s;
    RunInvariant(n, max, tr, acts, |tr| - 1);
  }

  /** What thread `i` recorded in the first `k` steps. */
  function Filled(acts: seq<Action>, k: nat, i: nat): seq<nat>
    requires k <= |acts|
  {
    if k == 0 then [] else Filled(acts, k - 1, i) + Recorded(acts[k - 1], i)
  }

  lemma StartContent(n: nat, max: nat, i: nat)
    ensures Content(Start(n, max), i) == []
  {
  }

  ghost predicate ContentIs(tr: seq<Pool>, acts: seq<Action>, k: nat, i: nat)
    requires k <= |acts| < |tr|
  {
    Content(tr[k], i) == Filled(acts, k, i)
  }

  lemma ContentFirst(n: nat, max: nat, tr: seq<Pool>, acts: seq<Action>, i: nat)
    requires Run(n, max, tr, acts)
    ensures ContentIs(tr, acts, 0, i)
  {
    assert tr[0] == Start(n, max);
    StartContent(n, max, i);
  }

  lemma ContentNext(n: nat, max: nat, tr: seq<Pool>, acts: seq<Action>, k: nat, i: nat)
    requires Run(n, max, tr, acts) && k < |acts| && ContentIs(tr, acts, k, i)
    ensures ContentIs(tr, acts, k + 1, i)
  {
    RunOrder(n, max, tr, acts, k, tr[k], tr[k + 1], i);
  }

  lemma {:induction false} ContentKept(n: nat, max: nat, tr: seq<Pool>, acts: seq<Action>, k: nat, i: nat)
    requires Run(n, max, tr, acts) && k <= |acts|
    ensures ContentIs(tr, acts, k, i)
  {
    if k == 0 {
      ContentFirst(n, max, tr, acts, i);
    } else {
      ContentKept(n, max, tr, acts, k - 1, i);
      ContentNext(n, max, tr, acts, k - 1, i);
    }
  }

  /** Along every run each thread's recorded bytes are in the file, then in the queue, then in its buffer:
      all of them, each once, in order. */
  lemma NothingLost(n: nat, max: nat, tr: seq<Pool>, acts: seq<Action>, i: nat)
    requires Run(n, max, tr, acts)
    ensures var s := tr[|acts|];
            BytesOf(s.output, i) + BytesOf(Pending(s), i) + LocalBytes(s, i) == Filled(acts, |acts|, i)
  {
    ContentKept(n, max, tr, acts, |acts|, i);
  }

  lemma RunOrder(n: nat, max: nat, tr: seq<Pool>, acts: seq<Action>, k: nat, s: Pool, s': Pool, i: nat)
    requires Run(n, max, tr, acts) && k < |acts| && s == tr[k] && s' == tr[k + 1]
    ensures Content(s', i) == Content(s, i) + Recorded(acts[k], i)
  {
    RunInvariant(n, max, tr, acts, k);
    assert Next(tr[k], acts[k]) == To(tr[k + 1]);
    StepOrder(s, acts[k], i);
  }

  /** Emptying a hold list gives back exactly the buffers in it and the one returned. */
  lemma DrainExact(n: nat, max: nat, s: Pool)
    requires Reachable(n, max, s) && s.writer.Freeing? && s.current == s.max && s.queue == [] && s.hold != []
    ensures Next(s, Free).To?
    ensures var s' := Next(s, Free).pool; |s'.free| == |s.free| + |s.hold| + 1 && s'.current == s.current - |s.hold| - 1
    ensures Next(s, Free).pool.current == InUse(Next(s, Free).pool)
  {
    ReachStep(n, max, s, Free);
    PoolConserved(n, max, s);
    PoolConserved(n, max, Next(s, Free).pool);
    var tr, acts :| Run(n, max, tr, acts) && tr[|tr| - 1] == s;
    RunInvariant(n, max, tr, acts, |tr| - 1);
  }

  /** A thread waits, and nobody has a buffer or an entry to go on with. */
  ghost predicate Stuck(s: Pool) {
    && Waiting in s.threads && s.current == s.max && s.queue == [] && s.writer.Ready?
    && forall i: nat :: i < |s.threads| ==> !s.threads[i].Local?
  }

  lemma {:induction false} LocalExists(ts: seq<Thread>) returns (i: nat)
    requires Locals(ts) > 0
    ensures i < |ts| && ts[i].Local?
  {
    if ts[0].Local? { i := 0; } else { var j := LocalExists(ts[1..]); i := j + 1; }
  }

  lemma NeverStuck(n: nat, max: nat, s: Pool)
    requires Reachable(n, max, s) && max > 0
    ensures !Stuck(s)
    ensures Waiting in s.threads && s.current != s.max ==> s.free != []
  {
    var tr, acts :| Run(n, max, tr, acts) && tr[|tr| - 1] == s;
    RunInvariant(n, max, tr, acts, |tr| - 1);
    if Locals(s.threads) > 0 { var i := LocalExists(s.threads); }
  }

  /** A thread can be left waiting with everybody else idle exactly at the limit of no buffer at all. */
  lemma StuckIff(n: nat, max: nat)
    requires n > 0
    ensures (exists s :: Reachable(n, max, s) && Stuck(s)) <==> max == 0
  {
    if max == 0 {
      AllocatedReachable(n, 0, 0);
      var s := Allocated(n, 0, 0);
      ReachStep(n, 0, s, Allocate(0));
      var s' := Next(s, Allocate(0)).pool;
      assert s'.threads[0] == Waiting && Stuck(s');
    } else {
      forall s | Reachable(n, max, s) ensures !Stuck(s) { NeverStuck(n, max, s); }
    }
  }

  // ---------- when the writer can fail ----------

  lemma {:induction false} LocalsBound(ts: seq<Thread>)
    ensures Locals(ts) <= |ts|
  {
    if ts != [] { LocalsBound(ts[1..]); }
  }

  /** With room for more than one buffer beyond the threads' own, nothing fails. */
  lemma NeverFails(n: nat, max: nat, s: Pool, a: Action)
    requires Reachable(n, max, s) && (max == 0 || max > n + 1)
    ensures !Next(s, a).Crash?
  {
    var tr, acts :| Run(n, max, tr, acts) && tr[|tr| - 1] == s;
    RunInvariant(n, max, tr, acts, |tr| - 1);
    StepGood(s, a);
    LocalsBound(s.threads);
  }

  /** Threads 0 to k - 1 have their first buffer. */
  function Allocated(n: nat, max: nat, k: nat): Pool {
    Start(n, max).(current := k, made := k, threads := seq(n, j => if 0 <= j < k then Local(j, []) else Asking))
  }

  lemma {:induction false} AllocatedReachable(n: nat, max: nat, k: nat)
    requires k <= n && k <= max
    ensures Reachable(n, max, Allocated(n, max, k))
  {
    if k == 0 {
      assert Allocated(n, max, 0).threads == Start(n, max).threads;
      assert Run(n, max, [Start(n, max)], []);
    } else {
      AllocatedReachable(n, max, k - 1);
      var s := Allocated(n, max, k - 1);
      assert Allocated(n, max, k).threads == s.threads[k - 1 := Local(k - 1, [])];
      ReachStep(n, max, s, Allocate(k - 1));
    }
  }

  /** The head of the queue is written and taken off. */
  lemma WriteAndPop(n: nat, max: nat, s: Pool)
    requires Reachable(n, max, s) && s.writer.Ready? && s.queue != [] && s.queue[0].buf.Some?
    ensures exists s' :: Reachable(n, max, s') && s'.writer == Freeing(s.queue[0].buf.value) && s'.queue == s.queue[1..]
                         && s'.current == s.current && s'.hold == s.hold && s'.max == s.max
  {
    ReachStep(n, max, s, Write);
    var s1 := Next(s, Write).pool;
    ReachStep(n, max, s1, Pop);
    var s2 := Next(s1, Pop).pool;
  }

  lemma CanFail(n: nat, max: nat)
    requires 1 <= max <= n + 1 && n > 0
    ensures exists s :: Reachable(n, max, s) && Next(s, Free).Crash?
  {
    var s: Pool;
    if max == 1 {
      AllocatedReachable(n, max, 1);
      var s0 := Allocated(n, max, 1);
      ReachStep(n, max, s0, QueueBuffer(0, false, true));
      s := Next(s0, QueueBuffer(0, false, true)).pool;
    } else {
      AllocatedReachable(n, max, max - 1);
      var s0 := Allocated(n, max, max - 1);
      var bytes := seq(Small, _ => 0);
      ReachStep(n, max, s0, Fill(0, bytes));
      var s1 := Next(s0, Fill(0, bytes)).pool;
      ReachStep(n, max, s1, QueueBuffer(0, true, true));
      var s2 := Next(s1, QueueBuffer(0, true, true)).pool;
      ReachStep(n, max, s2, Allocate(0));
      s := Next(s2, Allocate(0)).pool;
    }
    WriteAndPop(n, max, s);
    var s' :| Reachable(n, max, s') && s'.writer == Freeing(s.queue[0].buf.value) && s'.queue == s.queue[1..]
              && s'.current == s.current && s'.hold == s.hold && s'.max == s.max;
    assert Next(s', Free).Crash?;
  }

  /** The writer comes to link a buffer to the tail of an empty hold list in some run exactly when the
      limit leaves at most one buffer beyond one for each thread. */
  lemma FailsIff(n: nat, max: nat)
    requires n > 0
    ensures (exists s, a :: Reachable(n, max, s) && Next(s, a).Crash?) <==> 1 <= max <= n + 1
  {
    if 1 <= max <= n + 1 {
      CanFail(n, max);
    } else {
      forall s, a | Reachable(n, max, s) ensures !Next(s, a).Crash? { NeverFails(n, max, s, a); }
    }
  }
}
