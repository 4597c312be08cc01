/** What the home node maintains, stated on the views of all nodes: the effect of every
    message home sends is seen at once. */
module CoherenceHome {
  import opened Common
  import opened Coherence
  import opened CoherenceView

  type Views = seq<View>

  function Sent(c: Config, vs: Views, sends: seq<Send>): (r: Views)
    requires forall x :: x in sends ==> x.dst < |vs|
    ensures |r| == |vs|
    decreases |sends|
  {
    if sends == [] then vs
    else
      var x := sends[0];
      assert x in sends;
      Sent(c, vs[x.dst := Look1(c, x.dst, vs[x.dst], x.msg)], sends[1..])
  }

  lemma SentOne(c: Config, vs: Views, x: Send)
    requires x.dst < |vs|
    ensures Sent(c, vs, [x]) == vs[x.dst := Look1(c, x.dst, vs[x.dst], x.msg)]
  {
    assert [x][0] == x && [x][1..] == [];
  }

  predicate FromHome(t: MsgType) {
    t.Invalidate? || t.Fetch? || t.FetchInvalidate? || t.DataValueReply? || t.DataValueReplyE? ||
    t.InvalidateOtherAck? || t.Rollback?
  }

  predicate ToNodes(c: Config, sends: seq<Send>) {
    forall x :: x in sends ==> x.dst < c.n && FromHome(x.msg.typ)
  }

  lemma {:induction false} SentConcat(c: Config, vs: Views, a: seq<Send>, b: seq<Send>)
    requires forall x :: x in a ==> x.dst < |vs|
    requires forall x :: x in b ==> x.dst < |vs|
    ensures Sent(c, vs, a + b) == Sent(c, Sent(c, vs, a), b)
    decreases |a|
  {
    if a == [] {
      assert a + b == b;
    } else {
      assert a[0] in a;
      assert (a + b)[1..] == a[1..] + b;
      SentConcat(c, vs[a[0].dst := Look1(c, a[0].dst, vs[a[0].dst], a[0].msg)], a[1..], b);
    }
  }

  /** Broadcasting INVALIDATE touches exactly the sharers from `k` on, once each. */
  lemma {:induction false} SentInvalidate(c: Config, me: nat, vs: Views, mask: set<nat>, k: nat)
    requires |vs| == c.n && k <= c.n
    ensures var a := InvalidateAll(c, me, mask, k);
            ToNodes(c, a) &&
            forall j :: 0 <= j < c.n ==>
              Sent(c, vs, a)[j] == if j >= k && j in mask then Look1(c, j, vs[j], Msg(me, Invalidate)) else vs[j]
    decreases c.n - k
  {
    if k < c.n {
      var vs' := if k in mask then vs[k := Look1(c, k, vs[k], Msg(me, Invalidate))] else vs;
      SentInvalidate(c, me, vs', mask, k + 1);
      var a := InvalidateAll(c, me, mask, k + 1);
      if k in mask {
        var b := InvalidateAll(c, me, mask, k);
        assert b == [Send(k, Msg(me, Invalidate))] + a;
        assert b[1..] == a;
      } else {
        assert [] + a == a;
      }
    }
  }

  function From(mask: set<nat>, k: nat, n: nat): set<nat> {
    set j: nat | j in mask && k <= j < n
  }

  lemma {:induction false} InvalidateCount(c: Config, me: nat, mask: set<nat>, k: nat)
    requires k <= c.n
    ensures |InvalidateAll(c, me, mask, k)| == |From(mask, k, c.n)|
    decreases c.n - k
  {
    if k < c.n {
      InvalidateCount(c, me, mask, k + 1);
      if k in mask {
        assert From(mask, k, c.n) == From(mask, k + 1, c.n) + {k};
      } else {
        assert From(mask, k, c.n) == From(mask, k + 1, c.n);
      }
    } else {
      assert From(mask, k, c.n) == {};
    }
  }

  // ---------- the invariant ----------

  predicate Quiet(v: View) { v.line.Gone? && v.wb == 0 && v.ack == 0 }

  function AskOf(t: MsgType): Phase
    requires IsRequest(t)
  {
    match t case ReadMiss => AskRead case WriteMiss => AskWrite case _ => AskUpgrade
  }

  predicate OwnedStatus(e: Entry) { e.status.Modified? || e.status.Exclusive? }

  predicate OthersQuiet(vs: Views, p: nat) {
    forall i :: 0 <= i < |vs| && i != p ==> Quiet(vs[i])
  }

  predicate SharersIn(vs: Views, mask: set<nat>) {
    forall i :: 0 <= i < |vs| ==>
      vs[i].wb == 0 && vs[i].ack == 0 && !vs[i].line.Owned? && (vs[i].line.Copy? ==> i in mask)
  }

  predicate InRange(mask: set<nat>, n: nat) { forall i :: i in mask ==> i < n }

  /** `p` owns the line, or has given it up and its write-back is in home's queue. */
  predicate IdleOwner(vs: Views, p: nat, hb: multiset<Msg>)
    requires p < |vs|
  {
    OthersQuiet(vs, p) && vs[p].ack == 0 &&
    if vs[p].wb == 0 then vs[p].line.Owned?
    else vs[p].line.Gone? && vs[p].wb == 1 && hb[Msg(p, DataWriteBack)] == 1
  }

  /** `p` has been told to give the line up and owes one write-back. */
  predicate BusyOwner(vs: Views, p: nat, m: Msg)
    requires p < |vs|
  {
    OthersQuiet(vs, p) && vs[p].ack == 0 && vs[p].wb == 1 &&
    !vs[p].line.Owned? && (m.typ.WriteMiss? ==> vs[p].line.Gone?)
  }

  /** No request is being served.  An owner without the line has its write-back in home's queue. */
  ghost predicate IdleDir(c: Config, dir: Option<Entry>, vs: Views, hb: multiset<Msg>) {
    var e := DirLookup(dir);
    match e.status
    case Uncached => e.mask == {} && forall i :: 0 <= i < |vs| ==> Quiet(vs[i])
    case Shared => e.mask != {} && InRange(e.mask, |vs|) && SharersIn(vs, e.mask)
    case _ =>
      exists p: nat :: p < |vs| && e.mask == {p} && IdleOwner(vs, p, hb)
  }

  function Acking(vs: Views): set<nat> {
    set i: nat | i < |vs| && vs[i].ack == 1
  }

  predicate Invalidating(vs: Views, mask: set<nat>, m: Msg) {
    forall i :: 0 <= i < |vs| ==>
      && vs[i].wb == 0 && vs[i].ack <= 1 && !vs[i].line.Owned?
      && (vs[i].line.Copy? ==> m.typ.InvalidateOther? && i == m.src && i in mask)
      && (vs[i].ack > 0 ==> i in mask)
  }

  /** Request `m` is being served: sharers owe acknowledgements, or the owner owes one write-back. */
  ghost predicate BusyDir(c: Config, dir: Option<Entry>, pending: Option<int>, m: Msg, vs: Views) {
    var e := DirLookup(dir);
    match e.status
    case Uncached => false
    case Shared =>
      && (m.typ.WriteMiss? || m.typ.InvalidateOther?)
      && Acking(vs) != {} && pending == Some(|Acking(vs)|)
      && Invalidating(vs, e.mask, m)
    case _ =>
      && (m.typ.WriteMiss? || m.typ.ReadMiss?)
      && pending == None
      && exists p: nat :: p < |vs| && e.mask == {p} && BusyOwner(vs, p, m)
  }

  predicate AllOk(vs: Views) { forall i :: 0 <= i < |vs| ==> ViewOk(vs[i]) }

  predicate SamePhase(vs: Views, ws: Views) {
    |vs| == |ws| && forall i :: 0 <= i < |vs| ==> vs[i].phase == ws[i].phase
  }

  predicate SamePhaseBut(vs: Views, ws: Views, r: nat) {
    |vs| == |ws| && forall i :: 0 <= i < |vs| && i != r ==> vs[i].phase == ws[i].phase
  }

  // ---------- serving one request ----------

  ghost predicate ReadyFor(c: Config, st: Slice, m: Msg, vs: Views, hb: multiset<Msg>) {
    && c.Valid() && |vs| == c.n && AllOk(vs)
    && IsRequest(m.typ) && m.src < c.n && vs[m.src].phase == AskOf(m.typ)
    && st.pending == None && IdleDir(c, st.dir, vs, hb)
  }

  ghost predicate Served(c: Config, st: Slice, m: Msg, vs: Views, hb: multiset<Msg>, o: Out) {
    && |vs| == c.n && m.src < c.n && o.ok && ToNodes(c, o.sends) && o.cache == []
    && o.st == st.(dir := o.st.dir, pending := o.st.pending)
    && var ws := Sent(c, vs, o.sends);
       AllOk(ws) &&
       if o.handled then
         o.st.pending == None && IdleDir(c, o.st.dir, ws, hb) && !ws[m.src].phase.Asks() && SamePhaseBut(vs, ws, m.src)
       else
         o.serviced && BusyDir(c, o.st.dir, o.st.pending, m, ws) && SamePhase(vs, ws)
  }

  lemma OwnerOf(p: nat, n: nat)
    requires p < n
    ensures Owner({p}, 0, n) == p
  {
    assert p in {p};
  }

  /** The owner is asked for the line. */
  lemma AskOwner(c: Config, p: nat, m: Msg, vs: Views, hb: multiset<Msg>, typ: MsgType)
    requires c.Valid() && |vs| == c.n && AllOk(vs) && p < c.n && IdleOwner(vs, p, hb)
    requires typ == if m.typ.WriteMiss? then FetchInvalidate else Fetch
    ensures var a := [Send(p, Msg(c.home, typ))];
            && ToNodes(c, a)
            && var ws := Sent(c, vs, a);
               AllOk(ws) && SamePhase(vs, ws) && BusyOwner(ws, p, m)
  {
    SentOne(c, vs, Send(p, Msg(c.home, typ)));
  }

  /** An answer to the requester `r`. */
  lemma Answer(c: Config, r: nat, vs: Views, typ: MsgType)
    requires c.Valid() && |vs| == c.n && AllOk(vs) && r < c.n && vs[r].phase.Asks()
    requires match typ
             case DataValueReply => vs[r].phase.AskRead? || vs[r].phase.AskWrite?
             case DataValueReplyE => vs[r].phase.AskRead?
             case InvalidateOtherAck => vs[r].phase.AskUpgrade?
             case Rollback => vs[r].phase.AskUpgrade? && vs[r].line.Gone?
             case _ => false
    ensures var a := [Send(r, Msg(c.home, typ))];
            && ToNodes(c, a)
            && var ws := Sent(c, vs, a);
               && AllOk(ws) && SamePhaseBut(vs, ws, r) && !ws[r].phase.Asks()
               && ws == vs[r := ws[r]]
               && ws[r].wb == vs[r].wb && ws[r].ack == vs[r].ack
               && ws[r].line == match typ
                                case DataValueReply => if vs[r].phase.AskRead? then Copy else Owned
                                case Rollback => Gone
                                case _ => Owned
  {
    SentOne(c, vs, Send(r, Msg(c.home, typ)));
  }

  /** An upgrade that meets another owner is sent back; the owner stays. */
  lemma RollBack(c: Config, m: Msg, vs: Views, hb: multiset<Msg>, p: nat)
    requires c.Valid() && |vs| == c.n && AllOk(vs) && p < c.n && IdleOwner(vs, p, hb)
    requires m.src < c.n && vs[m.src].phase.AskUpgrade?
    ensures var a := [Send(m.src, Msg(c.home, Rollback))];
            && ToNodes(c, a)
            && var ws := Sent(c, vs, a);
               AllOk(ws) && IdleOwner(ws, p, hb) && !ws[m.src].phase.Asks() && SamePhaseBut(vs, ws, m.src)
  {
    Answer(c, m.src, vs, Rollback);
  }

  lemma ServeOwnedOk(c: Config, st: Slice, m: Msg, vs: Views, hb: multiset<Msg>)
    requires ReadyFor(c, st, m, vs, hb) && OwnedStatus(DirLookup(st.dir))
    ensures Served(c, st, m, vs, hb, Serve(c, c.home, st, m))
  {
    var o := Serve(c, c.home, st, m);
    var p: nat :| p < |vs| && DirLookup(st.dir).mask == {p} && IdleOwner(vs, p, hb);
    OwnerOf(p, c.n);
    if m.typ.InvalidateOther? {
      RollBack(c, m, vs, hb, p);
    } else {
      AskOwner(c, p, m, vs, hb, if m.typ.WriteMiss? then FetchInvalidate else Fetch);
    }
  }

  lemma ServeUncachedOk(c: Config, st: Slice, m: Msg, vs: Views, hb: multiset<Msg>)
    requires ReadyFor(c, st, m, vs, hb) && DirLookup(st.dir).status.Uncached?
    ensures Served(c, st, m, vs, hb, Serve(c, c.home, st, m))
  {
    var o := Serve(c, c.home, st, m);
    Answer(c, m.src, vs, o.sends[0].msg.typ);
    if !m.typ.InvalidateOther? && o.st.dir.value.status != Shared {
      assert IdleOwner(Sent(c, vs, o.sends), m.src, hb);
    }
  }

  lemma ServeSharedOk(c: Config, st: Slice, m: Msg, vs: Views, hb: multiset<Msg>)
    requires ReadyFor(c, st, m, vs, hb) && DirLookup(st.dir).status.Shared?
    ensures Served(c, st, m, vs, hb, Serve(c, c.home, st, m))
  {
    var o := Serve(c, c.home, st, m);
    var e := DirLookup(st.dir);
    if m.typ.ReadMiss? {
      Answer(c, m.src, vs, DataValueReply);
    } else if m.typ.WriteMiss? {
      InvalidatingSharers(c, e.mask, e.mask, m, vs);
    } else {
      var rest := e.mask - {m.src};
      InvalidateCount(c, c.home, rest, 0);
      assert From(rest, 0, c.n) == rest;
      if rest == {} {
        Answer(c, m.src, vs, InvalidateOtherAck);
        assert IdleOwner(Sent(c, vs, o.sends), m.src, hb);
      } else {
        InvalidatingSharers(c, e.mask, rest, m, vs);
      }
    }
  }

  lemma ServeOk(c: Config, st: Slice, m: Msg, vs: Views, hb: multiset<Msg>)
    requires ReadyFor(c, st, m, vs, hb)
    ensures Served(c, st, m, vs, hb, Serve(c, c.home, st, m))
  {
    var status := DirLookup(st.dir).status;
    if status.Uncached? {
      ServeUncachedOk(c, st, m, vs, hb);
    } else if status.Shared? {
      ServeSharedOk(c, st, m, vs, hb);
    } else {
      ServeOwnedOk(c, st, m, vs, hb);
    }
  }

  /** After the broadcast the acknowledgements owed are exactly those home counted. */
  lemma InvalidatingSharers(c: Config, all: set<nat>, mask: set<nat>, m: Msg, vs: Views)
    requires c.Valid() && |vs| == c.n && AllOk(vs) && mask <= all && InRange(all, c.n) && SharersIn(vs, all)
    requires mask == if m.typ.InvalidateOther? then all - {m.src} else all
    ensures var a := InvalidateAll(c, c.home, mask, 0);
            && ToNodes(c, a)
            && var ws := Sent(c, vs, a);
               && AllOk(ws) && SamePhase(vs, ws) && Invalidating(ws, all, m)
               && Acking(ws) == mask && |a| == |mask|
  {
    var a := InvalidateAll(c, c.home, mask, 0);
    SentInvalidate(c, c.home, vs, mask, 0);
    InvalidateCount(c, c.home, mask, 0);
    assert From(mask, 0, c.n) == mask;
    InvalidatedViews(c, all, mask, m, vs, Sent(c, vs, a));
  }

  lemma InvalidatedViews(c: Config, all: set<nat>, mask: set<nat>, m: Msg, vs: Views, ws: Views)
    requires |vs| == c.n && AllOk(vs) && mask <= all && InRange(all, c.n) && SharersIn(vs, all) && |ws| == c.n
    requires mask == if m.typ.InvalidateOther? then all - {m.src} else all
    requires forall j :: 0 <= j < c.n ==>
               ws[j] == if j in mask then Look1(c, j, vs[j], Msg(c.home, Invalidate)) else vs[j]
    ensures AllOk(ws) && SamePhase(vs, ws) && Invalidating(ws, all, m) && Acking(ws) == mask
  {
    forall i | 0 <= i < c.n
      ensures ws[i].ack == if i in mask then 1 else 0
    {
    }
  }

  // ---------- the queue of requests ----------

  function Msgs(q: seq<Blocked>): multiset<Msg> {
    if q == [] then multiset{} else multiset{q[0].msg} + Msgs(q[1..])
  }

  lemma {:induction false} MsgsAppend(q: seq<Blocked>, b: Blocked)
    ensures Msgs(q + [b]) == Msgs(q) + multiset{b.msg}
    decreases |q|
  {
    if q == [] {
      assert q + [b] == [b] && [b][1..] == [];
    } else {
      assert (q + [b])[1..] == q[1..] + [b];
      MsgsAppend(q[1..], b);
    }
  }

  predicate Waiting(c: Config, q: seq<Blocked>) {
    forall k :: 0 <= k < |q| ==> !q[k].serviced && IsRequest(q[k].msg.typ) && q[k].msg.src < c.n
  }

  /** The front of a non-empty queue is being served, the rest is not. */
  predicate Queue(c: Config, q: seq<Blocked>) {
    q != [] ==> q[0].serviced && IsRequest(q[0].msg.typ) && q[0].msg.src < c.n && Waiting(c, q[1..])
  }

  /** Each node's outstanding request is in the bag exactly once, and nothing else is. */
  predicate OneEach(vs: Views, bag: multiset<Msg>) {
    forall j: nat, t :: j < |vs| && IsRequest(t) ==>
      bag[Msg(j, t)] == if vs[j].phase == AskOf(t) then 1 else 0
  }

  ghost predicate Core(c: Config, dir: Option<Entry>, pending: Option<int>, q: seq<Blocked>, vs: Views,
                       hb: multiset<Msg>) {
    if q == [] then pending == None && IdleDir(c, dir, vs, hb)
    else BusyDir(c, dir, pending, q[0].msg, vs)
  }

  ghost predicate HomeInv(c: Config, dir: Option<Entry>, pending: Option<int>, q: seq<Blocked>, vs: Views,
                          hb: multiset<Msg>) {
    && c.Valid() && |vs| == c.n && AllOk(vs) && Queue(c, q)
    && OneEach(vs, hb + Msgs(q))
    && Core(c, dir, pending, q, vs, hb)
  }

  ghost predicate Kept(c: Config, st: Slice, vs: Views, hb: multiset<Msg>, o: Out) {
    && |vs| == c.n && o.ok && o.cache == [] && ToNodes(c, o.sends)
    && o.st.line == st.line && o.st.phase == st.phase
    && HomeInv(c, o.st.dir, o.st.pending, o.st.blocked, Sent(c, vs, o.sends), hb)
  }

  lemma OneEachSame(vs: Views, ws: Views, bag: multiset<Msg>, bag': multiset<Msg>)
    requires OneEach(vs, bag) && SamePhase(vs, ws)
    requires forall j, t :: IsRequest(t) ==> bag'[Msg(j, t)] == bag[Msg(j, t)]
    ensures OneEach(ws, bag')
  {
  }

  lemma OneEachServed(c: Config, vs: Views, ws: Views, m: Msg, bag: multiset<Msg>)
    requires IsRequest(m.typ) && m.src < |vs| && OneEach(vs, bag + multiset{m})
    requires SamePhaseBut(vs, ws, m.src) && !ws[m.src].phase.Asks()
    ensures OneEach(ws, bag)
  {
    forall j: nat, t | j < |ws| && IsRequest(t)
      ensures bag[Msg(j, t)] == if ws[j].phase == AskOf(t) then 1 else 0
    {
      assert (bag + multiset{m})[Msg(j, t)] == if vs[j].phase == AskOf(t) then 1 else 0;
      if j == m.src && t != m.typ {
        assert (bag + multiset{m})[m] == 1;
      }
    }
  }

  /** A request that has to wait stays at the front. */
  lemma ServedBlocks(c: Config, st: Slice, m: Msg, vs: Views, hb: multiset<Msg>, o: Out)
    requires c.Valid() && |vs| == c.n && Waiting(c, st.blocked) && OneEach(vs, hb + Msgs(st.blocked))
    requires st.blocked != [] && m == st.blocked[0].msg && !o.handled
    requires Served(c, st.(blocked := st.blocked[1..]), m, vs, hb, o)
    ensures var q := [Blocked(m, true)] + st.blocked[1..];
            Kept(c, st, vs, hb, Done(o.st.(blocked := q), o.sends, [], o.ok))
  {
    var rest := st.blocked[1..];
    var q := [Blocked(m, true)] + rest;
    assert q[1..] == rest;
    assert Msgs(q) == Msgs(st.blocked);
    OneEachSame(vs, Sent(c, vs, o.sends), hb + Msgs(st.blocked), hb + Msgs(q));
  }

  lemma {:induction false} DrainOk(c: Config, st: Slice, vs: Views, hb: multiset<Msg>)
    requires c.Valid() && |vs| == c.n && AllOk(vs) && Waiting(c, st.blocked)
    requires st.pending == None && IdleDir(c, st.dir, vs, hb) && OneEach(vs, hb + Msgs(st.blocked))
    ensures Kept(c, st, vs, hb, Drain(c, c.home, st))
    decreases |st.blocked|
  {
    if st.blocked != [] {
      var m, rest := st.blocked[0].msg, st.blocked[1..];
      var bag := hb + Msgs(rest);
      assert hb + Msgs(st.blocked) == bag + multiset{m};
      assert (bag + multiset{m})[Msg(m.src, m.typ)] >= 1;
      var st1 := st.(blocked := rest);
      ServeOk(c, st1, m, vs, hb);
      var o := Serve(c, c.home, st1, m);
      if o.handled {
        var ws := Sent(c, vs, o.sends);
        OneEachServed(c, vs, ws, m, bag);
        DrainOk(c, o.st, ws, hb);
        SentConcat(c, vs, o.sends, Drain(c, c.home, o.st).sends);
      } else {
        ServedBlocks(c, st, m, vs, hb, o);
      }
    }
  }

  // ---------- what home does with a message for home ----------

  lemma RequestIdleOk(c: Config, st: Slice, m: Msg, vs: Views, hb: multiset<Msg>)
    requires IsRequest(m.typ) && m.src < c.n && st.blocked == []
    requires HomeInv(c, st.dir, st.pending, st.blocked, vs, hb + multiset{m})
    ensures Kept(c, st, vs, hb, Receive(c, c.home, st, m))
  {
    var all := hb + multiset{m};
    assert all + Msgs([]) == all && hb + Msgs([]) == hb;
    assert all[Msg(m.src, m.typ)] >= 1;
    ServeOk(c, st, m, vs, hb);
    var o := Serve(c, c.home, st, m);
    var ws := Sent(c, vs, o.sends);
    if o.handled {
      OneEachServed(c, vs, ws, m, hb);
    } else {
      var q := [Blocked(m, true)];
      assert Block([], Blocked(m, true)) == q;
      assert q[1..] == [];
      assert hb + Msgs(q) == all;
    }
  }

  lemma WaitingAppend(c: Config, q: seq<Blocked>, b: Blocked)
    requires Waiting(c, q) && !b.serviced && IsRequest(b.msg.typ) && b.msg.src < c.n
    ensures Waiting(c, q + [b])
  {
  }

  lemma TailAppend(q: seq<Blocked>, b: Blocked)
    requires q != []
    ensures (q + [b])[1..] == q[1..] + [b] && (q + [b])[0] == q[0]
  {
  }

  lemma QueueAppend(c: Config, q: seq<Blocked>, m: Msg)
    requires Queue(c, q) && q != [] && IsRequest(m.typ) && m.src < c.n
    ensures var r := q + [Blocked(m, false)];
            Queue(c, r) && r[0] == q[0] && Msgs(r) == Msgs(q) + multiset{m}
  {
    var b := Blocked(m, false);
    MsgsAppend(q, b);
    WaitingAppend(c, q[1..], b);
    TailAppend(q, b);
  }

  lemma RequestBusyOk(c: Config, st: Slice, m: Msg, vs: Views, hb: multiset<Msg>)
    requires IsRequest(m.typ) && m.src < c.n && st.blocked != []
    requires HomeInv(c, st.dir, st.pending, st.blocked, vs, hb + multiset{m})
    ensures HomeInv(c, st.dir, st.pending, st.blocked + [Blocked(m, false)], vs, hb)
  {
    QueueAppend(c, st.blocked, m);
    assert hb + Msgs(st.blocked + [Blocked(m, false)]) == hb + multiset{m} + Msgs(st.blocked);
  }

  /** Home takes in the last step of the demand it waited for: the front request is answered. */
  lemma FrontOk(c: Config, st: Slice, vs: Views, hb: multiset<Msg>, typ: MsgType, st1: Slice)
    requires c.Valid() && |vs| == c.n && AllOk(vs) && Queue(c, st.blocked) && st.blocked != []
    requires OneEach(vs, hb + Msgs(st.blocked))
    requires var m := st.blocked[0].msg;
             && typ == (if m.typ.InvalidateOther? then InvalidateOtherAck else DataValueReply)
             && st1 == st.(blocked := st.blocked[1..], dir := st1.dir, pending := None)
             && IdleDir(c, st1.dir, Sent(c, vs, [Send(m.src, Msg(c.home, typ))]), hb)
    ensures var o := Drain(c, c.home, st1);
            var a := [Send(st.blocked[0].msg.src, Msg(c.home, typ))];
            Kept(c, st, vs, hb, o.(sends := a + o.sends))
  {
    var m, rest := st.blocked[0].msg, st.blocked[1..];
    var a := [Send(m.src, Msg(c.home, typ))];
    var bag := hb + Msgs(rest);
    assert hb + Msgs(st.blocked) == bag + multiset{m};
    assert (bag + multiset{m})[Msg(m.src, m.typ)] >= 1;
    Answer(c, m.src, vs, typ);
    var ws := Sent(c, vs, a);
    OneEachServed(c, vs, ws, m, bag);
    DrainOk(c, st1, ws, hb);
    SentConcat(c, vs, a, Drain(c, c.home, st1).sends);
  }

  lemma WriteBackIdleOk(c: Config, st: Slice, p: nat, vs: Views, ws: Views, hb: multiset<Msg>)
    requires p < c.n && st.blocked == []
    requires HomeInv(c, st.dir, st.pending, st.blocked, vs, hb + multiset{Msg(p, DataWriteBack)})
    requires vs[p].wb > 0 && ws == vs[p := vs[p].(wb := vs[p].wb - 1)] && ViewOk(ws[p])
    ensures Kept(c, st, ws, hb, HandleWriteBack(c, c.home, st, p))
  {
    OneEachSame(vs, ws, hb + multiset{Msg(p, DataWriteBack)} + Msgs(st.blocked), hb + Msgs([]));
    assert AllOk(ws);
  }

  /** The write-back comes from the one owner whose copy the front request waits for. */
  lemma WroteBack(c: Config, st: Slice, p: nat, vs: Views, ws: Views, hb: multiset<Msg>)
    requires p < c.n && st.blocked != []
    requires HomeInv(c, st.dir, st.pending, st.blocked, vs, hb + multiset{Msg(p, DataWriteBack)})
    requires vs[p].wb > 0 && ws == vs[p := vs[p].(wb := vs[p].wb - 1)] && ViewOk(ws[p])
    ensures OneEach(ws, hb + Msgs(st.blocked)) && AllOk(ws) && Queue(c, st.blocked) && st.pending == None
    ensures BusyOwner(vs, p, st.blocked[0].msg) && DirLookup(st.dir).mask == {p} && OwnedStatus(DirLookup(st.dir))
    ensures !st.blocked[0].msg.typ.InvalidateOther?
  {
    OneEachSame(vs, ws, hb + multiset{Msg(p, DataWriteBack)} + Msgs(st.blocked), hb + Msgs(st.blocked));
  }

  lemma WriteBackBusyOk(c: Config, st: Slice, p: nat, vs: Views, ws: Views, hb: multiset<Msg>)
    requires p < c.n && st.blocked != []
    requires HomeInv(c, st.dir, st.pending, st.blocked, vs, hb + multiset{Msg(p, DataWriteBack)})
    requires vs[p].wb > 0 && ws == vs[p := vs[p].(wb := vs[p].wb - 1)] && ViewOk(ws[p])
    ensures Kept(c, st, ws, hb, HandleWriteBack(c, c.home, st, p))
  {
    var m := st.blocked[0].msg;
    WroteBack(c, st, p, vs, ws, hb);
    assert (hb + Msgs(st.blocked))[Msg(m.src, m.typ)] >= 1;
    Answer(c, m.src, ws, DataValueReply);
    var dir := DirUpdate(st.dir, if m.typ.WriteMiss? then Modified else Shared, m.src);
    if m.typ.WriteMiss? {
      assert IdleOwner(Sent(c, ws, [Send(m.src, Msg(c.home, DataValueReply))]), m.src, hb);
    }
    FrontOk(c, st, ws, hb, DataValueReply, st.(blocked := st.blocked[1..], dir := dir));
  }

  /** A node that owes an acknowledgement does so for the front request. */
  lemma OwesFront(c: Config, dir: Option<Entry>, pending: Option<int>, q: seq<Blocked>, p: nat, vs: Views,
                  hb: multiset<Msg>)
    requires p < c.n && HomeInv(c, dir, pending, q, vs, hb) && vs[p].ack > 0
    ensures q != [] && pending == Some(|Acking(vs)|) && DirLookup(dir).status.Shared? && vs[p].ack == 1
    ensures Invalidating(vs, DirLookup(dir).mask, q[0].msg)
    ensures q[0].msg.typ.WriteMiss? || q[0].msg.typ.InvalidateOther?
  {
  }

  /** An acknowledgement leaves one sharer less to wait for. */
  lemma Acknowledged(c: Config, st: Slice, p: nat, vs: Views, ws: Views, hb: multiset<Msg>)
    requires p < c.n && HomeInv(c, st.dir, st.pending, st.blocked, vs, hb + multiset{Msg(p, InvalidateAck)})
    requires vs[p].ack > 0 && ws == vs[p := vs[p].(ack := vs[p].ack - 1)] && ViewOk(ws[p])
    ensures st.blocked != [] && st.pending == Some(|Acking(ws)| + 1) && DirLookup(st.dir).status.Shared?
    ensures AllOk(ws) && OneEach(ws, hb + Msgs(st.blocked)) && Queue(c, st.blocked)
    ensures Invalidating(ws, DirLookup(st.dir).mask, st.blocked[0].msg)
    ensures st.blocked[0].msg.typ.WriteMiss? || st.blocked[0].msg.typ.InvalidateOther?
  {
    OwesFront(c, st.dir, st.pending, st.blocked, p, vs, hb + multiset{Msg(p, InvalidateAck)});
    OneEachSame(vs, ws, hb + multiset{Msg(p, InvalidateAck)} + Msgs(st.blocked), hb + Msgs(st.blocked));
    assert Acking(ws) == Acking(vs) - {p};
  }

  lemma InvalidateAckOk(c: Config, st: Slice, p: nat, vs: Views, ws: Views, hb: multiset<Msg>)
    requires p < c.n && HomeInv(c, st.dir, st.pending, st.blocked, vs, hb + multiset{Msg(p, InvalidateAck)})
    requires vs[p].ack > 0 && ws == vs[p := vs[p].(ack := vs[p].ack - 1)] && ViewOk(ws[p])
    ensures Kept(c, st, ws, hb, HandleInvalidateAck(c, c.home, st))
  {
    Acknowledged(c, st, p, vs, ws, hb);
    if st.pending == Some(1) {
      LastAckOk(c, st, ws, hb);
    }
  }

  lemma LastAckOk(c: Config, st: Slice, ws: Views, hb: multiset<Msg>)
    requires c.Valid() && |ws| == c.n && AllOk(ws) && Queue(c, st.blocked) && st.blocked != []
    requires OneEach(ws, hb + Msgs(st.blocked)) && Invalidating(ws, DirLookup(st.dir).mask, st.blocked[0].msg)
    requires st.blocked[0].msg.typ.WriteMiss? || st.blocked[0].msg.typ.InvalidateOther?
    requires st.pending == Some(1) && |Acking(ws)| == 0 && DirLookup(st.dir).status.Shared?
    ensures Kept(c, st, ws, hb, HandleInvalidateAck(c, c.home, st))
  {
    var m := st.blocked[0].msg;
    assert (hb + Msgs(st.blocked))[Msg(m.src, m.typ)] >= 1;
    forall i | 0 <= i < |ws| ensures ws[i].ack == 0 { assert i !in Acking(ws); }
    var typ := if m.typ.InvalidateOther? then InvalidateOtherAck else DataValueReply;
    Answer(c, m.src, ws, typ);
    assert IdleOwner(Sent(c, ws, [Send(m.src, Msg(c.home, typ))]), m.src, hb);
    FrontOk(c, st, ws, hb, typ,
            st.(blocked := st.blocked[1..], dir := DirUpdate(st.dir, Modified, m.src), pending := None));
  }
}
