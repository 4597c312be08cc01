/** The invariant of the whole message-passing system at one address. */
module CoherenceSystem {
  import opened Coherence
  import opened CoherenceView
  import opened CoherenceHome

  function LineOf(l: Line): VLine {
    match l case I => Gone case S => Copy case E => Owned case M => Owned
  }

  /** A demand on the node's own line sits in front of the requests home keeps in the same queue. */
  function DemandOf(q: seq<Blocked>): Demand {
    if q == [] then NoDemand
    else if q[0].msg.typ.Invalidate? then ByInvalidate
    else if q[0].msg.typ.Fetch? then ByFetch
    else if q[0].msg.typ.FetchInvalidate? then ByFetchInvalidate
    else NoDemand
  }

  function Requests(q: seq<Blocked>): seq<Blocked> {
    if DemandOf(q).NoDemand? then q else q[1..]
  }

  function HomeBag(c: Config, s: System): multiset<Msg>
    requires c.home < |s|
  {
    multiset(s[c.home].inbox)
  }

  function NowOf(st: Slice, i: nat, hb: multiset<Msg>): View {
    var d := DemandOf(st.blocked);
    View(LineOf(st.line), d, st.phase,
         hb[Msg(i, DataWriteBack)] + (if d.ByFetch? || d.ByFetchInvalidate? then 1 else 0),
         hb[Msg(i, InvalidateAck)] + (if d.ByInvalidate? then 1 else 0), true)
  }

  function Now(c: Config, s: System, i: nat): View
    requires c.home < |s| && i < |s|
  {
    NowOf(s[i].st, i, HomeBag(c, s))
  }

  function ViewAt(c: Config, s: System, i: nat): View
    requires c.home < |s| && i < |s|
  {
    Look(c, i, Now(c, s, i), s[i].inbox)
  }

  function ViewsOf(c: Config, s: System): (r: Views)
    requires c.home < |s|
  {
    seq(|s|, i requires 0 <= i < |s| => ViewAt(c, s, i))
  }

  /** Whether the node still waits for the cache's answer to request `r`. */
  function Owed(d: Demand, p: Phase, r: CacheReq): nat {
    match r
    case CacheRead => if p.Reading? then 1 else 0
    case CacheUpdate => if p.Filling? then 1 else 0
    case CacheInvalidate => if d.ByInvalidate? || d.ByFetchInvalidate? then 1 else 0
    case CacheFetch => if d.ByFetch? then 1 else 0
  }

  predicate Balanced(i: nat, inbox: seq<Msg>, cacheQ: seq<CacheReq>, d: Demand, p: Phase) {
    forall r :: multiset(inbox)[Msg(i, CacheAnswer(r))] + multiset(cacheQ)[r] == Owed(d, p, r)
  }

  predicate SlotOk(c: Config, i: nat, st: Slice) {
    && (!DemandOf(st.blocked).NoDemand? ==> st.blocked[0].serviced && st.blocked[0].msg.src == c.home)
    && (i != c.home ==> Requests(st.blocked) == [])
  }

  ghost predicate NodeOk(c: Config, i: nat, x: Node) {
    && SlotOk(c, i, x.st)
    && Fits(LineOf(x.st.line), x.st.phase)
    && Balanced(i, x.inbox, x.cacheQ, DemandOf(x.st.blocked), x.st.phase)
  }

  predicate KnownSources(c: Config, q: seq<Msg>) {
    forall k :: 0 <= k < |q| && ForHome(q[k].typ) ==> q[k].src < c.n
  }

  ghost predicate Inv(c: Config, s: System) {
    && c.Valid() && |s| == c.n
    && (forall i :: 0 <= i < |s| ==> NodeOk(c, i, s[i]))
    && KnownSources(c, s[c.home].inbox)
    && var h := s[c.home].st;
       HomeInv(c, h.dir, h.pending, Requests(h.blocked), ViewsOf(c, s), HomeBag(c, s))
  }

  /** The invariant at one node. */
  lemma InvAt(c: Config, s: System, i: nat)
    requires Inv(c, s) && i < |s|
    ensures c.Valid() && |s| == c.n && NodeOk(c, i, s[i]) && ViewOk(ViewAt(c, s, i))
  {
    assert ViewOk(ViewsOf(c, s)[i]);
  }

  lemma HeadOk(c: Config, s: System, i: nat)
    requires c.Valid() && |s| == c.n && i < c.n && ViewAt(c, s, i).ok && s[i].inbox != []
    ensures Look1(c, i, Now(c, s, i), s[i].inbox[0]).ok
  {
    LookOk(c, i, Look1(c, i, Now(c, s, i), s[i].inbox[0]), s[i].inbox[1..]);
  }

  lemma InitInv(c: Config)
    requires c.Valid()
    ensures Inv(c, Init(c))
  {
    var s := Init(c);
    var vs := ViewsOf(c, s);
    forall i | 0 <= i < |s| ensures vs[i] == View(Gone, NoDemand, Idle, 0, 0, true) {
    }
    assert OneEach(vs, HomeBag(c, s) + Msgs([]));
  }

  // ---------- what home sends ----------

  lemma {:induction false} PushKeeps(c: Config, s: System, sends: seq<Send>)
    requires c.Valid() && |s| == c.n && ToNodes(c, sends)
    ensures var t := Push(s, sends);
            && (forall i :: 0 <= i < c.n ==> t[i].st == s[i].st && t[i].cacheQ == s[i].cacheQ)
            && (forall i :: 0 <= i < c.n ==> s[i].inbox <= t[i].inbox)
            && (KnownSources(c, s[c.home].inbox) ==> KnownSources(c, t[c.home].inbox))
    decreases |sends|
  {
    if sends != [] {
      var x := sends[0];
      assert x in sends;
      assert ToNodes(c, sends[1..]);
      PushKeeps(c, s[x.dst := s[x.dst].(inbox := s[x.dst].inbox + [x.msg])], sends[1..]);
    }
  }

  lemma {:induction false} PushBags(c: Config, s: System, sends: seq<Send>, i: nat, m: Msg)
    requires c.Valid() && |s| == c.n && ToNodes(c, sends) && i < c.n && !FromHome(m.typ)
    ensures multiset(Push(s, sends)[i].inbox)[m] == multiset(s[i].inbox)[m]
    decreases |sends|
  {
    if sends != [] {
      var x := sends[0];
      assert x in sends;
      assert ToNodes(c, sends[1..]);
      PushBags(c, s[x.dst := s[x.dst].(inbox := s[x.dst].inbox + [x.msg])], sends[1..], i, m);
    }
  }

  lemma {:induction false} PushSent(c: Config, s: System, sends: seq<Send>)
    requires c.Valid() && |s| == c.n && ToNodes(c, sends)
    ensures ViewsOf(c, Push(s, sends)) == Sent(c, ViewsOf(c, s), sends)
    decreases |sends|
  {
    if sends != [] {
      var x := sends[0];
      assert x in sends;
      var u := s[x.dst := s[x.dst].(inbox := s[x.dst].inbox + [x.msg])];
      PushOneView(c, s, x, u);
      assert ToNodes(c, sends[1..]);
      PushSent(c, u, sends[1..]);
    }
  }

  /** Handing out home's messages advances the views by one step each, and leaves all else alone. */
  lemma PushViews(c: Config, s: System, sends: seq<Send>)
    requires c.Valid() && |s| == c.n && ToNodes(c, sends)
    ensures var t := Push(s, sends);
            && ViewsOf(c, t) == Sent(c, ViewsOf(c, s), sends)
            && (forall i :: 0 <= i < c.n ==> t[i].st == s[i].st && t[i].cacheQ == s[i].cacheQ)
            && (forall i :: 0 <= i < c.n ==> s[i].inbox <= t[i].inbox)
            && (forall i, m: Msg :: 0 <= i < c.n && !FromHome(m.typ) ==>
                  multiset(t[i].inbox)[m] == multiset(s[i].inbox)[m])
            && (KnownSources(c, s[c.home].inbox) ==> KnownSources(c, t[c.home].inbox))
  {
    PushKeeps(c, s, sends);
    PushSent(c, s, sends);
    forall i, m: Msg | 0 <= i < c.n && !FromHome(m.typ)
      ensures multiset(Push(s, sends)[i].inbox)[m] == multiset(s[i].inbox)[m]
    {
      PushBags(c, s, sends, i, m);
    }
  }

  lemma SameNow(c: Config, s: System, x: Send, u: System, i: nat)
    requires c.Valid() && |s| == c.n && x.dst < c.n && FromHome(x.msg.typ) && i < c.n
    requires u == s[x.dst := s[x.dst].(inbox := s[x.dst].inbox + [x.msg])]
    ensures Now(c, u, i) == Now(c, s, i)
  {
    assert x.msg != Msg(i, DataWriteBack) && x.msg != Msg(i, InvalidateAck);
  }

  lemma PushOneView(c: Config, s: System, x: Send, u: System)
    requires c.Valid() && |s| == c.n && x.dst < c.n && FromHome(x.msg.typ)
    requires u == s[x.dst := s[x.dst].(inbox := s[x.dst].inbox + [x.msg])]
    ensures ViewsOf(c, u) == ViewsOf(c, s)[x.dst := Look1(c, x.dst, ViewAt(c, s, x.dst), x.msg)]
  {
    forall i: nat | i < c.n ensures Now(c, u, i) == Now(c, s, i) { SameNow(c, s, x, u, i); }
    LookAppend(c, x.dst, Now(c, s, x.dst), s[x.dst].inbox, x.msg);
  }
}
