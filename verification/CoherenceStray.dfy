/** Why evictions may only be reported for lines a node tracks.  `Cache::invalidateLine` clears the valid
    bit of a copy, so a cache keeps a line its node has given up, and evicts it later.
    `cacheLineStatus[addr]` reads the line, no longer tracked, as M: the node writes back a line it does
    not have, and home takes the real owner's copy for gone. */
module CoherenceStray {
  import opened Common
  import opened Coherence
  import opened CoherenceSteps
  import opened CoherenceSafety

  // ---------- what the caches hold ----------

  /** The nodes whose cache keeps the line: an update stores it, and only an eviction removes it. */
  function Kept(s: System, a: Action, held: set<nat>): set<nat> {
    match a
    case CacheAnswers(i) => if i < |s| && s[i].cacheQ != [] && s[i].cacheQ[0] == CacheUpdate then held + {i} else held
    case Evict(i) => held - {i}
    case _ => held
  }

  function Held(tr: seq<System>, acts: seq<Action>, k: nat): set<nat>
    requires k <= |acts| <= |tr|
  {
    if k == 0 then {} else Kept(tr[k - 1], acts[k - 1], Held(tr, acts, k - 1))
  }

  /** Each eviction is of a line in the cache. */
  predicate CacheLike(tr: seq<System>, acts: seq<Action>)
    requires |acts| <= |tr|
  {
    forall k :: 0 <= k < |acts| && acts[k].Evict? ==> acts[k].i in Held(tr, acts, k)
  }

  /** The state follows a run of nodes and caches, after which the nodes `held` keep the line. */
  ghost predicate Comes(c: Config, s: System, held: set<nat>) {
    exists tr, acts :: Run(c, true, tr, acts) && CacheLike(tr, acts) && tr[|acts|] == s
                       && Held(tr, acts, |acts|) == held
  }

  lemma {:induction false} HeldBefore(tr: seq<System>, acts: seq<Action>, s: System, a: Action, k: nat)
    requires k <= |acts| <= |tr|
    ensures Held(tr + [s], acts + [a], k) == Held(tr, acts, k)
  {
    if k > 0 { HeldBefore(tr, acts, s, a, k - 1); }
  }

  lemma ComesStep(c: Config, s: System, a: Action, t: System, held: set<nat>)
    requires Comes(c, s, held) && Step(c, true, s, a, t) && (a.Evict? ==> a.i in held)
    ensures Comes(c, t, Kept(s, a, held))
  {
    var tr, acts :| Run(c, true, tr, acts) && CacheLike(tr, acts) && tr[|acts|] == s && Held(tr, acts, |acts|) == held;
    RunLonger(c, true, tr, acts, a, t);
    LikeLonger(tr, acts, a, t);
    assert (tr + [t])[|acts + [a]|] == t;
  }

  lemma LikeLonger(tr: seq<System>, acts: seq<Action>, a: Action, t: System)
    requires |tr| == |acts| + 1 && CacheLike(tr, acts) && (a.Evict? ==> a.i in Held(tr, acts, |acts|))
    ensures CacheLike(tr + [t], acts + [a])
    ensures Held(tr + [t], acts + [a], |acts| + 1) == Kept(tr[|acts|], a, Held(tr, acts, |acts|))
  {
    forall k: nat | k <= |acts| ensures Held(tr + [t], acts + [a], k) == Held(tr, acts, k) {
      HeldBefore(tr, acts, t, a, k);
    }
  }

  lemma ComesInit(c: Config)
    ensures Comes(c, Init(c), {})
  {
    var tr, acts := [Init(c)], [];
    assert Run(c, true, tr, acts) && CacheLike(tr, acts) && tr[|acts|] == Init(c);
  }

  // ---------- two writers ----------

  /** All nodes idle except home and node `v`. */
  function Two(c: Config, v: nat, xh: Node, xv: Node): System
    requires c.Valid() && v < c.n
  {
    Init(c)[c.home := xh][v := xv]
  }

  function Plain(line: Line, dir: Option<Entry>, p: Phase): Slice { Slice(line, dir, None, [], p) }

  function Acted(x: Node, a: Action, o: Out): Node
    requires (a.Deliver? ==> x.inbox != []) && (a.CacheAnswers? ==> x.cacheQ != [])
  {
    Node(o.st, if a.Deliver? then x.inbox[1..] else x.inbox,
         (if a.CacheAnswers? then x.cacheQ[1..] else x.cacheQ) + o.cache)
  }

  function Got(x: Node, j: nat, sends: seq<Send>): Node {
    if sends != [] && sends[0].dst == j then x.(inbox := x.inbox + [sends[0].msg]) else x
  }

  /** The node alone can take the action. */
  predicate Can(x: Node, a: Action) {
    match a
    case Deliver(i) => x.inbox != []
    case CacheAnswers(i) => x.cacheQ != []
    case Start(i, write) => x.st.phase == Idle
    case Evict(i) => true
  }

  /** What the action makes of the node, and what it sends. */
  function Does(c: Config, x: Node, a: Action): Out
    requires Can(x, a)
  {
    match a
    case Deliver(i) => Receive(c, i, x.st, x.inbox[0])
    case CacheAnswers(i) => Done(x.st, [Send(i, Msg(i, CacheAnswer(x.cacheQ[0])))], [], true)
    case Start(i, write) => Issue(c, i, x.st, write)
    case Evict(i) => Receive(c, i, x.st, Msg(0, CacheEvictionAlert))
  }

  predicate ToOne(sends: seq<Send>, i: nat, j: nat) {
    sends == [] || (|sends| == 1 && (sends[0].dst == i || sends[0].dst == j))
  }

  function Keeps(x: Node, a: Action, held: set<nat>): set<nat>
    requires Can(x, a)
  {
    match a
    case CacheAnswers(i) => if x.cacheQ[0] == CacheUpdate then held + {i} else held
    case Evict(i) => held - {i}
    case _ => held
  }

  /** Home, node `v`, and the nodes whose cache keeps the line. */
  datatype Pair = Pair(x: Node, y: Node, held: set<nat>)

  predicate Moves(c: Config, v: nat, p: Pair, a: Action, p': Pair) {
    var n := if a.i == c.home then p.x else p.y;
    && (a.i == c.home || a.i == v) && Can(n, a) && (a.Evict? ==> a.i in p.held)
    && var o := Does(c, n, a);
       && ToOne(o.sends, c.home, v) && p'.held == Keeps(n, a, p.held)
       && p'.x == Got(if a.i == c.home then Acted(p.x, a, o) else p.x, c.home, o.sends)
       && p'.y == Got(if a.i != c.home then Acted(p.y, a, o) else p.y, v, o.sends)
  }

  lemma TwoStep(c: Config, v: nat, xh: Node, xv: Node, a: Action, o: Out, xh': Node, xv': Node, held: set<nat>)
    requires c.Valid() && v < c.n && v != c.home && (a.i == c.home || a.i == v)
    requires var s := Two(c, v, xh, xv);
             && Comes(c, s, held) && Enabled(c, true, s, a) && o == Outcome(c, s, a) && (a.Evict? ==> a.i in held)
             && ToOne(o.sends, c.home, v)
             && xh' == Got(if a.i == c.home then Acted(xh, a, o) else xh, c.home, o.sends)
             && xv' == Got(if a.i != c.home then Acted(xv, a, o) else xv, v, o.sends)
    ensures Comes(c, Two(c, v, xh', xv'), Kept(Two(c, v, xh, xv), a, held))
  {
    var s, t := Two(c, v, xh, xv), Two(c, v, xh', xv');
    PushTwo(c, v, xh, xv, a, o, xh', xv');
    ComesStep(c, s, a, t, held);
  }

  lemma PushTwo(c: Config, v: nat, xh: Node, xv: Node, a: Action, o: Out, xh': Node, xv': Node)
    requires c.Valid() && v < c.n && v != c.home && (a.i == c.home || a.i == v)
    requires var x := if a.i == c.home then xh else xv;
             && (a.Deliver? ==> x.inbox != []) && (a.CacheAnswers? ==> x.cacheQ != [])
             && ToOne(o.sends, c.home, v)
             && xh' == Got(if a.i == c.home then Acted(xh, a, o) else xh, c.home, o.sends)
             && xv' == Got(if a.i == v then Acted(xv, a, o) else xv, v, o.sends)
    ensures var s := Two(c, v, xh, xv);
            Sendable(s, o) && Two(c, v, xh', xv') == Push(s[a.i := Acted(s[a.i], a, o)], o.sends)
  {
    var s := Two(c, v, xh, xv);
    if o.sends != [] {
      assert o.sends == [o.sends[0]];
      PushOne(s[a.i := Acted(s[a.i], a, o)], o.sends[0]);
    }
  }

  // ---------- the run ----------

  function Granted(line: Line, owner: nat, p: Phase): Slice { Plain(line, Some(Entry(Modified, {owner})), p) }

  function Asked(c: Config, v: nat, line: Line, front: seq<Blocked>): Slice {
    Granted(line, c.home, Idle).(blocked := front + [Blocked(Msg(v, WriteMiss), true)])
  }

  /** The run, as actions with the states before them: home writes (0-4); `v` writes, which makes home give
      the line up while its cache keeps it (5-11); home's cache evicts the line (12-13); home writes again
      (14-16). */
  function Turn(c: Config, v: nat, k: nat): (Action, Pair) {
    var h, i := c.home, Plain(I, None, Idle);
    var own := [Blocked(Msg(h, FetchInvalidate), true)];
    var y, y1 := Node(i, [], []), Node(Plain(I, None, AskWrite), [], []);
    var w := Node(Plain(M, None, Filling(true)), [], [CacheUpdate]);
    match k
    case 0 => (Start(h, true), Pair(Node(i, [], []), y, {}))
    case 1 => (Deliver(h), Pair(Node(Plain(I, None, AskWrite), [Msg(h, WriteMiss)], []), y, {}))
    case 2 => (Deliver(h), Pair(Node(Granted(I, h, AskWrite), [Msg(h, DataValueReply)], []), y, {}))
    case 3 => (CacheAnswers(h), Pair(Node(Granted(M, h, Filling(true)), [], [CacheUpdate]), y, {}))
    case 4 => (Deliver(h), Pair(Node(Granted(M, h, Filling(true)), [Msg(h, CacheUpdateAck)], []), y, {h}))
    case 5 => (Start(v, true), Pair(Node(Granted(M, h, Idle), [], []), y, {h}))
    case 6 => (Deliver(h), Pair(Node(Granted(M, h, Idle), [Msg(v, WriteMiss)], []), y1, {h}))
    case 7 => (Deliver(h), Pair(Node(Asked(c, v, M, []), [Msg(h, FetchInvalidate)], []), y1, {h}))
    case 8 => (CacheAnswers(h), Pair(Node(Asked(c, v, I, own), [], [CacheInvalidate]), y1, {h}))
    case 9 => (Deliver(h), Pair(Node(Asked(c, v, I, own), [Msg(h, CacheInvalidateAck)], []), y1, {h}))
    case 10 => (Deliver(h), Pair(Node(Asked(c, v, I, []), [Msg(h, DataWriteBack)], []), y1, {h}))
    case 11 => (Deliver(v), Pair(Node(Granted(I, v, Idle), [], []), y1.(inbox := [Msg(h, DataValueReply)]), {h}))
    case 12 => (Evict(h), Pair(Node(Granted(I, v, Idle), [], []), w, {h}))
    case 13 => (Deliver(h), Pair(Node(Granted(I, v, Idle), [Msg(h, DataWriteBack)], []), w, {}))
    case 14 => (Start(h, true), Pair(Node(i, [], []), w, {}))
    case 15 => (Deliver(h), Pair(Node(Plain(I, None, AskWrite), [Msg(h, WriteMiss)], []), w, {}))
    case 16 => (Deliver(h), Pair(Node(Granted(I, h, AskWrite), [Msg(h, DataValueReply)], []), w, {}))
    case _ => (Evict(h), Pair(Node(Granted(M, h, Filling(true)), [], [CacheUpdate]), w, {}))
  }

  ghost predicate Legal(c: Config, v: nat, k: nat) {
    Moves(c, v, Turn(c, v, k).1, Turn(c, v, k).0, Turn(c, v, k + 1).1)
  }

  lemma FirstWrite(c: Config, v: nat, k: nat)
    requires c.Valid() && v < c.n && v != c.home && k < 5
    ensures Legal(c, v, k)
  {
  }

  lemma Demanded(c: Config, v: nat, k: nat)
    requires c.Valid() && v < c.n && v != c.home && 5 <= k < 9
    ensures Legal(c, v, k)
  {
  }

  lemma CacheToldOnly(c: Config, v: nat)
    requires c.Valid() && v < c.n && v != c.home
    ensures Legal(c, v, 9)
  {
  }

  lemma WrittenBack(c: Config, v: nat)
    requires c.Valid() && v < c.n && v != c.home
    ensures Legal(c, v, 10) && Legal(c, v, 11)
  {
  }

  lemma EvictedLate(c: Config, v: nat, k: nat)
    requires c.Valid() && v < c.n && v != c.home && 12 <= k < 14
    ensures Legal(c, v, k)
  {
  }

  lemma SecondWrite(c: Config, v: nat, k: nat)
    requires c.Valid() && v < c.n && v != c.home && 14 <= k < 17
    ensures Legal(c, v, k)
  {
  }

  lemma TurnLegal(c: Config, v: nat, k: nat)
    requires c.Valid() && v < c.n && v != c.home && k < 17
    ensures Legal(c, v, k)
  {
    if k < 5 { FirstWrite(c, v, k); }
    else if k < 9 { Demanded(c, v, k); }
    else if k == 9 { CacheToldOnly(c, v); }
    else if k < 12 { WrittenBack(c, v); }
    else if k < 14 { EvictedLate(c, v, k); }
    else { SecondWrite(c, v, k); }
  }

  ghost predicate TurnComes(c: Config, v: nat, k: nat)
    requires c.Valid() && v < c.n
  {
    var p := Turn(c, v, k).1;
    Comes(c, Two(c, v, p.x, p.y), p.held)
  }

  lemma NextComes(c: Config, v: nat, k: nat)
    requires c.Valid() && v < c.n && v != c.home && Legal(c, v, k) && TurnComes(c, v, k)
    ensures TurnComes(c, v, k + 1)
  {
    var (a, p) := Turn(c, v, k);
    var p' := Turn(c, v, k + 1).1;
    TwoStep(c, v, p.x, p.y, a, Does(c, if a.i == c.home then p.x else p.y, a), p'.x, p'.y, p.held);
  }

  lemma {:induction false} AllCome(c: Config, v: nat, k: nat)
    requires c.Valid() && v < c.n && v != c.home && k <= 17
    ensures TurnComes(c, v, k)
  {
    if k == 0 {
      ComesInit(c);
      assert Init(c) == Two(c, v, InitNode(), InitNode());
    } else {
      AllCome(c, v, k - 1);
      TurnLegal(c, v, k - 1);
      NextComes(c, v, k - 1);
    }
  }

  predicate BothWrite(c: Config, v: nat, s: System)
    requires c.Valid()
  {
    |s| == c.n && v < c.n && s[c.home].st.line == M && s[v].st.line == M
  }

  lemma LastTurn(c: Config, v: nat)
    requires c.Valid() && v < c.n && v != c.home
    ensures var p := Turn(c, v, 17).1; BothWrite(c, v, Two(c, v, p.x, p.y))
  {
  }

  lemma ComesFrom(c: Config, s: System, held: set<nat>) returns (tr: seq<System>, acts: seq<Action>)
    requires Comes(c, s, held)
    ensures Run(c, true, tr, acts) && CacheLike(tr, acts) && tr[|acts|] == s
  {
    tr, acts :| Run(c, true, tr, acts) && CacheLike(tr, acts) && tr[|acts|] == s && Held(tr, acts, |acts|) == held;
  }

  /** Home and `v` end with the line in M, after a run in which each cache evicts only what it keeps. */
  lemma TwoWriters(c: Config, v: nat) returns (tr: seq<System>, acts: seq<Action>)
    requires c.Valid() && v < c.n && v != c.home
    ensures Run(c, true, tr, acts) && CacheLike(tr, acts) && BothWrite(c, v, tr[|acts|])
  {
    AllCome(c, v, 17);
    LastTurn(c, v);
    var p := Turn(c, v, 17).1;
    tr, acts := ComesFrom(c, Two(c, v, p.x, p.y), p.held);
  }

  /** With two nodes or more and caches that evict only what they keep, a line has a single writer at the
      end of every run if and only if only evictions of tracked lines are reported. */
  lemma SingleWriterIff(c: Config, strays: bool)
    requires c.Valid() && c.n >= 2
    ensures (forall tr, acts :: Run(c, strays, tr, acts) && CacheLike(tr, acts) ==> Exclusively(tr[|acts|]))
            <==> !strays
  {
    if strays {
      var v := if c.home == 0 then 1 else 0;
      var tr, acts := TwoWriters(c, v);
      assert BothWrite(c, v, tr[|acts|]);
      assert Run(c, strays, tr, acts) && CacheLike(tr, acts) && !Exclusively(tr[|acts|]);
    } else {
      forall tr, acts | Run(c, strays, tr, acts) && CacheLike(tr, acts) ensures Exclusively(tr[|acts|]) {
        assert Reachable(c, strays, tr[|acts|]);
        SingleWriter(c, tr[|acts|]);
      }
    }
  }
}
